/** The descendants of a process in a `ps` table and their resident memory, as computed by the
    changed-flag loops of scripts/collect_resource_observations.py and
    scripts/run_live_ocr_benchmark.py.  The parent map is arbitrary: it may have cycles,
    self-parents and parents that have no row. */
module ProcessTree {

  import opened Sequences
  import opened Wrappers

  datatype Row = Row(parent: int, rssKib: int)

  type Table = map<int, Row>

  datatype ProcessError = ProcessUnavailable

  // ---------- Reachability ----------

  /** `path` goes down from `root`, each further process being a child of the one before. */
  ghost predicate IsDescent(rows: Table, path: seq<int>, root: int) {
    && path != []
    && path[0] == root
    && forall k :: 1 <= k < |path| ==> path[k] in rows && rows[path[k]].parent == path[k - 1]
  }

  ghost predicate Descends(rows: Table, root: int, pid: int) {
    exists path :: IsDescent(rows, path, root) && Last(path) == pid
  }

  /** The processes the loops are meant to find. */
  ghost predicate IsTree(rows: Table, root: int, tree: set<int>) {
    forall pid :: pid in tree <==> Descends(rows, root, pid)
  }

  ghost predicate Closed(rows: Table, tree: set<int>) {
    forall pid :: pid in rows && rows[pid].parent in tree ==> pid in tree
  }

  lemma RootDescends(rows: Table, root: int)
    ensures Descends(rows, root, root)
  {
    assert IsDescent(rows, [root], root) && Last([root]) == root;
  }

  lemma ChildDescends(rows: Table, root: int, pid: int)
    requires pid in rows && Descends(rows, root, rows[pid].parent)
    ensures Descends(rows, root, pid)
  {
    var path :| IsDescent(rows, path, root) && Last(path) == rows[pid].parent;
    assert IsDescent(rows, path + [pid], root) && Last(path + [pid]) == pid;
  }

  lemma {:induction false} ClosedHoldsDescent(rows: Table, root: int, tree: set<int>, path: seq<int>)
    requires root in tree && Closed(rows, tree) && IsDescent(rows, path, root)
    ensures Last(path) in tree
    decreases |path|
  {
    if |path| == 1 {
    } else {
      assert IsDescent(rows, Init(path), root) && Last(Init(path)) == path[|path| - 2];
      ClosedHoldsDescent(rows, root, tree, Init(path));
      var pid := Last(path);
      assert pid in rows && rows[pid].parent == path[|path| - 2];
    }
  }

  lemma ClosedIsTree(rows: Table, root: int, tree: set<int>)
    requires root in tree && Closed(rows, tree)
    requires forall pid :: pid in tree ==> Descends(rows, root, pid)
    ensures IsTree(rows, root, tree)
  {
    forall pid | Descends(rows, root, pid) ensures pid in tree {
      var path :| IsDescent(rows, path, root) && Last(path) == pid;
      ClosedHoldsDescent(rows, root, tree, path);
    }
  }

  /** Whatever the iteration order, there is one tree. */
  lemma TreeUnique(rows: Table, root: int, tree: set<int>, other: set<int>)
    requires IsTree(rows, root, tree) && IsTree(rows, root, other)
    ensures tree == other
  {
    forall pid ensures pid in tree <==> pid in other {
      assert pid in tree <==> Descends(rows, root, pid);
    }
  }

  // ---------- The changed-flag loop ----------

  /** `order` lists the keys of the table in the order of the dictionary. */
  method Tree(rows: Table, order: seq<int>, root: int) returns (tree: set<int>)
    requires forall pid :: pid in order <==> pid in rows
    ensures IsTree(rows, root, tree)
  {
    tree := {root};
    RootDescends(rows, root);
    var changed := true;
    while changed
      invariant root in tree
      invariant forall pid :: pid in tree ==> Descends(rows, root, pid)
      invariant !changed ==> Closed(rows, tree)
      decreases rows.Keys - tree, changed
    {
      changed := false;
      ghost var before := tree;
      for k := 0 to |order|
        invariant before <= tree && (changed <==> before != tree)
        invariant changed ==> rows.Keys - tree < rows.Keys - before
        invariant forall pid :: pid in tree ==> Descends(rows, root, pid)
        invariant !changed ==>
          forall j :: 0 <= j < k && order[j] in rows && rows[order[j]].parent in tree ==> order[j] in tree
      {
        assert order[k] in order;
        var pid := order[k];
        if rows[pid].parent in tree && pid !in tree {
          ChildDescends(rows, root, pid);
          assert pid in rows.Keys - before && pid !in rows.Keys - (tree + {pid});
          tree := tree + {pid};
          changed := true;
        }
      }
    }
    ClosedIsTree(rows, root, tree);
  }

  /** Two runs of the loop find the same processes, in whatever orders they see the rows. */
  method TreeAnyOrder(rows: Table, order: seq<int>, otherOrder: seq<int>, root: int)
    returns (tree: set<int>, other: set<int>)
    requires forall pid :: pid in order <==> pid in rows
    requires forall pid :: pid in otherOrder <==> pid in rows
    ensures tree == other
  {
    tree := Tree(rows, order, root);
    other := Tree(rows, otherOrder, root);
    TreeUnique(rows, root, tree, other);
  }

  // ---------- Summing resident memory ----------

  /** The memory of a process; one without a row counts nothing. */
  function Rss(rows: Table, pid: int): int {
    if pid in rows then rows[pid].rssKib else 0
  }

  ghost function Member<T(!new)>(s: set<T>): (x: T)
    requires s != {}
    ensures x in s
  {
    var x :| x in s;
    x
  }

  ghost function SumRss(rows: Table, pids: set<int>): int {
    if pids == {} then 0
    else Rss(rows, Member(pids)) + SumRss(rows, pids - {Member(pids)})
  }

  /** The sum does not depend on which process is taken first. */
  lemma {:induction false} SumPick(rows: Table, pids: set<int>, pid: int)
    requires pid in pids
    ensures SumRss(rows, pids) ==
      (if pid in rows then rows[pid].rssKib else 0) + if pids == {pid} then 0 else SumRss(rows, pids - {pid})
    decreases pids
  {
    var first := Member(pids);
    if first == pid {
    } else {
      SumPick(rows, pids - {first}, pid);
      SumPick(rows, pids - {pid}, first);
      assert pids - {first} - {pid} == pids - {pid} - {first};
    }
  }

  method SumOver(rows: Table, pids: set<int>) returns (sum: int)
    ensures sum == SumRss(rows, pids)
  {
    sum := 0;
    var rest := pids;
    while rest != {}
      invariant rest <= pids && sum + SumRss(rows, rest) == SumRss(rows, pids)
      decreases rest
    {
      var pid :| pid in rest;
      SumPick(rows, rest, pid);
      sum := sum + Rss(rows, pid);
      rest := rest - {pid};
    }
  }

  /** `_rss_bytes`: a missing root is an error. */
  method RssBytes(rows: Table, order: seq<int>, pid: int) returns (r: Result<int, ProcessError>)
    requires forall p :: p in order <==> p in rows
    ensures r.Failure? <==> pid !in rows
    ensures r.Success? ==> exists tree :: IsTree(rows, pid, tree) && r.value == SumRss(rows, tree) * 1024
  {
    if pid !in rows {
      return Failure(ProcessUnavailable);
    }
    var tree := Tree(rows, order, pid);
    var sum := SumOver(rows, tree);
    r := Success(sum * 1024);
  }

  /** `_process_tree_rss`: a missing root counts nothing itself, but its children still count. */
  method ProcessTreeRss(rows: Table, order: seq<int>, root: int) returns (bytes: int)
    requires forall p :: p in order <==> p in rows
    ensures exists tree :: IsTree(rows, root, tree) && bytes == SumRss(rows, tree) * 1024
  {
    var active := Tree(rows, order, root);
    var sum := SumOver(rows, active);
    bytes := sum * 1024;
  }

  /** The two copies agree on a present root, even when they see the rows in different orders. */
  method CopiesAgree(rows: Table, order: seq<int>, otherOrder: seq<int>, root: int)
    returns (first: Result<int, ProcessError>, second: int)
    requires root in rows
    requires forall p :: p in order <==> p in rows
    requires forall p :: p in otherOrder <==> p in rows
    ensures first == Success(second)
  {
    first := RssBytes(rows, order, root);
    second := ProcessTreeRss(rows, otherOrder, root);
    ghost var tree :| IsTree(rows, root, tree) && first.value == SumRss(rows, tree) * 1024;
    ghost var other :| IsTree(rows, root, other) && second == SumRss(rows, other) * 1024;
    TreeUnique(rows, root, tree, other);
  }
}
