/** Which pages a run covers, stated on the lease and the page count alone: the pages the lease
    lists, in ascending order, or all pages of the document when it lists none. */
module ParsePages {

  import opened ParseModel
  import opened ParseResults
  import opened ParseTrace
  import opened Sequences
  import opened Wrappers

  /** The ordinals are ascending and exactly the pages of the lease. */
  ghost predicate CoversLease(lease: Lease, total: int, ordinals: seq<int>) {
    && (forall i, j :: 0 <= i < j < |ordinals| ==> ordinals[i] < ordinals[j])
    && forall o ::
         o in ordinals <==> if lease.requestedPages == [] then 1 <= o <= total else o in lease.requestedPages
  }

  lemma SortNothing()
    ensures SortOrdinals([]) == []
  {
  }

  lemma {:induction false} RequestedMeaning(lease: Lease, total: int)
    ensures CoversLease(lease, total, Requested(lease, total))
  {
    hide SortOrdinals;
    SortAscending(lease.requestedPages);
    var sorted := SortOrdinals(lease.requestedPages);
    if lease.requestedPages == [] {
      SortNothing();
      forall o | 1 <= o <= total ensures o in AllOrdinals(total) {
        assert AllOrdinals(total)[o - 1] == o;
      }
    } else {
      assert lease.requestedPages[0] in sorted;
    }
  }

  /** Ascending ordinals that are exactly `1..total` are these numbers in order. */
  lemma {:induction false} AscendingInterval(ordinals: seq<int>, total: int, i: nat)
    requires forall i, j :: 0 <= i < j < |ordinals| ==> ordinals[i] < ordinals[j]
    requires forall o :: o in ordinals <==> 1 <= o <= total
    requires i < |ordinals|
    ensures ordinals[i] == i + 1
    decreases i
  {
    assert ordinals[i] in ordinals;
    if i == 0 {
      assert 1 in ordinals;
    } else {
      AscendingInterval(ordinals, total, i - 1);
      assert i + 1 in ordinals;
    }
  }

  /** When the first page was not parsed, only the listed pages are known. */
  lemma {:induction false} RequestedWithout(env: Environment, lease: Lease, total: int)
    requires total == match env.parse(FirstOrdinal(lease)) case Parsed(doc) => doc.source.totalPages case _ => 0
    ensures CoversLease(lease, total, RequestedOf(env, lease))
  {
    RequestedMeaning(lease, total);
    hide CoversLease, SortOrdinals;
    if !env.parse(FirstOrdinal(lease)).Parsed? {
      assert SortOrdinals(lease.requestedPages) == Requested(lease, 0);
    }
  }

  lemma {:induction false} PrefixOfCovering(lease: Lease, total: int, requested: seq<int>, pages: seq<int>)
    requires CoversLease(lease, total, requested) && pages <= requested
    ensures forall i, j :: 0 <= i < j < |pages| ==> pages[i] < pages[j]
    ensures if lease.requestedPages == [] then forall i :: 0 <= i < |pages| ==> pages[i] == i + 1
      else
        && (forall o :: o in pages ==> o in lease.requestedPages)
        && forall o, c :: o in lease.requestedPages && c in pages && o < c ==> o in pages
  {
    if lease.requestedPages == [] {
      forall i: nat | i < |pages| ensures pages[i] == i + 1 {
        AscendingInterval(requested, total, i);
      }
    } else {
      forall o | o in pages ensures o in lease.requestedPages {
        assert o in requested;
      }
      forall o, c | o in lease.requestedPages && c in pages && o < c ensures o in pages {
        assert o in requested;
        var n :| 0 <= n < |requested| && requested[n] == o;
        var m :| 0 <= m < |pages| && pages[m] == c;
        assert requested[m] == c;
        assert n < m;
        assert pages[n] == o;
      }
    }
  }

  lemma {:induction false} CheckpointsMeaning(log: Log, o: int)
    ensures o in CheckpointsIn(Marks(log)) <==>
      exists i :: 0 <= i < |log| && log[i].effect.SaveCheckpoint? && log[i].effect.checkpoint.ordinal == o
    decreases |log|
  {
    if log == [] {
    } else {
      CheckpointsMeaning(Init(log), o);
      assert Init(Marks(log)) == Marks(Init(log));
      assert forall i :: 0 <= i < |log| - 1 ==> Init(log)[i] == log[i];
      assert Last(Marks(log)) == MarkOf(Last(log).effect);
    }
  }

  /** The checkpointed pages of any run, stopped anywhere or not: `1, 2, ...` for a lease that lists
      no pages, and otherwise listed pages, none before all smaller ones. */
  lemma {:induction false} CheckpointedPages(handler: Handler, env: Environment, lease: Lease)
    ensures var pages := CheckpointsIn(Marks(Handle(handler, env, lease, []).log));
      && (forall i, j :: 0 <= i < j < |pages| ==> pages[i] < pages[j])
      && if lease.requestedPages == [] then forall i :: 0 <= i < |pages| ==> pages[i] == i + 1
         else
           && (forall o :: o in pages ==> o in lease.requestedPages)
           && forall o, c :: o in lease.requestedPages && c in pages && o < c ==> o in pages
  {
    hide Handle, CheckpointsIn, WellOrdered, Requested, SortOrdinals, FirstOrdinal, Marks;
    HandleSafety(handler, env, lease);
    var pages, requested := CheckpointsIn(Marks(Handle(handler, env, lease, []).log)), RequestedOf(env, lease);
    var total := match env.parse(FirstOrdinal(lease)) case Parsed(doc) => doc.source.totalPages case _ => 0;
    RequestedWithout(env, lease, total);
    PrefixOfCovering(lease, total, requested, pages);
  }

  lemma {:induction false} FinalizeTotal(env: Environment, source: Source, requested: seq<int>,
                                         packaged: seq<PackagedPage>, log: Log)
    ensures var out := Finalize(env, source, requested, packaged, log);
      out.Done? ==> out.value.pageCount == source.totalPages
  {
    hide ValidAttempt, ValidTaskResult, SortOrdinals, FailedOf;
  }

  /** A finished run has checkpointed exactly the pages of the lease, or exactly the pages up to the
      page count it returns when the lease lists none, in ascending order. */
  lemma {:induction false} FinishedPages(handler: Handler, env: Environment, lease: Lease)
    requires Handle(handler, env, lease, []).Done?
    ensures var out := Handle(handler, env, lease, []);
      CoversLease(lease, out.value.pageCount, CheckpointsIn(Marks(out.log)))
  {
    hide Handle, HandlePages, Finalize, CheckpointsIn, Requested, SortOrdinals, FirstOrdinal, PagesScript, CoversLease;
    var out, requested := Handle(handler, env, lease, []), RequestedOf(env, lease);
    var first, ordinals := DoneRun(handler, env, lease, []);
    FinalizeTotal(env, first.source, ordinals, HandlePages(handler, env, first, ordinals, |ordinals|, []).value,
                  HandlePages(handler, env, first, ordinals, |ordinals|, []).log);
    HandleFollows(handler, env, lease, []);
    assert out.log[0..] == out.log;
    ScriptCheckpoints(env, requested);
    SmallCheckpoints(0);
    CheckpointsConcat(PagesScript(env, requested), [EnvelopeMark]);
    assert requested + [] == requested;
    RequestedMeaning(lease, first.source.totalPages);
  }
}
