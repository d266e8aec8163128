/** The rankings that evals/rag/ablation.py compares: candidates of one route in rank order, reranked
    candidates in score order, and reciprocal rank fusion of two routes
    (services/api/src/study_agent/modules/retrieval/rrf.py), over exact reals. */
module Rankings {

  import opened Sequences
  import opened Sorting
  import opened Wrappers

  datatype CandidateData = CandidateData(chunkId: string, rank: int, score: real)

  /** What a ranked candidate validates. */
  type Candidate = c: CandidateData | c.chunkId != "" && c.rank > 0 witness CandidateData("c", 1, 0.0)

  datatype RankingError = RouteNotList | CandidateInvalid | FusionConstant | FusionLimit | DuplicateCandidate

  function Ids(candidates: seq<Candidate>): seq<string> {
    seq(|candidates|, i requires 0 <= i < |candidates| => candidates[i].chunkId)
  }

  // ---------- Orders ----------

  /** Strings by code points, as Python compares them. */
  predicate StringLe(a: string, b: string) {
    a == [] || (b != [] && (a[0] < b[0] || (a[0] == b[0] && StringLe(a[1..], b[1..]))))
  }

  lemma {:induction false} StringLeTotal(a: string, b: string)
    ensures StringLe(a, b) || StringLe(b, a)
    ensures StringLe(a, b) && StringLe(b, a) ==> a == b
    decreases |a|
  {
    if a == [] || b == [] {
    } else {
      StringLeTotal(a[1..], b[1..]);
      assert a == [a[0]] + a[1..] && b == [b[0]] + b[1..];
    }
  }

  lemma {:induction false} StringLeTransitive(a: string, b: string, c: string)
    requires StringLe(a, b) && StringLe(b, c)
    ensures StringLe(a, c)
    decreases |a|
  {
    if a == [] {
    } else if a[0] == b[0] == c[0] {
      StringLeTransitive(a[1..], b[1..], c[1..]);
    }
  }

  /** The first difference decides, or the shorter string comes first. */
  lemma {:induction false} StringLeMeaning(a: string, b: string)
    ensures StringLe(a, b) <==>
      exists n: nat :: n <= |a| && n <= |b| && a[..n] == b[..n] && (n == |a| || (n < |b| && a[n] < b[n]))
    decreases |a|
  {
    assert a[..0] == b[..0];
    if a == [] || b == [] {
    } else if a[0] != b[0] {
      forall n: nat | 0 < n <= |a| && n <= |b| ensures a[..n] != b[..n] {
        assert a[..n][0] == a[0] && b[..n][0] == b[0];
      }
    } else {
      StringLeMeaning(a[1..], b[1..]);
      if n: nat :| n < |a| && n < |b| && a[1..][..n] == b[1..][..n]
                   && (n == |a| - 1 || (n < |b| - 1 && a[1..][n] < b[1..][n])) {
        assert a[..n + 1] == [a[0]] + a[1..][..n] && b[..n + 1] == [b[0]] + b[1..][..n];
      }
      if n: nat :| 0 < n <= |a| && n <= |b| && a[..n] == b[..n] && (n == |a| || (n < |b| && a[n] < b[n])) {
        assert a[1..][..n - 1] == a[..n][1..] && b[1..][..n - 1] == b[..n][1..];
      }
    }
  }

  /** The sort key `(rank, chunk_id)`. */
  predicate ByRank(a: Candidate, b: Candidate) {
    a.rank < b.rank || (a.rank == b.rank && StringLe(a.chunkId, b.chunkId))
  }

  /** The sort key `(-score, rank, chunk_id)`. */
  predicate ByScore(a: Candidate, b: Candidate) {
    a.score > b.score || (a.score == b.score && ByRank(a, b))
  }

  lemma RankOrder()
    ensures TotalOrder(ByRank)
    ensures forall a, b :: ByRank(a, b) && ByRank(b, a) ==> a.chunkId == b.chunkId && a.rank == b.rank
  {
    forall a: Candidate, b: Candidate
      ensures ByRank(a, b) || ByRank(b, a)
      ensures ByRank(a, b) && ByRank(b, a) ==> a.chunkId == b.chunkId && a.rank == b.rank
    {
      StringLeTotal(a.chunkId, b.chunkId);
    }
    forall a: Candidate, b: Candidate, c: Candidate | ByRank(a, b) && ByRank(b, c) ensures ByRank(a, c) {
      if a.rank == b.rank == c.rank {
        StringLeTransitive(a.chunkId, b.chunkId, c.chunkId);
      }
    }
  }

  lemma ScoreOrder()
    ensures TotalOrder(ByScore)
    ensures forall a, b :: ByScore(a, b) && ByScore(b, a) ==> a == b
  {
    hide ByRank;
    RankOrder();
    forall a: Candidate, b: Candidate, c: Candidate | ByScore(a, b) && ByScore(b, c) ensures ByScore(a, c) {
      assert ByRank(a, b) && ByRank(b, c) ==> ByRank(a, c);
    }
    forall a: Candidate, b: Candidate
      ensures ByScore(a, b) || ByScore(b, a)
      ensures ByScore(a, b) && ByScore(b, a) ==> a == b
    {
      assert ByRank(a, b) || ByRank(b, a);
    }
  }

  // ---------- One route ----------

  datatype Field<T> = Missing | Unusable | Given(value: T)

  /** A candidate as the file has it, its fields after conversion to text, whole and finite numbers. */
  datatype RawItem = NotAnObject | Item(chunkId: Option<string>, rank: Field<int>, score: Field<real>)

  datatype Route = NotAList | Items(items: seq<RawItem>)

  /** The item at a position, counted from one, as a candidate; a missing rank is the position. */
  function ItemCandidate(item: RawItem, position: int): Option<CandidateData> {
    match item
    case NotAnObject => None
    case Item(chunkId, rank, score) =>
      if chunkId.None? || !score.Given? || rank.Unusable? then None
      else
        var r := if rank.Missing? then position else rank.value;
        if chunkId.value == "" || r <= 0 then None else Some(CandidateData(chunkId.value, r, score.value))
  }

  /** The items up to the first one that is refused. */
  function CandidatesOf(items: seq<RawItem>): Option<seq<Candidate>> {
    if items == [] then Some([])
    else match CandidatesOf(Init(items))
      case None => None
      case Some(before) =>
        match ItemCandidate(Last(items), |items|)
        case None => None
        case Some(c) => Some(before + [c])
  }

  function RankedOf(route: Route): Result<seq<Candidate>, RankingError> {
    match route
    case NotAList => Failure(RouteNotList)
    case Items(items) =>
      match CandidatesOf(items)
      case None => Failure(CandidateInvalid)
      case Some(candidates) => Success(Sort(candidates, ByRank))
  }

  lemma {:induction false} RefusedStays(items: seq<RawItem>, n: nat)
    requires n <= |items| && CandidatesOf(items[..n]).None?
    ensures CandidatesOf(items).None?
    decreases |items|
  {
    if n == |items| {
      assert items[..n] == items;
    } else {
      assert Init(items)[..n] == items[..n];
      RefusedStays(Init(items), n);
    }
  }

  /** `_ranked`: the first item that is no candidate stops it. */
  method Ranked(route: Route) returns (r: Result<seq<Candidate>, RankingError>)
    ensures r == RankedOf(route)
  {
    if route.NotAList? {
      return Failure(RouteNotList);
    }
    var result: seq<Candidate> := [];
    for n := 0 to |route.items|
      invariant CandidatesOf(route.items[..n]) == Some(result)
    {
      assert Init(route.items[..n + 1]) == route.items[..n];
      var candidate := ItemCandidate(route.items[n], n + 1);
      if candidate.None? {
        RefusedStays(route.items, n + 1);
        return Failure(CandidateInvalid);
      }
      result := result + [candidate.value];
    }
    assert route.items[..|route.items|] == route.items;
    r := Success(Sort(result, ByRank));
  }

  /** `_reranked` */
  function RerankedOf(route: Route): Result<seq<string>, RankingError> {
    match RankedOf(route)
    case Failure(e) => Failure(e)
    case Success(candidates) => Success(Ids(Sort(candidates, ByScore)))
  }

  // ---------- Rankings and the order of the file ----------

  lemma {:induction false} CandidateAt(items: seq<RawItem>)
    ensures CandidatesOf(items).Some? <==> forall i :: 0 <= i < |items| ==> ItemCandidate(items[i], i + 1).Some?
    ensures CandidatesOf(items).Some? ==>
      && |CandidatesOf(items).value| == |items|
      && forall i :: 0 <= i < |items| ==> ItemCandidate(items[i], i + 1) == Some(CandidatesOf(items).value[i])
    decreases |items|
  {
    hide ItemCandidate;
    if items == [] {
    } else {
      var front := Init(items);
      assert forall i :: 0 <= i < |front| ==> front[i] == items[i];
      CandidateAt(front);
      if forall i :: 0 <= i < |items| ==> ItemCandidate(items[i], i + 1).Some? {
        assert ItemCandidate(items[|items| - 1], |items| - 1 + 1).Some?;
      }
    }
  }

  /** An item is a candidate with its own fields, or with its position for a missing rank; it is
      refused exactly when it is no object, has no identifier or an empty one, no usable score, an
      unusable rank, or a rank that is not positive. */
  lemma CandidateMeaning(item: RawItem, position: int)
    ensures match ItemCandidate(item, position)
      case Some(c) =>
        && item.Item?
        && item.chunkId == Some(c.chunkId) && c.chunkId != ""
        && item.score == Given(c.score)
        && (item.rank == Given(c.rank) || (item.rank == Missing && c.rank == position))
        && c.rank > 0
      case None =>
        || item.NotAnObject?
        || item.chunkId == None || item.chunkId == Some("")
        || item.score == Missing || item.score == Unusable
        || item.rank == Unusable
        || (item.rank.Given? && item.rank.value <= 0) || (item.rank == Missing && position <= 0)
  {
  }

  /** The ranking is a permutation of the candidates, lower ranks first and, on equal ranks, smaller
      identifiers first. */
  lemma {:induction false} RankedMeaning(items: seq<RawItem>)
    requires CandidatesOf(items).Some?
    ensures RankedOf(Items(items)).Success?
    ensures var ranked := RankedOf(Items(items)).value;
      && multiset(ranked) == multiset(CandidatesOf(items).value)
      && forall i, j :: 0 <= i < j < |ranked| ==>
           ranked[i].rank < ranked[j].rank
           || (ranked[i].rank == ranked[j].rank && StringLe(ranked[i].chunkId, ranked[j].chunkId))
  {
    hide CandidatesOf, StringLe;
    RankOrder();
    SortIsSorted(CandidatesOf(items).value, ByRank);
    var ranked := RankedOf(Items(items)).value;
    assert forall i, j :: 0 <= i < j < |ranked| ==> ByRank(ranked[i], ranked[j]);
  }

  /** The reranking lists the identifiers of a permutation of the candidates, higher scores first;
      on equal scores lower ranks first and, on equal ranks, smaller identifiers first. */
  lemma {:induction false} RerankedMeaning(items: seq<RawItem>) returns (order: seq<Candidate>)
    requires CandidatesOf(items).Some?
    ensures RerankedOf(Items(items)).Success?
    ensures var ids := RerankedOf(Items(items)).value;
      |ids| == |order| && forall i :: 0 <= i < |ids| ==> ids[i] == order[i].chunkId
    ensures multiset(order) == multiset(CandidatesOf(items).value)
    ensures forall i, j :: 0 <= i < j < |order| ==>
      && order[i].score >= order[j].score
      && (order[i].score == order[j].score ==> order[i].rank <= order[j].rank)
      && (order[i].score == order[j].score && order[i].rank == order[j].rank ==>
            StringLe(order[i].chunkId, order[j].chunkId))
  {
    hide CandidatesOf, StringLe;
    RankedMeaning(items);
    ScoreOrder();
    var ranked := RankedOf(Items(items)).value;
    order := Sort(ranked, ByScore);
    SortIsSorted(ranked, ByScore);
    var sorted := order;
    assert forall i, j :: 0 <= i < j < |sorted| ==> ByScore(sorted[i], sorted[j]);
  }

  /** Without explicit ranks a ranking keeps the order of the file. */
  lemma {:induction false} RanklessKeepsOrder(items: seq<RawItem>)
    requires forall i :: 0 <= i < |items| ==> items[i].Item? && items[i].rank.Missing?
    requires CandidatesOf(items).Some?
    ensures RankedOf(Items(items)) == Success(CandidatesOf(items).value)
  {
    hide CandidatesOf;
    CandidateAt(items);
    var candidates := CandidatesOf(items).value;
    forall i | 0 <= i < |candidates| ensures candidates[i].rank == i + 1 {
      assert ItemCandidate(items[i], i + 1) == Some(candidates[i]);
    }
    SortKeepsSorted(candidates, ByRank);
  }

  predicate AllRanked(items: seq<RawItem>) {
    forall i :: 0 <= i < |items| ==> items[i].Item? && items[i].rank.Given?
  }

  /** With explicit ranks positions do not matter. */
  function Converted(item: RawItem): Option<CandidateData> {
    ItemCandidate(item, 1)
  }

  /** The candidates are those of the items, one by one. */
  ghost predicate Images(a: seq<RawItem>, x: seq<Candidate>) {
    |x| == |a| && forall i :: 0 <= i < |a| ==> Converted(a[i]) == Some(x[i])
  }

  lemma ImagesWithout(a: seq<RawItem>, x: seq<Candidate>, j: nat)
    requires j < |a| && Images(a, x)
    ensures Images(a[..j] + a[j + 1..], x[..j] + x[j + 1..])
  {
    hide Converted;
  }

  lemma ImagesTail(a: seq<RawItem>, x: seq<Candidate>)
    requires a != [] && Images(a, x)
    ensures Images(a[1..], x[1..])
  {
    hide Converted;
  }

  lemma {:induction false} ImagesPermuted(a: seq<RawItem>, b: seq<RawItem>, x: seq<Candidate>, y: seq<Candidate>)
    requires multiset(a) == multiset(b) && Images(a, x) && Images(b, y)
    ensures multiset(x) == multiset(y)
    decreases |a|
  {
    hide Converted;
    if a == [] {
      assert |multiset(b)| == 0;
      assert x == [] && y == [];
    } else {
      SameMembers(a, b, a[0]);
      var j: nat :| j < |b| && b[j] == a[0];
      PermutedWithout(a, b, j);
      ImagesTail(a, x);
      ImagesWithout(b, y, j);
      ImagesPermuted(a[1..], b[..j] + b[j + 1..], x[1..], y[..j] + y[j + 1..]);
      assert x[0] == y[j];
      RestoreHead(x, y, j);
    }
  }

  lemma {:induction false} CandidatesPermuted(items: seq<RawItem>, others: seq<RawItem>)
    requires AllRanked(items) && multiset(items) == multiset(others)
    ensures CandidatesOf(items).Some? <==> CandidatesOf(others).Some?
    ensures CandidatesOf(items).Some? ==> multiset(CandidatesOf(items).value) == multiset(CandidatesOf(others).value)
  {
    hide CandidatesOf;
    CandidateAt(items);
    CandidateAt(others);
    forall i | 0 <= i < |others| ensures others[i] in items {
      SameMembers(others, items, others[i]);
    }
    forall i | 0 <= i < |items| ensures items[i] in others {
      SameMembers(items, others, items[i]);
    }
    assert forall i :: 0 <= i < |items| ==> ItemCandidate(items[i], i + 1) == Converted(items[i]);
    assert forall i :: 0 <= i < |others| ==> ItemCandidate(others[i], i + 1) == Converted(others[i]);
    if CandidatesOf(items).Some? && CandidatesOf(others).Some? {
      ImagesPermuted(items, others, CandidatesOf(items).value, CandidatesOf(others).value);
    }
  }

  lemma {:induction false} SortedIds(a: seq<Candidate>, b: seq<Candidate>, le: (Candidate, Candidate) -> bool)
    requires TotalOrder(le) && multiset(a) == multiset(b)
    requires forall x, y :: le(x, y) && le(y, x) ==> x.chunkId == y.chunkId
    ensures Ids(Sort(a, le)) == Ids(Sort(b, le))
  {
    hide TotalOrder, Sorted;
    var id := (c: Candidate) => c.chunkId;
    var x, y := Sort(a, le), Sort(b, le);
    SortIsSorted(a, le);
    SortIsSorted(b, le);
    SortedImages(x, y, le, id);
    assert forall i :: 0 <= i < |x| ==> id(x[i]) == id(y[i]);
  }

  /** With explicit ranks neither ranking depends on the order of the file. */
  lemma {:induction false} RankedAnyOrder(items: seq<RawItem>, others: seq<RawItem>)
    requires AllRanked(items) && multiset(items) == multiset(others)
    ensures var a, b := RankedOf(Items(items)), RankedOf(Items(others));
      (a.Success? <==> b.Success?) && (a.Success? ==> Ids(a.value) == Ids(b.value))
    ensures RerankedOf(Items(items)) == RerankedOf(Items(others))
  {
    hide CandidatesOf, AllRanked, ByRank, ByScore, TotalOrder, Sorted, Sort, Ids;
    CandidatesPermuted(items, others);
    if CandidatesOf(items).Some? {
      var a, b := CandidatesOf(items).value, CandidatesOf(others).value;
      RankOrder();
      SortedIds(a, b, ByRank);
      ScoreOrder();
      SortedIds(Sort(a, ByRank), Sort(b, ByRank), ByScore);
    }
  }

  // ---------- Reciprocal rank fusion ----------

  datatype Fused = Fused(chunkId: string, score: real, dense: Option<Candidate>, lexical: Option<Candidate>)

  function Lookup(candidates: seq<Candidate>, id: string): Option<Candidate> {
    if candidates == [] then None
    else if Last(candidates).chunkId == id then Some(Last(candidates))
    else Lookup(Init(candidates), id)
  }

  function Share(k: int, c: Option<Candidate>): real
    requires k > 0
  {
    if c.None? then 0.0 else 1.0 / (k + c.value.rank) as real
  }

  function FusedOf(dense: seq<Candidate>, lexical: seq<Candidate>, k: int, id: string): Fused
    requires k > 0
  {
    var d, l := Lookup(dense, id), Lookup(lexical, id);
    Fused(id, Share(k, d) + Share(k, l), d, l)
  }

  function BestRank(f: Fused): int {
    match (f.dense, f.lexical)
    case (None, None) => 0
    case (Some(d), None) => d.rank
    case (None, Some(l)) => l.rank
    case (Some(d), Some(l)) => if d.rank <= l.rank then d.rank else l.rank
  }

  /** `tie_break`: the sort key `(-fused_score, min(ranks), chunk_id)`. */
  predicate ByFusion(a: Fused, b: Fused) {
    || a.score > b.score
    || (a.score == b.score
        && (BestRank(a) < BestRank(b) || (BestRank(a) == BestRank(b) && StringLe(a.chunkId, b.chunkId))))
  }

  lemma FusionOrder()
    ensures TotalOrder(ByFusion)
    ensures forall a, b :: ByFusion(a, b) && ByFusion(b, a) ==> a.chunkId == b.chunkId
  {
    hide BestRank, StringLe;
    forall a: Fused, b: Fused
      ensures ByFusion(a, b) || ByFusion(b, a)
      ensures ByFusion(a, b) && ByFusion(b, a) ==> a.chunkId == b.chunkId
    {
      StringLeTotal(a.chunkId, b.chunkId);
    }
    forall a: Fused, b: Fused, c: Fused | ByFusion(a, b) && ByFusion(b, c) ensures ByFusion(a, c) {
      if StringLe(a.chunkId, b.chunkId) && StringLe(b.chunkId, c.chunkId) {
        StringLeTransitive(a.chunkId, b.chunkId, c.chunkId);
      }
    }
  }

  /** The fused candidates, one for each chunk of either route. */
  ghost predicate HoldsFused(dense: seq<Candidate>, lexical: seq<Candidate>, k: int, fused: seq<Fused>)
    requires k > 0
  {
    && (forall i, j :: 0 <= i < j < |fused| ==> fused[i].chunkId != fused[j].chunkId)
    && (forall i :: 0 <= i < |fused| ==>
          (fused[i].chunkId in Ids(dense) || fused[i].chunkId in Ids(lexical))
          && fused[i] == FusedOf(dense, lexical, k, fused[i].chunkId))
    && forall id :: id in Ids(dense) || id in Ids(lexical) ==> FusedOf(dense, lexical, k, id) in fused
  }

  ghost predicate IsFusion(dense: seq<Candidate>, lexical: seq<Candidate>, k: int, fused: seq<Fused>)
    requires k > 0
  {
    HoldsFused(dense, lexical, k, fused) && Sorted(fused, ByFusion)
  }

  lemma {:induction false} SameFused(dense: seq<Candidate>, lexical: seq<Candidate>, k: int, f: seq<Fused>,
                                     g: seq<Fused>)
    requires k > 0 && HoldsFused(dense, lexical, k, f) && HoldsFused(dense, lexical, k, g)
    ensures multiset(f) == multiset(g)
  {
    hide FusedOf;
    SameElements(f, g);
  }

  /** The fusion does not depend on the order in which the chunks are visited. */
  lemma {:induction false} FusionUnique(dense: seq<Candidate>, lexical: seq<Candidate>, k: int, f: seq<Fused>,
                                        g: seq<Fused>)
    requires k > 0 && IsFusion(dense, lexical, k, f) && IsFusion(dense, lexical, k, g)
    ensures f == g
  {
    hide ByFusion, FusedOf, TotalOrder, Sorted;
    SameFused(dense, lexical, k, f, g);
    FusionOrder();
    SortedImages(f, g, ByFusion, (x: Fused) => x);
    assert forall i :: 0 <= i < |f| ==> f[i] == g[i];
  }

  /** The chunk identifiers in the order of the first route and then of the second. */
  function Chunks(dense: seq<Candidate>, lexical: seq<Candidate>): seq<string> {
    if lexical == [] then Ids(dense)
    else
      var before, id := Chunks(dense, Init(lexical)), Last(lexical).chunkId;
      if id in before then before else before + [id]
  }

  function Fusion(dense: seq<Candidate>, lexical: seq<Candidate>, k: int): seq<Fused>
    requires k > 0
  {
    var ids := Chunks(dense, lexical);
    Sort(seq(|ids|, i requires 0 <= i < |ids| => FusedOf(dense, lexical, k, ids[i])), ByFusion)
  }

  lemma {:induction false} ChunksMeaning(dense: seq<Candidate>, lexical: seq<Candidate>)
    ensures forall id :: id in Chunks(dense, lexical) <==> id in Ids(dense) || id in Ids(lexical)
    ensures Distinct(Ids(dense)) ==> Distinct(Chunks(dense, lexical))
    decreases |lexical|
  {
    if lexical == [] {
    } else {
      ChunksMeaning(dense, Init(lexical));
      assert Ids(lexical) == Ids(Init(lexical)) + [Last(lexical).chunkId];
    }
  }

  /** The fused candidates of distinct chunks, in whatever order these come. */
  lemma {:induction false} FusedFromIds(dense: seq<Candidate>, lexical: seq<Candidate>, k: int, ids: seq<string>,
                                        fused: seq<Fused>)
    requires k > 0 && Distinct(ids) && |fused| == |ids|
    requires forall id :: id in ids <==> id in Ids(dense) || id in Ids(lexical)
    requires forall i :: 0 <= i < |ids| ==> fused[i] == FusedOf(dense, lexical, k, ids[i])
    ensures HoldsFused(dense, lexical, k, fused)
  {
    hide Lookup, Share;
    forall i | 0 <= i < |fused| ensures fused[i].chunkId == ids[i] && ids[i] in ids {
    }
    forall id | id in Ids(dense) || id in Ids(lexical) ensures FusedOf(dense, lexical, k, id) in fused {
      assert id in ids;
      var i :| 0 <= i < |ids| && ids[i] == id;
      assert fused[i] == FusedOf(dense, lexical, k, id);
    }
  }

  lemma DistinctChunks(fused: seq<Fused>)
    requires forall i, j :: 0 <= i < j < |fused| ==> fused[i].chunkId != fused[j].chunkId
    ensures Distinct(fused)
  {
  }

  lemma DifferentAt(fused: seq<Fused>, i: nat, j: nat)
    requires Distinct(fused) && i < j < |fused|
    ensures fused[i] != fused[j]
  {
  }

  lemma {:induction false} HoldsPermuted(dense: seq<Candidate>, lexical: seq<Candidate>, k: int, fused: seq<Fused>,
                                         other: seq<Fused>)
    requires k > 0 && HoldsFused(dense, lexical, k, fused) && multiset(fused) == multiset(other)
    ensures HoldsFused(dense, lexical, k, other)
  {
    hide FusedOf, Distinct, Ids;
    PermutedMembers(fused, other);
    assert Distinct(fused) by {
      DistinctChunks(fused);
    }
    PermutedDistinct(fused, other);
    forall i, j | 0 <= i < j < |other| ensures other[i].chunkId != other[j].chunkId {
      assert other[i] in fused && other[j] in fused;
      DifferentAt(other, i, j);
    }
    forall i | 0 <= i < |other|
      ensures other[i].chunkId in Ids(dense) || other[i].chunkId in Ids(lexical)
      ensures other[i] == FusedOf(dense, lexical, k, other[i].chunkId)
    {
      assert other[i] in fused;
    }
  }

  lemma {:induction false} SortedFusion(dense: seq<Candidate>, lexical: seq<Candidate>, k: int, fused: seq<Fused>)
    requires k > 0 && HoldsFused(dense, lexical, k, fused)
    ensures IsFusion(dense, lexical, k, Sort(fused, ByFusion))
  {
    hide HoldsFused, ByFusion, Sorted, TotalOrder;
    FusionOrder();
    SortIsSorted(fused, ByFusion);
    HoldsPermuted(dense, lexical, k, fused, Sort(fused, ByFusion));
  }

  lemma {:induction false} FusionIsFusion(dense: seq<Candidate>, lexical: seq<Candidate>, k: int)
    requires k > 0 && Distinct(Ids(dense))
    ensures IsFusion(dense, lexical, k, Fusion(dense, lexical, k))
  {
    hide FusedOf, ByFusion, IsFusion, HoldsFused, Chunks;
    var ids := Chunks(dense, lexical);
    var fused := seq(|ids|, i requires 0 <= i < |ids| => FusedOf(dense, lexical, k, ids[i]));
    ChunksMeaning(dense, lexical);
    FusedFromIds(dense, lexical, k, ids, fused);
    SortedFusion(dense, lexical, k, fused);
  }

  lemma {:induction false} FusedAnyOrder(dense: seq<Candidate>, lexical: seq<Candidate>, k: int, ids: seq<string>,
                                         fused: seq<Fused>)
    requires k > 0 && Distinct(Ids(dense)) && Distinct(ids) && |fused| == |ids|
    requires forall id :: id in ids <==> id in Ids(dense) || id in Ids(lexical)
    requires forall i :: 0 <= i < |ids| ==> fused[i] == FusedOf(dense, lexical, k, ids[i])
    ensures Sort(fused, ByFusion) == Fusion(dense, lexical, k)
  {
    hide Fusion, ByFusion, IsFusion, HoldsFused, FusedOf;
    FusedFromIds(dense, lexical, k, ids, fused);
    SortedFusion(dense, lexical, k, fused);
    FusionIsFusion(dense, lexical, k);
    FusionUnique(dense, lexical, k, Sort(fused, ByFusion), Fusion(dense, lexical, k));
  }

  lemma {:induction false} LookupAppend(candidates: seq<Candidate>, c: Candidate, id: string)
    ensures Lookup(candidates + [c], id) == if c.chunkId == id then Some(c) else Lookup(candidates, id)
    ensures Ids(candidates + [c]) == Ids(candidates) + [c.chunkId]
  {
    assert Init(candidates + [c]) == candidates;
  }

  lemma NothingToLookUp()
    ensures Ids([]) == [] && forall id :: Lookup([], id) == None
  {
  }

  lemma RepeatedId(candidates: seq<Candidate>, n: nat)
    requires n < |candidates| && candidates[n].chunkId in Ids(candidates[..n])
    ensures !Distinct(Ids(candidates))
  {
    var i :| 0 <= i < n && Ids(candidates[..n])[i] == candidates[n].chunkId;
    assert Ids(candidates)[i] == Ids(candidates)[n];
  }

  /** `_by_chunk`: duplicates, and nothing else, are refused. */
  method ByChunk(candidates: seq<Candidate>) returns (r: Result<map<string, Candidate>, RankingError>)
    ensures r.Failure? <==> !Distinct(Ids(candidates))
    ensures r.Failure? ==> r.error == DuplicateCandidate
    ensures r.Success? ==> forall id :: id in r.value <==> id in Ids(candidates)
    ensures r.Success? ==> forall id :: Lookup(candidates, id) == if id in r.value then Some(r.value[id]) else None
  {
    hide Lookup;
    var result: map<string, Candidate> := map[];
    NothingToLookUp();
    for n := 0 to |candidates|
      invariant Distinct(Ids(candidates[..n]))
      invariant forall id :: id in result <==> id in Ids(candidates[..n])
      invariant forall id :: Lookup(candidates[..n], id) == if id in result then Some(result[id]) else None
    {
      var candidate := candidates[n];
      assert candidates[..n + 1] == candidates[..n] + [candidate];
      forall id
        ensures Lookup(candidates[..n + 1], id)
             == if candidate.chunkId == id then Some(candidate) else Lookup(candidates[..n], id)
        ensures Ids(candidates[..n + 1]) == Ids(candidates[..n]) + [candidate.chunkId]
      {
        LookupAppend(candidates[..n], candidate, id);
      }
      if candidate.chunkId in result {
        RepeatedId(candidates, n);
        return Failure(DuplicateCandidate);
      }
      result := result[candidate.chunkId := candidate];
    }
    assert candidates[..|candidates|] == candidates;
    r := Success(result);
  }

  /** `fused[:limit]` */
  function Cut(fused: seq<Fused>, limit: Option<int>): seq<Fused>
    requires limit.Some? ==> limit.value > 0
  {
    if limit.None? || limit.value >= |fused| then fused else fused[..limit.value]
  }

  /** The loop over the set of chunks, in any order. */
  method FuseChunks(dense: seq<Candidate>, lexical: seq<Candidate>, k: int,
                    d: map<string, Candidate>, l: map<string, Candidate>)
    returns (fused: seq<Fused>, ghost ids: seq<string>)
    requires k > 0
    requires forall id :: Lookup(dense, id) == if id in d then Some(d[id]) else None
    requires forall id :: Lookup(lexical, id) == if id in l then Some(l[id]) else None
    ensures Distinct(ids) && |fused| == |ids|
    ensures forall id :: id in ids <==> id in d || id in l
    ensures forall i :: 0 <= i < |ids| ==> fused[i] == FusedOf(dense, lexical, k, ids[i])
  {
    hide Lookup, Share;
    fused, ids := [], [];
    var rest := d.Keys + l.Keys;
    while rest != {}
      invariant |ids| == |fused| && Distinct(ids)
      invariant forall id :: id in ids || id in rest <==> id in d.Keys + l.Keys
      invariant forall id :: id in ids ==> id !in rest
      invariant forall i :: 0 <= i < |ids| ==> fused[i] == FusedOf(dense, lexical, k, ids[i])
      decreases rest
    {
      var id :| id in rest;
      rest := rest - {id};
      var denseCandidate := if id in d then Some(d[id]) else None;
      var lexicalCandidate := if id in l then Some(l[id]) else None;
      fused := fused + [Fused(id, Share(k, denseCandidate) + Share(k, lexicalCandidate), denseCandidate,
                              lexicalCandidate)];
      ids := ids + [id];
    }
  }

  /** `reciprocal_rank_fusion`: a non-positive constant or limit and a repeated chunk are refused;
      otherwise the result is the same in whatever order the set of chunks is visited. */
  method Fuse(dense: seq<Candidate>, lexical: seq<Candidate>, k: int, limit: Option<int>)
    returns (r: Result<seq<Fused>, RankingError>)
    ensures r.Success? <==>
      k > 0 && (limit.Some? ==> limit.value > 0) && Distinct(Ids(dense)) && Distinct(Ids(lexical))
    ensures r.Failure? ==>
      r.error == if k <= 0 then FusionConstant
                 else if limit.Some? && limit.value <= 0 then FusionLimit
                 else DuplicateCandidate
    ensures r.Success? ==> r.value <= Fusion(dense, lexical, k)
    ensures r.Success? && limit.None? ==> r.value == Fusion(dense, lexical, k)
    ensures r.Success? && limit.Some? ==>
      |r.value| == if limit.value < |Fusion(dense, lexical, k)| then limit.value else |Fusion(dense, lexical, k)|
  {
    hide Fusion, ByFusion, BestRank, Lookup, FusedOf, Distinct, Sort, Ids;
    if k <= 0 {
      return Failure(FusionConstant);
    }
    if limit.Some? && limit.value <= 0 {
      return Failure(FusionLimit);
    }
    var denseByChunk := ByChunk(dense);
    if denseByChunk.Failure? {
      return Failure(denseByChunk.error);
    }
    var lexicalByChunk := ByChunk(lexical);
    if lexicalByChunk.Failure? {
      return Failure(lexicalByChunk.error);
    }
    var fused, ids := FuseChunks(dense, lexical, k, denseByChunk.value, lexicalByChunk.value);
    FusedAnyOrder(dense, lexical, k, ids, fused);
    r := Success(Cut(Sort(fused, ByFusion), limit));
  }

  // ---------- What a fusion is, field by field ----------

  lemma {:induction false} LookupMeaning(candidates: seq<Candidate>, id: string)
    ensures match Lookup(candidates, id)
      case Some(c) => c in candidates && c.chunkId == id
      case None => id !in Ids(candidates)
    decreases |candidates|
  {
    if candidates == [] {
    } else {
      LookupMeaning(Init(candidates), id);
      assert candidates == Init(candidates) + [Last(candidates)];
      assert Ids(candidates) == Ids(Init(candidates)) + [Last(candidates).chunkId];
    }
  }

  lemma ShareValue(k: int, c: Option<Candidate>)
    requires k > 0
    ensures c.Some? ==> Share(k, c) * (k + c.value.rank) as real == 1.0
    ensures c.None? ==> Share(k, c) == 0.0
  {
  }

  /** What a candidate of one route contributes to `score`: one over the constant plus its rank. */
  ghost predicate Contributes(k: int, c: Option<Candidate>, share: real) {
    if c.Some? then share * (k + c.value.rank) as real == 1.0 else share == 0.0
  }

  /** Every fused candidate carries the candidates of its chunk and the sum of their shares. */
  lemma {:induction false} FusedFields(dense: seq<Candidate>, lexical: seq<Candidate>, k: int, fused: seq<Fused>,
                                       i: nat)
    requires k > 0 && HoldsFused(dense, lexical, k, fused) && i < |fused|
    ensures match fused[i].dense
      case Some(c) => c in dense && c.chunkId == fused[i].chunkId
      case None => fused[i].chunkId !in Ids(dense)
    ensures match fused[i].lexical
      case Some(c) => c in lexical && c.chunkId == fused[i].chunkId
      case None => fused[i].chunkId !in Ids(lexical)
    ensures exists d, l ::
      Contributes(k, fused[i].dense, d) && Contributes(k, fused[i].lexical, l) && fused[i].score == d + l
  {
    hide Lookup, Share, Ids;
    LookupMeaning(dense, fused[i].chunkId);
    LookupMeaning(lexical, fused[i].chunkId);
    assert fused[i] == FusedOf(dense, lexical, k, fused[i].chunkId);
    ShareValue(k, fused[i].dense);
    ShareValue(k, fused[i].lexical);
    assert Contributes(k, fused[i].dense, Share(k, fused[i].dense));
    assert Contributes(k, fused[i].lexical, Share(k, fused[i].lexical));
  }

  /** The candidate has this rank in one of the routes. */
  predicate HasRank(f: Fused, rank: int) {
    (f.dense.Some? && f.dense.value.rank == rank) || (f.lexical.Some? && f.lexical.value.rank == rank)
  }

  /** Every fused candidate has its best rank, and none below. */
  lemma {:induction false} BestIsRank(dense: seq<Candidate>, lexical: seq<Candidate>, k: int, fused: seq<Fused>, i: nat)
    requires k > 0 && HoldsFused(dense, lexical, k, fused) && i < |fused|
    ensures HasRank(fused[i], BestRank(fused[i]))
    ensures forall r :: HasRank(fused[i], r) ==> BestRank(fused[i]) <= r
  {
    FusedFields(dense, lexical, k, fused, i);
  }

  lemma SortedAt(fused: seq<Fused>, j: nat, i: nat)
    requires Sorted(fused, ByFusion) && j < i < |fused|
    ensures ByFusion(fused[j], fused[i])
  {
  }

  /** Higher fused scores come first; on equal scores the better rank, whichever its route, and on
      equal best ranks the smaller identifier. */
  lemma {:induction false} FusionAscends(dense: seq<Candidate>, lexical: seq<Candidate>, k: int, fused: seq<Fused>,
                                         i: nat, j: nat)
    requires k > 0 && IsFusion(dense, lexical, k, fused) && i < j < |fused|
    ensures fused[i].score >= fused[j].score
    ensures fused[i].score == fused[j].score ==>
      forall r :: HasRank(fused[j], r) ==> exists q :: q <= r && HasRank(fused[i], q)
    ensures fused[i].score == fused[j].score ==>
      (forall q :: HasRank(fused[i], q) ==> exists r :: r <= q && HasRank(fused[j], r)) ==>
        StringLe(fused[i].chunkId, fused[j].chunkId)
  {
    hide StringLe, FusedOf, Sorted;
    SortedAt(fused, i, j);
    BestIsRank(dense, lexical, k, fused, i);
    BestIsRank(dense, lexical, k, fused, j);
  }

  // ---------- What a fusion is good for ----------

  /** The rank in one route is no worse: there is none to beat, or it is at most that. */
  predicate NoWorse(x: Option<Candidate>, y: Option<Candidate>) {
    y.None? || (x.Some? && x.value.rank <= y.value.rank)
  }

  predicate Dominates(a: Fused, b: Fused) {
    && NoWorse(a.dense, b.dense) && NoWorse(a.lexical, b.lexical)
    && !(NoWorse(b.dense, a.dense) && NoWorse(b.lexical, a.lexical))
  }

  lemma Reciprocals(p: real, q: real)
    requires p > 0.0 && q > 0.0
    ensures 1.0 / p > 0.0
    ensures p <= q ==> 1.0 / p >= 1.0 / q
    ensures p < q ==> 1.0 / p > 1.0 / q
  {
    var x, y := 1.0 / p, 1.0 / q;
    assert x * p == 1.0 && y * q == 1.0;
  }

  lemma ShareOrder(k: int, x: Option<Candidate>, y: Option<Candidate>)
    requires k > 0
    ensures NoWorse(x, y) ==> Share(k, x) >= Share(k, y)
    ensures NoWorse(x, y) && !NoWorse(y, x) ==> Share(k, x) > Share(k, y)
  {
    if x.Some? {
      Reciprocals((k + x.value.rank) as real, if y.Some? then (k + y.value.rank) as real else 1.0);
    }
  }

  /** A chunk that is nowhere worse and somewhere better placed comes first. */
  lemma {:induction false} FusionRespectsDominance(dense: seq<Candidate>, lexical: seq<Candidate>, k: int,
                                                   fused: seq<Fused>, i: nat, j: nat)
    requires k > 0 && IsFusion(dense, lexical, k, fused) && i < |fused| && j < |fused|
    requires Dominates(fused[i], fused[j])
    ensures i < j
  {
    hide Lookup, Share, Sorted, NoWorse, BestRank, StringLe;
    var a, b := fused[i], fused[j];
    assert a.score == Share(k, a.dense) + Share(k, a.lexical) && b.score == Share(k, b.dense) + Share(k, b.lexical);
    ShareOrder(k, a.dense, b.dense);
    ShareOrder(k, a.lexical, b.lexical);
    assert a.score > b.score;
    if j < i {
      SortedAt(fused, j, i);
    }
  }

  function Swapped(fused: seq<Fused>): seq<Fused> {
    seq(|fused|, i requires 0 <= i < |fused| => fused[i].(dense := fused[i].lexical, lexical := fused[i].dense))
  }

  lemma {:induction false} SwappedIsFusion(dense: seq<Candidate>, lexical: seq<Candidate>, k: int, fused: seq<Fused>)
    requires k > 0 && IsFusion(dense, lexical, k, fused)
    ensures IsFusion(lexical, dense, k, Swapped(fused))
  {
    hide StringLe, Lookup, Share;
    var swapped := Swapped(fused);
    forall i | 0 <= i < |swapped| ensures swapped[i] == FusedOf(lexical, dense, k, swapped[i].chunkId) {
      assert fused[i] == FusedOf(dense, lexical, k, fused[i].chunkId);
    }
    forall id | id in Ids(lexical) || id in Ids(dense) ensures FusedOf(lexical, dense, k, id) in swapped {
      var i :| 0 <= i < |fused| && fused[i] == FusedOf(dense, lexical, k, id);
      assert swapped[i] == FusedOf(lexical, dense, k, id);
    }
    forall i, j | 0 <= i < j < |swapped| ensures ByFusion(swapped[i], swapped[j]) {
      assert ByFusion(fused[i], fused[j]);
      assert BestRank(swapped[i]) == BestRank(fused[i]) && BestRank(swapped[j]) == BestRank(fused[j]);
    }
  }

  /** Exchanging the routes exchanges the candidates and changes neither scores nor order. */
  lemma {:induction false} FusionSymmetric(dense: seq<Candidate>, lexical: seq<Candidate>, k: int)
    requires k > 0 && Distinct(Ids(dense)) && Distinct(Ids(lexical))
    ensures Fusion(lexical, dense, k) == Swapped(Fusion(dense, lexical, k))
  {
    hide Fusion, StringLe;
    var fused := Fusion(dense, lexical, k);
    FusionIsFusion(dense, lexical, k);
    FusionIsFusion(lexical, dense, k);
    SwappedIsFusion(dense, lexical, k, fused);
    FusionUnique(lexical, dense, k, Fusion(lexical, dense, k), Swapped(fused));
  }
}
