/** Greedy matching of predicted blocks to gold blocks, one page at a time
    (evals/ocr/run_benchmark.py).  Each predicted block, in reading order, takes the free gold
    block it overlaps most, the later one on a tie. */
module BlockMatching {

  import opened Boxes
  import opened Sequences
  import opened Sorting
  import opened Wrappers

  datatype GoldBlock = GoldBlock(id: string, readingOrder: nat, box: PageBox)

  datatype Block = Block(readingOrder: nat, box: PageBox)

  datatype Match =
    | Unmatched
    | Matched(index: nat, id: string, iou: real)

  function ByReadingOrder(blocks: seq<Block>): seq<Block> {
    Sort(blocks, (a: Block, b: Block) => a.readingOrder <= b.readingOrder)
  }

  function Score(gold: seq<GoldBlock>, box: PageBox, index: nat): real
    requires index < |gold|
  {
    BboxIou(gold[index].box, box).value
  }

  predicate Taken(matches: seq<Match>, i: nat) {
    exists k :: 0 <= k < |matches| && matches[k].Matched? && matches[k].index == i
  }

  /** The gold indices that the given matches leave free. */
  ghost function Free(gold: seq<GoldBlock>, matches: seq<Match>): set<nat> {
    set i: nat | i < |gold| && !Taken(matches, i)
  }

  /** `i` comes last among `free` when ordered by score, then by index. */
  ghost predicate IsBest(gold: seq<GoldBlock>, box: PageBox, free: set<nat>, i: nat)
    requires forall j :: j in free ==> j < |gold|
  {
    && i in free
    && forall j :: j in free ==>
         Score(gold, box, j) < Score(gold, box, i) || (Score(gold, box, j) == Score(gold, box, i) && j <= i)
  }

  ghost predicate IsChoice(gold: seq<GoldBlock>, box: PageBox, free: set<nat>, m: Match)
    requires forall j :: j in free ==> j < |gold|
  {
    match m
    case Unmatched => forall j :: j in free ==> Score(gold, box, j) <= 0.0
    case Matched(i, id, iou) => IsBest(gold, box, free, i) && id == gold[i].id && iou == Score(gold, box, i) > 0.0
  }

  /** `matches` are the choices made for `predicted`, in order. */
  ghost predicate IsGreedy(gold: seq<GoldBlock>, predicted: seq<Block>, matches: seq<Match>) {
    && |matches| == |predicted|
    && forall k {:trigger matches[k]} :: 0 <= k < |matches| ==>
         IsChoice(gold, predicted[k].box, Free(gold, matches[..k]), matches[k])
  }

  // ---------- The matches as a function of the page ----------

  /** The best among the free indices below `n`, scanning upwards. */
  function BestBelow(gold: seq<GoldBlock>, box: PageBox, matches: seq<Match>, n: nat): (best: Option<nat>)
    requires n <= |gold|
    ensures best.Some? ==> best.value < n
  {
    if n == 0 then None
    else
      var best := BestBelow(gold, box, matches, n - 1);
      if Taken(matches, n - 1) then best
      else if best.Some? && Score(gold, box, n - 1) < Score(gold, box, best.value) then best
      else Some(n - 1)
  }

  function Choice(gold: seq<GoldBlock>, box: PageBox, matches: seq<Match>): Match {
    match BestBelow(gold, box, matches, |gold|)
    case None => Unmatched
    case Some(i) =>
      if Score(gold, box, i) > 0.0 then Matched(i, gold[i].id, Score(gold, box, i)) else Unmatched
  }

  function Greedy(gold: seq<GoldBlock>, predicted: seq<Block>): seq<Match> {
    if predicted == [] then []
    else
      var before := Greedy(gold, Init(predicted));
      before + [Choice(gold, Last(predicted).box, before)]
  }

  ghost function FreeBelow(gold: seq<GoldBlock>, matches: seq<Match>, n: nat): set<nat> {
    set i | i in Free(gold, matches) && i < n
  }

  lemma {:induction false} BestBelowMeaning(gold: seq<GoldBlock>, box: PageBox, matches: seq<Match>, n: nat)
    requires n <= |gold|
    ensures var best, free := BestBelow(gold, box, matches, n), FreeBelow(gold, matches, n);
      if best.None? then free == {} else IsBest(gold, box, free, best.value)
    decreases n
  {
    hide Score, Taken;
    if n == 0 {
    } else {
      BestBelowMeaning(gold, box, matches, n - 1);
      var before, free := FreeBelow(gold, matches, n - 1), FreeBelow(gold, matches, n);
      assert free == if Taken(matches, n - 1) then before else before + {n - 1};
    }
  }

  lemma {:induction false} ChoiceMeaning(gold: seq<GoldBlock>, box: PageBox, matches: seq<Match>)
    ensures IsChoice(gold, box, Free(gold, matches), Choice(gold, box, matches))
  {
    hide Score, Taken;
    BestBelowMeaning(gold, box, matches, |gold|);
    assert FreeBelow(gold, matches, |gold|) == Free(gold, matches);
  }

  // ---------- The loop ----------

  lemma GreedyExtends(gold: seq<GoldBlock>, predicted: seq<Block>, matches: seq<Match>, block: Block, choice: Match)
    requires IsGreedy(gold, predicted, matches) && IsChoice(gold, block.box, Free(gold, matches), choice)
    ensures IsGreedy(gold, predicted + [block], matches + [choice])
    ensures Free(gold, matches + [choice])
         == if choice.Matched? then Free(gold, matches) - {choice.index} else Free(gold, matches)
  {
    var longer := matches + [choice];
    forall k | 0 <= k < |longer|
      ensures IsChoice(gold, (predicted + [block])[k].box, Free(gold, longer[..k]), longer[k])
    {
      assert longer[..k] == matches[..k];
      assert matches[..|matches|] == matches;
      if k < |matches| {
        assert longer[k] == matches[k];
      }
    }
    forall i: nat ensures Taken(longer, i) <==> Taken(matches, i) || (choice.Matched? && choice.index == i) {
      assert longer[|matches|] == choice;
      if Taken(matches, i) {
        var k :| 0 <= k < |matches| && matches[k].Matched? && matches[k].index == i;
        assert longer[k] == matches[k];
      }
    }
  }

  /** The matches do not depend on the order in which candidates are compared. */
  lemma {:induction false} GreedyUnique(gold: seq<GoldBlock>, predicted: seq<Block>, m: seq<Match>, n: seq<Match>)
    requires IsGreedy(gold, predicted, m) && IsGreedy(gold, predicted, n)
    ensures m == n
  {
    for k := 0 to |m|
      invariant m[..k] == n[..k]
    {
      assert IsChoice(gold, predicted[k].box, Free(gold, m[..k]), m[k]);
      assert IsChoice(gold, predicted[k].box, Free(gold, n[..k]), n[k]);
      assert m[..k + 1] == m[..k] + [m[k]] && n[..k + 1] == n[..k] + [n[k]];
    }
    assert m[..|m|] == m && n[..|m|] == n;
  }

  lemma {:induction false} GreedyIsGreedy(gold: seq<GoldBlock>, predicted: seq<Block>)
    ensures IsGreedy(gold, predicted, Greedy(gold, predicted))
    decreases |predicted|
  {
    hide IsChoice, Choice, Free;
    if predicted == [] {
    } else {
      var front, block := Init(predicted), Last(predicted);
      assert predicted == front + [block];
      GreedyIsGreedy(gold, front);
      ChoiceMeaning(gold, block.box, Greedy(gold, front));
      GreedyExtends(gold, front, Greedy(gold, front), block, Choice(gold, block.box, Greedy(gold, front)));
    }
  }

  /** The `max` over the candidates, whatever order the set yields them in. */
  method Best(gold: seq<GoldBlock>, box: PageBox, free: set<nat>) returns (best: nat)
    requires free != {} && forall j :: j in free ==> j < |gold|
    ensures IsBest(gold, box, free, best)
  {
    best :| best in free;
    var rest := free - {best};
    while rest != {}
      invariant rest <= free && best in free
      invariant IsBest(gold, box, free - rest, best)
      decreases rest
    {
      var j :| j in rest;
      ghost var seen := free - rest;
      rest := rest - {j};
      assert free - rest == seen + {j};
      if Score(gold, box, best) < Score(gold, box, j) || (Score(gold, box, best) == Score(gold, box, j) && best < j) {
        best := j;
      }
    }
    assert free - rest == free;
  }

  method MatchBlocks(gold: seq<GoldBlock>, predicted: seq<Block>) returns (matches: seq<Match>)
    ensures IsGreedy(gold, ByReadingOrder(predicted), matches)
    ensures matches == Greedy(gold, ByReadingOrder(predicted))
  {
    var unmatched := set i: nat {:trigger gold[i]} | i < |gold|;
    var ordered := ByReadingOrder(predicted);
    matches := [];
    for k := 0 to |ordered|
      invariant IsGreedy(gold, ordered[..k], matches)
      invariant unmatched == Free(gold, matches)
    {
      var choice := Unmatched;
      if unmatched != {} {
        var best := Best(gold, ordered[k].box, unmatched);
        if Score(gold, ordered[k].box, best) > 0.0 {
          unmatched := unmatched - {best};
          choice := Matched(best, gold[best].id, Score(gold, ordered[k].box, best));
        }
      }
      GreedyExtends(gold, ordered[..k], matches, ordered[k], choice);
      assert ordered[..k + 1] == ordered[..k] + [ordered[k]];
      matches := matches + [choice];
    }
    assert ordered[..|ordered|] == ordered;
    GreedyIsGreedy(gold, ordered);
    GreedyUnique(gold, ordered, matches, Greedy(gold, ordered));
  }

  // ---------- Injective and maximal ----------

  ghost predicate DistinctIds(gold: seq<GoldBlock>) {
    forall i, j :: 0 <= i < j < |gold| ==> gold[i].id != gold[j].id
  }

  lemma GreedyInjective(gold: seq<GoldBlock>, predicted: seq<Block>, matches: seq<Match>)
    requires IsGreedy(gold, predicted, matches)
    ensures forall k :: 0 <= k < |matches| && matches[k].Matched? ==>
              matches[k].index < |gold| && matches[k].id == gold[matches[k].index].id
    ensures forall k, l :: 0 <= k < l < |matches| && matches[k].Matched? && matches[l].Matched? ==>
              matches[k].index != matches[l].index
    ensures DistinctIds(gold) ==>
      forall k, l :: 0 <= k < l < |matches| && matches[k].Matched? && matches[l].Matched? ==>
              matches[k].id != matches[l].id
  {
    forall k, l | 0 <= k < l < |matches| && matches[k].Matched? && matches[l].Matched?
      ensures matches[k].index != matches[l].index
    {
      assert IsChoice(gold, predicted[l].box, Free(gold, matches[..l]), matches[l]);
      assert matches[..l][k] == matches[k];
    }
  }

  /** A predicted block without a partner overlaps no gold block without one. */
  lemma GreedyMaximal(gold: seq<GoldBlock>, predicted: seq<Block>, matches: seq<Match>, k: nat, g: nat)
    requires IsGreedy(gold, predicted, matches)
    requires k < |predicted| && matches[k].Unmatched? && g in Free(gold, matches)
    ensures Score(gold, predicted[k].box, g) <= 0.0
  {
    assert IsChoice(gold, predicted[k].box, Free(gold, matches[..k]), matches[k]);
    assert !Taken(matches[..k], g);
  }

  // ---------- Half of the best possible ----------

  /** A matching pairs predicted positions with different gold indices they overlap. */
  ghost predicate IsMatching(gold: seq<GoldBlock>, predicted: seq<Block>, pairs: map<nat, nat>) {
    && (forall p :: p in pairs ==>
          p < |predicted| && pairs[p] < |gold| && Score(gold, predicted[p].box, pairs[p]) > 0.0)
    && forall p, q :: p in pairs && q in pairs && p != q ==> pairs[p] != pairs[q]
  }

  ghost function MatchedPositions(matches: seq<Match>): set<nat> {
    set k: nat | k < |matches| && matches[k].Matched?
  }

  /** The number of pairs the greedy loop makes. */
  ghost function PairCount(matches: seq<Match>): nat {
    |MatchedPositions(matches)|
  }

  lemma {:induction false} ImageSize(keys: set<nat>, image: set<nat>, f: map<nat, nat>)
    requires forall p :: p in keys ==> p in f && f[p] in image
    requires forall p, q :: p in keys && q in keys && p != q ==> f[p] != f[q]
    ensures |keys| <= |image|
    decreases keys
  {
    if keys == {} {
    } else {
      var p :| p in keys;
      ImageSize(keys - {p}, image - {f[p]}, f);
    }
  }

  /** The greedy pairs form a matching themselves. */
  lemma GreedyIsMatching(gold: seq<GoldBlock>, predicted: seq<Block>, matches: seq<Match>)
    returns (pairs: map<nat, nat>)
    requires IsGreedy(gold, predicted, matches)
    ensures IsMatching(gold, predicted, pairs) && |pairs| == PairCount(matches)
  {
    GreedyInjective(gold, predicted, matches);
    pairs := map k | k in MatchedPositions(matches) :: matches[k].index;
    forall p | p in pairs ensures Score(gold, predicted[p].box, pairs[p]) > 0.0 {
      assert IsChoice(gold, predicted[p].box, Free(gold, matches[..p]), matches[p]);
    }
    assert pairs.Keys == MatchedPositions(matches);
  }

  ghost function TakenIndices(matches: seq<Match>): set<nat> {
    set k | k in MatchedPositions(matches) :: matches[k].index
  }

  /** A pair whose predicted block has no greedy partner has a gold block that is taken. */
  lemma PartnerTaken(gold: seq<GoldBlock>, predicted: seq<Block>, matches: seq<Match>, pairs: map<nat, nat>, p: nat)
    requires IsGreedy(gold, predicted, matches) && IsMatching(gold, predicted, pairs)
    requires p in pairs && p !in MatchedPositions(matches)
    ensures pairs[p] in TakenIndices(matches)
  {
    var g := pairs[p];
    assert g !in Free(gold, matches) by {
      if g in Free(gold, matches) {
        GreedyMaximal(gold, predicted, matches, p, g);
      }
    }
    var k :| 0 <= k < |matches| && matches[k].Matched? && matches[k].index == g;
    assert k in MatchedPositions(matches);
  }

  lemma {:induction false} TakenSize(positions: set<nat>, taken: set<nat>, matches: seq<Match>)
    requires forall k :: k in positions ==> k < |matches| && matches[k].Matched?
    requires taken == set k | k in positions :: matches[k].index
    ensures |taken| <= |positions|
    decreases positions
  {
    if positions == {} {
    } else {
      var k :| k in positions;
      var smaller := set j | j in positions - {k} :: matches[j].index;
      TakenSize(positions - {k}, smaller, matches);
      SubsetSize(taken, smaller + {matches[k].index});
    }
  }

  /** No matching of overlapping blocks has more than twice as many pairs. */
  lemma GreedyHalfOptimal(gold: seq<GoldBlock>, predicted: seq<Block>, matches: seq<Match>, pairs: map<nat, nat>)
    requires IsGreedy(gold, predicted, matches) && IsMatching(gold, predicted, pairs)
    ensures |pairs| <= 2 * PairCount(matches)
  {
    hide IsGreedy, Score;
    var positions := MatchedPositions(matches);
    var here, there := pairs.Keys * positions, pairs.Keys - positions;
    forall p | p in there ensures pairs[p] in TakenIndices(matches) {
      PartnerTaken(gold, predicted, matches, pairs, p);
    }
    ImageSize(there, TakenIndices(matches), pairs);
    TakenSize(positions, TakenIndices(matches), matches);
    SubsetSize(here, positions);
    assert pairs.Keys == here + there;
  }

  /** A column of the page, half its width. */
  function Column(x: real): PageBox
    requires 0.0 <= x <= 0.5
  {
    Box(x, 0.0, 0.5, 1.0)
  }

  lemma ColumnsOverlap(x: real, y: real)
    requires 0.0 <= x <= 0.5 && 0.0 <= y <= 0.5
    ensures BboxIou(Column(x), Column(y)).value > 0.0 <==> -0.5 < x - y < 0.5
  {
    assert Shared(0.0, 1.0, 0.0, 1.0) == 1.0;
    assert Intersection(Column(x), Column(y)) == Shared(x, 0.5, y, 0.5);
    IntersectionBounds(Column(x), Column(y));
    RatioBounds(Intersection(Column(x), Column(y)), Area(Column(x)), Area(Column(y)));
  }

  lemma ColumnsTie(x: real, y: real, z: real)
    requires 0.0 <= x <= y <= z <= 0.5 && y - x == z - y
    ensures BboxIou(Column(x), Column(y)) == BboxIou(Column(z), Column(y))
  {
    assert Intersection(Column(x), Column(y)) == Intersection(Column(z), Column(y));
  }

  /** Two gold columns side by side, a first block across both and a second on the right one. */
  function TightGold(): seq<GoldBlock> {
    [GoldBlock("left", 0, Column(0.0)), GoldBlock("right", 1, Column(0.5))]
  }

  function TightBlocks(): seq<Block> {
    [Block(0, Column(0.25)), Block(1, Column(0.5))]
  }

  /** The factor two cannot be improved: here a matching has two pairs and every greedy result one. */
  lemma HalfIsTight(matches: seq<Match>)
    requires IsGreedy(TightGold(), TightBlocks(), matches)
    ensures IsMatching(TightGold(), TightBlocks(), map[0 := 0, 1 := 1])
    ensures PairCount(matches) == 1
  {
    hide Iou;
    var gold, predicted := TightGold(), TightBlocks();
    ColumnsTie(0.0, 0.25, 0.5);
    ColumnsOverlap(0.0, 0.25);
    ColumnsOverlap(0.0, 0.5);
    ColumnsOverlap(0.5, 0.5);
    assert IsChoice(gold, predicted[0].box, Free(gold, matches[..0]), matches[0]);
    assert 0 in Free(gold, matches[..0]) && 1 in Free(gold, matches[..0]) by {
      assert !Taken(matches[..0], 0) && !Taken(matches[..0], 1);
    }
    assert Score(gold, predicted[0].box, 0) == Score(gold, predicted[0].box, 1) > 0.0;
    assert matches[0].Matched? && matches[0].index == 1;
    assert IsChoice(gold, predicted[1].box, Free(gold, matches[..1]), matches[1]);
    assert Taken(matches[..1], 1) by { assert matches[..1][0] == matches[0]; }
    assert MatchedPositions(matches) == {0};
  }
}
