/** Reading order at its plainest: gold blocks are scored in ascending reading order, and a prediction
    that repeats the gold boxes in the same order scores 1 (evals/ocr/run_benchmark.py). */
module PerfectOrder {

  import opened BlockMatching
  import opened Boxes
  import opened OrderTags
  import opened ReadingOrder
  import opened Sequences
  import opened Sorting
  import opened Wrappers

  // ---------- Ascending reading order ----------

  /** Gold blocks come in ascending reading order, tied ones as they are listed. */
  lemma {:induction false} GoldAscends(blocks: seq<GoldBlock>, order: nat)
    ensures var ordered := SortGold(blocks);
      && multiset(ordered) == multiset(blocks)
      && (forall i, j :: 0 <= i < j < |ordered| ==> ordered[i].readingOrder <= ordered[j].readingOrder)
      && Filter(ordered, (b: GoldBlock) => b.readingOrder == order)
      == Filter(blocks, (b: GoldBlock) => b.readingOrder == order)
  {
    var le := (a: GoldBlock, b: GoldBlock) => a.readingOrder <= b.readingOrder;
    SortIsSorted(blocks, le);
    assert forall i, j :: 0 <= i < j < |SortGold(blocks)| ==> le(SortGold(blocks)[i], SortGold(blocks)[j]);
    SortStable(blocks, le, (b: GoldBlock) => b.readingOrder == order);
  }

  /** Predicted blocks come in ascending reading order, tied ones as they are listed. */
  lemma {:induction false} PredictedAscends(blocks: seq<Block>, order: nat)
    ensures var ordered := ByReadingOrder(blocks);
      && multiset(ordered) == multiset(blocks)
      && (forall i, j :: 0 <= i < j < |ordered| ==> ordered[i].readingOrder <= ordered[j].readingOrder)
      && Filter(ordered, (b: Block) => b.readingOrder == order)
      == Filter(blocks, (b: Block) => b.readingOrder == order)
  {
    var le := (a: Block, b: Block) => a.readingOrder <= b.readingOrder;
    SortIsSorted(blocks, le);
    assert forall i, j :: 0 <= i < j < |ByReadingOrder(blocks)| ==>
      le(ByReadingOrder(blocks)[i], ByReadingOrder(blocks)[j]);
    SortStable(blocks, le, (b: Block) => b.readingOrder == order);
  }

  // ---------- A prediction that repeats the gold page ----------

  /** The predicted blocks are the gold boxes, listed in any order: gold block `i` is block
      `partner[i]`, and both sides read them in the same order. */
  ghost predicate Repeats(page: GoldPage, blocks: seq<Block>, partner: seq<nat>) {
    && |partner| == |page.blocks| == |blocks|
    && (forall i :: 0 <= i < |partner| ==> partner[i] < |blocks| && blocks[partner[i]].box == page.blocks[i].box)
    && Distinct(partner)
    && forall i, j :: 0 <= i < |partner| && 0 <= j < |partner| ==>
         (page.blocks[i].readingOrder < page.blocks[j].readingOrder
          <==> blocks[partner[i]].readingOrder < blocks[partner[j]].readingOrder)
  }

  /** Distinct reading orders, as the contracts demand, and boxes with an area that share no point. */
  ghost predicate Separate(blocks: seq<GoldBlock>) {
    && (forall i, j :: 0 <= i < j < |blocks| ==> blocks[i].readingOrder != blocks[j].readingOrder)
    && (forall i :: 0 <= i < |blocks| ==> blocks[i].box.width > 0.0 && blocks[i].box.height > 0.0)
    && forall i, j, x, y :: 0 <= i < j < |blocks| ==> !(Inside(x, y, blocks[i].box) && Inside(x, y, blocks[j].box))
  }

  ghost function Pairs(page: GoldPage, blocks: seq<Block>, partner: seq<nat>): seq<(GoldBlock, Block)>
    requires Repeats(page, blocks, partner)
  {
    seq(|partner|, i requires 0 <= i < |partner| => (page.blocks[i], blocks[partner[i]]))
  }

  predicate GoldFirst(a: (GoldBlock, Block), b: (GoldBlock, Block)) {
    a.0.readingOrder <= b.0.readingOrder
  }

  /** What every pair has in common with the others. */
  ghost predicate PairsAgree(pairs: seq<(GoldBlock, Block)>) {
    && (forall p :: p in pairs ==> p.0.box == p.1.box)
    && (forall p, q :: p in pairs && q in pairs && p.0.readingOrder == q.0.readingOrder ==> p == q)
    && forall p, q :: p in pairs && q in pairs ==>
         (p.0.readingOrder < q.0.readingOrder <==> p.1.readingOrder < q.1.readingOrder)
  }

  lemma {:induction false} PairsOfPage(page: GoldPage, blocks: seq<Block>, partner: seq<nat>)
    requires Repeats(page, blocks, partner) && Separate(page.blocks)
    ensures PairsAgree(Pairs(page, blocks, partner))
    ensures Map(Pairs(page, blocks, partner), (p: (GoldBlock, Block)) => p.0) == page.blocks
  {
    hide Inside;
    var pairs := Pairs(page, blocks, partner);
    forall p, q | p in pairs && q in pairs
      ensures p.0.readingOrder == q.0.readingOrder ==> p == q
      ensures p.0.readingOrder < q.0.readingOrder <==> p.1.readingOrder < q.1.readingOrder
    {
      var i :| 0 <= i < |pairs| && pairs[i] == p;
      var j :| 0 <= j < |pairs| && pairs[j] == q;
    }
  }

  lemma {:induction false} PartnersOfPage(page: GoldPage, blocks: seq<Block>, partner: seq<nat>)
    requires Repeats(page, blocks, partner) && Separate(page.blocks)
    ensures multiset(Map(Pairs(page, blocks, partner), (p: (GoldBlock, Block)) => p.1)) == multiset(blocks)
  {
    hide Inside;
    var seconds := Map(Pairs(page, blocks, partner), (p: (GoldBlock, Block)) => p.1);
    forall i, j | 0 <= i < j < |seconds| ensures seconds[i] != seconds[j] {
      assert page.blocks[i].readingOrder != page.blocks[j].readingOrder;
    }
    DistinctFull(seconds, blocks);
  }

  lemma {:induction false} FirstsSorted(pairs: seq<(GoldBlock, Block)>, sorted: seq<(GoldBlock, Block)>,
                                        gold: seq<GoldBlock>)
    requires PairsAgree(pairs) && Sorted(sorted, GoldFirst) && multiset(pairs) == multiset(sorted)
    requires Map(pairs, (p: (GoldBlock, Block)) => p.0) == gold
    ensures SortGold(gold) == Map(sorted, (p: (GoldBlock, Block)) => p.0)
  {
    var first := (p: (GoldBlock, Block)) => p.0;
    var le := (a: GoldBlock, b: GoldBlock) => a.readingOrder <= b.readingOrder;
    MapPermuted(pairs, sorted, first);
    assert forall i, j :: 0 <= i < j < |sorted| ==> GoldFirst(sorted[i], sorted[j]);
    assert Sorted(Map(sorted, first), le);
    forall x, y | x in gold && y in gold && le(x, y) && le(y, x) ensures x == y {
      var i :| 0 <= i < |pairs| && pairs[i].0 == x;
      var j :| 0 <= j < |pairs| && pairs[j].0 == y;
      assert pairs[i] in pairs && pairs[j] in pairs;
    }
    SortUnique(gold, Map(sorted, first), le);
  }

  lemma {:induction false} SecondsSorted(pairs: seq<(GoldBlock, Block)>, sorted: seq<(GoldBlock, Block)>,
                                         blocks: seq<Block>)
    requires PairsAgree(pairs) && Sorted(sorted, GoldFirst) && multiset(pairs) == multiset(sorted)
    requires multiset(Map(pairs, (p: (GoldBlock, Block)) => p.1)) == multiset(blocks)
    ensures ByReadingOrder(blocks) == Map(sorted, (p: (GoldBlock, Block)) => p.1)
  {
    var second := (p: (GoldBlock, Block)) => p.1;
    var le := (a: Block, b: Block) => a.readingOrder <= b.readingOrder;
    PermutedMembers(sorted, pairs);
    MapPermuted(pairs, sorted, second);
    forall i, j | 0 <= i < j < |sorted| ensures le(sorted[i].1, sorted[j].1) {
      assert GoldFirst(sorted[i], sorted[j]) && sorted[i] in pairs && sorted[j] in pairs;
    }
    assert Sorted(Map(sorted, second), le);
    PermutedMembers(blocks, Map(pairs, second));
    forall x, y | x in blocks && y in blocks && le(x, y) && le(y, x) ensures x == y {
      assert x in Map(pairs, second) && y in Map(pairs, second);
      var i :| 0 <= i < |pairs| && pairs[i].1 == x;
      var j :| 0 <= j < |pairs| && pairs[j].1 == y;
      assert pairs[i] in pairs && pairs[j] in pairs;
    }
    SortUnique(blocks, Map(sorted, second), le);
  }

  lemma {:induction false} SortedPairs(pairs: seq<(GoldBlock, Block)>, gold: seq<GoldBlock>, blocks: seq<Block>)
    requires PairsAgree(pairs) && Sorted(Sort(pairs, GoldFirst), GoldFirst)
    requires Map(pairs, (p: (GoldBlock, Block)) => p.0) == gold
    requires multiset(Map(pairs, (p: (GoldBlock, Block)) => p.1)) == multiset(blocks)
    ensures |SortGold(gold)| == |ByReadingOrder(blocks)|
    ensures forall i :: 0 <= i < |SortGold(gold)| ==> ByReadingOrder(blocks)[i].box == SortGold(gold)[i].box
  {
    var sorted := Sort(pairs, GoldFirst);
    PermutedMembers(sorted, pairs);
    FirstsSorted(pairs, sorted, gold);
    SecondsSorted(pairs, sorted, blocks);
    assert forall i :: 0 <= i < |sorted| ==> sorted[i] in pairs;
  }

  /** Both sides in reading order have the same boxes, one by one. */
  lemma {:induction false} SameBoxes(page: GoldPage, blocks: seq<Block>, partner: seq<nat>)
    requires Repeats(page, blocks, partner) && Separate(page.blocks)
    ensures var gold, predicted := SortGold(page.blocks), ByReadingOrder(blocks);
      |gold| == |predicted| && forall i :: 0 <= i < |gold| ==> predicted[i].box == gold[i].box
  {
    hide Repeats, Separate;
    var pairs := Pairs(page, blocks, partner);
    PairsOfPage(page, blocks, partner);
    PartnersOfPage(page, blocks, partner);
    SortIsSorted(pairs, GoldFirst);
    SortedPairs(pairs, page.blocks, blocks);
  }

  // ---------- The greedy matching of such a page ----------

  /** Equal boxes with an area overlap, boxes without a common point do not. */
  lemma BoxScore(gold: seq<GoldBlock>, box: PageBox, i: nat)
    requires i < |gold|
    ensures box == gold[i].box && box.width > 0.0 && box.height > 0.0 ==> BlockMatching.Score(gold, box, i) > 0.0
    ensures (forall x, y :: !(Inside(x, y, gold[i].box) && Inside(x, y, box))) ==>
      BlockMatching.Score(gold, box, i) <= 0.0
  {
    IouMeaning(gold[i].box, box);
    if box == gold[i].box && box.width > 0.0 && box.height > 0.0 {
      IouOne(gold[i].box, box);
    }
  }

  /** The predicted blocks in reading order lie on the gold blocks in reading order. */
  ghost predicate OnGold(gold: seq<GoldBlock>, predicted: seq<Block>) {
    && |gold| == |predicted|
    && (forall i :: 0 <= i < |gold| ==> predicted[i].box == gold[i].box)
    && (forall i :: 0 <= i < |gold| ==> gold[i].box.width > 0.0 && gold[i].box.height > 0.0)
    && forall i, j, x, y :: 0 <= i < |gold| && 0 <= j < |gold| && i != j ==>
         !(Inside(x, y, gold[i].box) && Inside(x, y, gold[j].box))
  }

  lemma {:induction false} OnlyOwnScore(gold: seq<GoldBlock>, predicted: seq<Block>, k: nat, i: nat)
    requires OnGold(gold, predicted) && k < |predicted| && i < |gold|
    ensures BlockMatching.Score(gold, predicted[k].box, i) > 0.0 <==> i == k
  {
    hide Inside, BlockMatching.Score;
    BoxScore(gold, predicted[k].box, i);
  }

  lemma SameLength(gold: seq<GoldBlock>, predicted: seq<Block>)
    requires OnGold(gold, predicted)
    ensures |gold| == |predicted|
  {
  }

  /** Every predicted block is matched with the gold block it lies on. */
  lemma {:induction false} OwnMatches(gold: seq<GoldBlock>, predicted: seq<Block>, matches: seq<Match>, k: nat)
    requires OnGold(gold, predicted) && IsGreedy(gold, predicted, matches) && k < |matches|
    ensures matches[k].Matched? && matches[k].index == k && matches[k].id == gold[k].id
    decreases k
  {
    hide OnGold, BlockMatching.Score;
    forall i: nat | i < k ensures matches[i].Matched? && matches[i].index == i {
      OwnMatches(gold, predicted, matches, i);
    }
    assert |gold| == |predicted| by {
      SameLength(gold, predicted);
    }
    forall i: nat | i < |gold| ensures BlockMatching.Score(gold, predicted[k].box, i) > 0.0 <==> i == k {
      OnlyOwnScore(gold, predicted, k, i);
    }
    assert k in Free(gold, matches[..k]) by {
      assert !Taken(matches[..k], k);
    }
    assert IsChoice(gold, predicted[k].box, Free(gold, matches[..k]), matches[k]);
  }

  lemma GoldPermuted(blocks: seq<GoldBlock>)
    requires Separate(blocks)
    ensures Distinct(SortGold(blocks)) && forall b :: b in SortGold(blocks) <==> b in blocks
  {
    hide Inside;
    assert Distinct(blocks);
    PermutedDistinct(blocks, SortGold(blocks));
    PermutedMembers(blocks, SortGold(blocks));
  }

  lemma {:induction false} SeparateSorted(blocks: seq<GoldBlock>)
    requires Separate(blocks)
    ensures var ordered := SortGold(blocks);
      && (forall i :: 0 <= i < |ordered| ==> ordered[i].box.width > 0.0 && ordered[i].box.height > 0.0)
      && forall i, j, x, y :: 0 <= i < |ordered| && 0 <= j < |ordered| && i != j ==>
           !(Inside(x, y, ordered[i].box) && Inside(x, y, ordered[j].box))
  {
    hide Inside, SortGold;
    var ordered := SortGold(blocks);
    GoldPermuted(blocks);
    forall i | 0 <= i < |ordered| ensures ordered[i].box.width > 0.0 && ordered[i].box.height > 0.0 {
      assert ordered[i] in blocks;
    }
    forall i, j, x, y | 0 <= i < |ordered| && 0 <= j < |ordered| && i != j
      ensures !(Inside(x, y, ordered[i].box) && Inside(x, y, ordered[j].box))
    {
      assert ordered[i] in blocks && ordered[j] in blocks;
      var m :| 0 <= m < |blocks| && blocks[m] == ordered[i];
      var n :| 0 <= n < |blocks| && blocks[n] == ordered[j];
      assert ordered[i] != ordered[j];
    }
  }

  lemma {:induction false} GreedyLength(gold: seq<GoldBlock>, predicted: seq<Block>)
    ensures |Greedy(gold, predicted)| == |predicted|
  {
    GreedyIsGreedy(gold, predicted);
  }

  /** The predicted tags of such a page are its gold tags. */
  lemma {:induction false} PageTags(page: GoldPage, blocks: seq<Block>, partner: seq<nat>)
    requires Repeats(page, blocks, partner) && Separate(page.blocks)
    ensures PredictedTags(ScoredPage(page.ordinal, PageMatches(page, blocks))) == ExpectedTags(page)
  {
    hide Repeats, Separate, SortGold, ByReadingOrder, Greedy, IsGreedy, Inside;
    var gold, predicted := SortGold(page.blocks), ByReadingOrder(blocks);
    SameBoxes(page, blocks, partner);
    SeparateSorted(page.blocks);
    GreedyIsGreedy(gold, predicted);
    var matches := PageMatches(page, blocks);
    GreedyLength(gold, predicted);
    forall k: nat | k < |matches| ensures matches[k].Matched? && matches[k].id == gold[k].id {
      OwnMatches(gold, predicted, matches, k);
    }
  }

  // ---------- The whole document ----------

  /** The page is predicted by blocks that repeat it. */
  ghost predicate IsRepeated(page: GoldPage, predicted: map<nat, seq<Block>>) {
    && Separate(page.blocks)
    && page.ordinal in predicted
    && exists partner :: Repeats(page, predicted[page.ordinal], partner)
  }

  ghost predicate RepeatsAll(gold: seq<GoldPage>, predicted: map<nat, seq<Block>>) {
    forall a :: 0 <= a < |gold| ==> IsRepeated(gold[a], predicted)
  }

  lemma {:induction false} SameOrders(gold: seq<GoldPage>, predicted: map<nat, seq<Block>>)
    requires RepeatsAll(gold, predicted)
    ensures PredictedOrder(ScoredPages(gold, predicted)) == ExpectedOrder(gold)
    decreases |gold|
  {
    hide Separate, Repeats, ExpectedOrder, PredictedOrder, ExpectedTags, PredictedTags, PageMatches;
    if gold == [] {
      NoPages();
    } else {
      var front, page := Init(gold), Last(gold);
      assert gold == front + [page] && gold[|gold| - 1] == page;
      assert forall a :: 0 <= a < |front| ==> front[a] == gold[a];
      SameOrders(front, predicted);
      assert IsRepeated(page, predicted);
      var partner :| Repeats(page, predicted[page.ordinal], partner);
      PageTags(page, predicted[page.ordinal], partner);
      ExpectedOrderAppend(front, page);
      PredictedOrderAppend(ScoredPages(front, predicted),
                           ScoredPage(page.ordinal, PageMatches(page, predicted[page.ordinal])));
    }
  }

  lemma {:induction false} OwnSubsequence<T>(s: seq<T>)
    ensures Subsequence(s, s)
  {
    var all := seq(|s|, i requires 0 <= i < |s| => i);
    assert Picks(all, s, s);
  }

  /** A prediction that repeats every gold page in its reading order scores 1. */
  method PerfectScore(gold: seq<GoldPage>, predicted: map<nat, seq<Block>>) returns (score: Result<real, OrderError>)
    requires ValidGold(gold) && RepeatsAll(gold, predicted)
    ensures score == Success(1.0)
  {
    hide ValidGold, RepeatsAll, Collision, ScoredPages, PredictedOrder, ExpectedOrder, OrderScore;
    score := EvaluateOrder(gold, predicted);
    SameOrders(gold, predicted);
    ExpectedOrderDistinct(gold);
    PredictedTagsUnique(gold, predicted);
    OwnSubsequence(ExpectedOrder(gold));
    ScoreMeaning(ExpectedOrder(gold), ExpectedOrder(gold));
  }
}
