/** The identifiers that evals/ocr/run_benchmark.py hands to the reading-order score: a tag per
    gold block and a tag per predicted block, built page by page. */
module OrderTags {

  import opened BlockMatching
  import opened ReadingOrder
  import opened Sequences
  import opened Sorting
  import opened Wrappers

  datatype GoldPage = GoldPage(ordinal: nat, blocks: seq<GoldBlock>)

  /** A gold page that has a prediction, with the matches of its predicted blocks. */
  datatype ScoredPage = ScoredPage(ordinal: nat, matches: seq<Match>)

  // ---------- Tag formats ----------

  function Decimal(n: nat): string {
    if n < 10 then ["0123456789"[n]] else Decimal(n / 10) + ["0123456789"[n % 10]]
  }

  function PairTag(ordinal: nat, id: string): string {
    Decimal(ordinal) + ":" + id
  }

  /** The tag of the predicted block of rank `k`; without a partner it names no page. */
  function Tag(ordinal: nat, k: nat, m: Match): string {
    match m
    case Matched(_, id, _) => PairTag(ordinal, id)
    case Unmatched => "unmatched:" + Decimal(k)
  }

  lemma {:induction false} DecimalDigits(n: nat)
    ensures Decimal(n) != [] && forall c :: c in Decimal(n) ==> c in "0123456789"
  {
    if n < 10 {
    } else {
      DecimalDigits(n / 10);
    }
  }

  /** The number that a string of decimal digits denotes. */
  ghost function Denotes(digits: string): int {
    if digits == [] then 0 else Denotes(Init(digits)) * 10 + (Last(digits) as int - '0' as int)
  }

  lemma DigitValue(n: nat)
    requires n < 10
    ensures "0123456789"[n] as int == '0' as int + n
  {
  }

  /** A printed number denotes itself, without leading zeros. */
  lemma {:induction false} DecimalMeaning(n: nat)
    ensures Denotes(Decimal(n)) == n
    ensures n > 0 ==> Decimal(n)[0] != '0'
    ensures n == 0 ==> Decimal(n) == "0"
  {
    DigitValue(n % 10);
    if n < 10 {
      assert Init(Decimal(n)) == [];
    } else {
      DecimalMeaning(n / 10);
      DecimalDigits(n / 10);
      assert Init(Decimal(n)) == Decimal(n / 10);
      assert Decimal(n)[0] == Decimal(n / 10)[0];
    }
  }

  lemma DigitInjective(a: nat, b: nat)
    requires a < 10 && b < 10
    ensures "0123456789"[a] == "0123456789"[b] ==> a == b
  {
  }

  lemma {:induction false} DecimalInjective(m: nat, n: nat)
    requires Decimal(m) == Decimal(n)
    ensures m == n
  {
    DecimalDigits(m / 10);
    DecimalDigits(n / 10);
    DigitInjective(m % 10, n % 10);
    assert Last(Decimal(m)) == Last(Decimal(n));
    if m < 10 || n < 10 {
    } else {
      assert Init(Decimal(m)) == Decimal(m / 10) && Init(Decimal(n)) == Decimal(n / 10);
      DecimalInjective(m / 10, n / 10);
    }
  }

  lemma ColonSplit(p: string, x: string, q: string, y: string)
    requires ':' !in p && ':' !in q && p + ":" + x == q + ":" + y
    ensures p == q && x == y
  {
    var s := p + ":" + x;
    assert s[|p|] == ':' && s[|q|] == ':';
    assert |p| == |q|;
    assert s[..|p|] == p && s[..|q|] == q && s[|p| + 1..] == x && s[|q| + 1..] == y;
  }

  lemma PairTagInjective(a: nat, x: string, b: nat, y: string)
    requires PairTag(a, x) == PairTag(b, y)
    ensures a == b && x == y
  {
    DecimalDigits(a);
    DecimalDigits(b);
    ColonSplit(Decimal(a), x, Decimal(b), y);
    DecimalInjective(a, b);
  }

  /** The same tag with the page named for left-over blocks too. */
  function QualifiedTag(ordinal: nat, k: nat, m: Match): string {
    match m
    case Matched(_, id, _) => PairTag(ordinal, id)
    case Unmatched => "unmatched:" + PairTag(ordinal, Decimal(k))
  }

  lemma TagHead(ordinal: nat, k: nat, m: Match)
    ensures Tag(ordinal, k, m)[0] == 'u' <==> m.Unmatched?
    ensures QualifiedTag(ordinal, k, m)[0] == 'u' <==> m.Unmatched?
  {
    DecimalDigits(ordinal);
    if m.Matched? {
      assert Decimal(ordinal)[0] in Decimal(ordinal);
      assert Tag(ordinal, k, m)[0] == Decimal(ordinal)[0] == QualifiedTag(ordinal, k, m)[0];
    }
  }

  /** Two tags are equal exactly when they name the same gold block, or the same rank for two
      blocks without a partner. */
  lemma TagEquality(a: nat, k: nat, m: Match, b: nat, l: nat, n: Match)
    ensures Tag(a, k, m) == Tag(b, l, n) <==>
      if m.Matched? && n.Matched? then a == b && m.id == n.id else m.Unmatched? && n.Unmatched? && k == l
  {
    if Tag(a, k, m) == Tag(b, l, n) {
      TagHead(a, k, m);
      TagHead(b, l, n);
      if m.Matched? {
        PairTagInjective(a, m.id, b, n.id);
      } else {
        assert Tag(a, k, m)[10..] == Decimal(k) && Tag(b, l, n)[10..] == Decimal(l);
        DecimalInjective(k, l);
      }
    }
  }

  lemma QualifiedTagInjective(a: nat, k: nat, m: Match, b: nat, l: nat, n: Match)
    requires QualifiedTag(a, k, m) == QualifiedTag(b, l, n)
    ensures a == b && (m.Matched? <==> n.Matched?)
    ensures if m.Matched? then m.id == n.id else k == l
  {
    TagHead(a, k, m);
    TagHead(b, l, n);
    if m.Matched? {
      PairTagInjective(a, m.id, b, n.id);
    } else {
      assert QualifiedTag(a, k, m)[10..] == PairTag(a, Decimal(k));
      assert QualifiedTag(b, l, n)[10..] == PairTag(b, Decimal(l));
      PairTagInjective(a, Decimal(k), b, Decimal(l));
      DecimalInjective(k, l);
    }
  }

  /** The formats of the tags, and of the one that names the page of a left-over block. */
  lemma TagFormats(ordinal: nat, k: nat, i: nat, id: string, iou: real)
    ensures Tag(ordinal, k, Matched(i, id, iou)) == Decimal(ordinal) + ":" + id
    ensures Tag(ordinal, k, Unmatched) == "unmatched:" + Decimal(k)
    ensures QualifiedTag(ordinal, k, Unmatched) == "unmatched:" + Decimal(ordinal) + ":" + Decimal(k)
  {
  }

  // ---------- Tag lists ----------

  function SortGold(blocks: seq<GoldBlock>): seq<GoldBlock> {
    Sort(blocks, (a: GoldBlock, b: GoldBlock) => a.readingOrder <= b.readingOrder)
  }

  function ExpectedTags(page: GoldPage): seq<string> {
    var ordered := SortGold(page.blocks);
    seq(|ordered|, i requires 0 <= i < |ordered| => PairTag(page.ordinal, ordered[i].id))
  }

  function PredictedTags(page: ScoredPage): seq<string> {
    seq(|page.matches|, k requires 0 <= k < |page.matches| => Tag(page.ordinal, k, page.matches[k]))
  }

  function ExpectedOrder(gold: seq<GoldPage>): seq<string> {
    Flatten(seq(|gold|, a requires 0 <= a < |gold| => ExpectedTags(gold[a])))
  }

  function PredictedOrder(scored: seq<ScoredPage>): seq<string> {
    Flatten(seq(|scored|, a requires 0 <= a < |scored| => PredictedTags(scored[a])))
  }

  /** What the manifest contracts check of a gold document. */
  ghost predicate ValidGold(gold: seq<GoldPage>) {
    && (forall a, b :: 0 <= a < b < |gold| ==> gold[a].ordinal < gold[b].ordinal)
    && forall a :: 0 <= a < |gold| ==> DistinctIds(gold[a].blocks)
  }

  /** The matches of one page: its gold blocks in reading order against the predicted ones. */
  function PageMatches(page: GoldPage, blocks: seq<Block>): seq<Match> {
    Greedy(SortGold(page.blocks), ByReadingOrder(blocks))
  }

  /** The gold pages that were predicted, in order, with their matches. */
  function ScoredPages(gold: seq<GoldPage>, predicted: map<nat, seq<Block>>): seq<ScoredPage> {
    if gold == [] then []
    else
      var before, page := ScoredPages(Init(gold), predicted), Last(gold);
      if page.ordinal !in predicted then before
      else before + [ScoredPage(page.ordinal, PageMatches(page, predicted[page.ordinal]))]
  }

  ghost predicate DistinctMatches(matches: seq<Match>) {
    forall k, l :: 0 <= k < l < |matches| && matches[k].Matched? && matches[l].Matched? ==>
      matches[k].id != matches[l].id
  }

  /** What the tag lists need of the scored pages. */
  ghost predicate WellScored(scored: seq<ScoredPage>) {
    && (forall a, b :: 0 <= a < b < |scored| ==> scored[a].ordinal != scored[b].ordinal)
    && forall a :: 0 <= a < |scored| ==> DistinctMatches(scored[a].matches)
  }

  lemma SortKeepsIds(blocks: seq<GoldBlock>)
    requires DistinctIds(blocks)
    ensures DistinctIds(SortGold(blocks))
  {
    var ordered := SortGold(blocks);
    forall i, j | 0 <= i < j < |ordered| ensures ordered[i].id != ordered[j].id {
      if ordered[i].id == ordered[j].id {
        TwiceInMultiset(ordered, i, j);
        assert ordered[i] in multiset(blocks) && ordered[j] in multiset(blocks);
        if ordered[i] == ordered[j] {
          OnceInMultiset(blocks, ordered[i]);
        }
      }
    }
  }

  lemma {:induction false} MatchesDistinct(page: GoldPage, blocks: seq<Block>)
    requires DistinctIds(page.blocks)
    ensures DistinctMatches(PageMatches(page, blocks))
  {
    hide IsGreedy, SortGold, ByReadingOrder, DistinctIds, Greedy;
    SortKeepsIds(page.blocks);
    GreedyIsGreedy(SortGold(page.blocks), ByReadingOrder(blocks));
    GreedyInjective(SortGold(page.blocks), ByReadingOrder(blocks), PageMatches(page, blocks));
  }

  lemma {:induction false} ScoredIsWell(gold: seq<GoldPage>, predicted: map<nat, seq<Block>>)
    requires ValidGold(gold)
    ensures var scored := ScoredPages(gold, predicted);
      WellScored(scored) && forall a :: 0 <= a < |scored| ==> gold != [] && scored[a].ordinal <= Last(gold).ordinal
    decreases |gold|
  {
    hide PageMatches, DistinctIds, DistinctMatches;
    if gold == [] {
    } else {
      var front, page := Init(gold), Last(gold);
      assert forall a :: 0 <= a < |front| ==> front[a] == gold[a];
      ScoredIsWell(front, predicted);
      if page.ordinal in predicted {
        MatchesDistinct(page, predicted[page.ordinal]);
      }
    }
  }

  // ---------- When the tags are unique ----------

  predicate LeftOver(page: ScoredPage, k: int) {
    0 <= k < |page.matches| && page.matches[k].Unmatched?
  }

  /** Two scored pages leave blocks of the same rank without a partner. */
  ghost predicate Collides(scored: seq<ScoredPage>) {
    exists a, b, k :: 0 <= a < b < |scored| && LeftOver(scored[a], k) && LeftOver(scored[b], k)
  }

  lemma PageTagsDistinct(scored: seq<ScoredPage>, a: nat)
    requires WellScored(scored) && a < |scored|
    ensures Distinct(PredictedTags(scored[a]))
  {
    var page := scored[a];
    forall k, l | 0 <= k < l < |page.matches| ensures PredictedTags(page)[k] != PredictedTags(page)[l] {
      TagEquality(page.ordinal, k, page.matches[k], page.ordinal, l, page.matches[l]);
    }
  }

  lemma PagesDisjoint(scored: seq<ScoredPage>, a: nat, b: nat)
    requires WellScored(scored) && a < b < |scored|
    ensures Disjoint(PredictedTags(scored[a]), PredictedTags(scored[b]))
       <==> forall k :: LeftOver(scored[a], k) ==> !LeftOver(scored[b], k)
  {
    hide Tag;
    var p, q := scored[a], scored[b];
    var x, y := PredictedTags(p), PredictedTags(q);
    forall k, l | 0 <= k < |x| && 0 <= l < |y| ensures x[k] == y[l] <==> k == l && LeftOver(p, k) && LeftOver(q, l) {
      TagEquality(p.ordinal, k, p.matches[k], q.ordinal, l, q.matches[l]);
    }
    if k :| LeftOver(p, k) && LeftOver(q, k) {
      assert x[k] == y[k];
    }
  }

  /** Predicted tags are unique exactly when no rank is left over on two pages. */
  lemma PredictedOrderDistinct(scored: seq<ScoredPage>)
    requires WellScored(scored)
    ensures Distinct(PredictedOrder(scored)) <==> !Collides(scored)
  {
    var parts := seq(|scored|, a requires 0 <= a < |scored| => PredictedTags(scored[a]));
    FlattenDistinct(parts);
    forall a | 0 <= a < |scored| ensures Distinct(parts[a]) {
      PageTagsDistinct(scored, a);
    }
    forall a, b | 0 <= a < b < |scored|
      ensures Disjoint(parts[a], parts[b]) <==> forall k :: LeftOver(scored[a], k) ==> !LeftOver(scored[b], k)
    {
      PagesDisjoint(scored, a, b);
    }
    if Collides(scored) {
      var a, b, k :| 0 <= a < b < |scored| && LeftOver(scored[a], k) && LeftOver(scored[b], k);
      assert !Disjoint(parts[a], parts[b]);
    }
  }

  lemma ExpectedOrderDistinct(gold: seq<GoldPage>)
    requires ValidGold(gold)
    ensures Distinct(ExpectedOrder(gold))
  {
    var parts := seq(|gold|, a requires 0 <= a < |gold| => ExpectedTags(gold[a]));
    FlattenDistinct(parts);
    forall a | 0 <= a < |gold| ensures Distinct(parts[a]) {
      SortKeepsIds(gold[a].blocks);
      var ordered := SortGold(gold[a].blocks);
      forall i, j | 0 <= i < j < |ordered| ensures parts[a][i] != parts[a][j] {
        if parts[a][i] == parts[a][j] {
          PairTagInjective(gold[a].ordinal, ordered[i].id, gold[a].ordinal, ordered[j].id);
        }
      }
    }
    forall a, b | 0 <= a < b < |gold| ensures Disjoint(parts[a], parts[b]) {
      forall i, j | 0 <= i < |parts[a]| && 0 <= j < |parts[b]| ensures parts[a][i] != parts[b][j] {
        if parts[a][i] == parts[b][j] {
          PairTagInjective(gold[a].ordinal, SortGold(gold[a].blocks)[i].id,
                           gold[b].ordinal, SortGold(gold[b].blocks)[j].id);
        }
      }
    }
  }

  // ---------- When the score is refused ----------

  /** The greedy matching of the page leaves its predicted block of rank `k` without a partner. */
  predicate LeavesOver(page: GoldPage, predicted: map<nat, seq<Block>>, k: int) {
    page.ordinal in predicted && LeftOver(ScoredPage(page.ordinal, PageMatches(page, predicted[page.ordinal])), k)
  }

  /** Two predicted pages leave over the same rank. */
  ghost predicate Collision(gold: seq<GoldPage>, predicted: map<nat, seq<Block>>) {
    exists a, b, k :: 0 <= a < b < |gold| && LeavesOver(gold[a], predicted, k) && LeavesOver(gold[b], predicted, k)
  }

  ghost predicate LeftSomewhere(scored: seq<ScoredPage>, k: int) {
    exists a :: 0 <= a < |scored| && LeftOver(scored[a], k)
  }

  ghost predicate LeavesSomewhere(gold: seq<GoldPage>, predicted: map<nat, seq<Block>>, k: int) {
    exists a :: 0 <= a < |gold| && LeavesOver(gold[a], predicted, k)
  }

  lemma CollidesAppend(scored: seq<ScoredPage>, page: ScoredPage)
    ensures Collides(scored + [page]) <==> Collides(scored) || exists k :: LeftSomewhere(scored, k) && LeftOver(page, k)
    ensures forall k :: LeftSomewhere(scored + [page], k) <==> LeftSomewhere(scored, k) || LeftOver(page, k)
  {
    hide LeftOver;
    var all := scored + [page];
    assert all[|scored|] == page && forall a :: 0 <= a < |scored| ==> all[a] == scored[a];
  }

  lemma CollisionAppend(gold: seq<GoldPage>, page: GoldPage, predicted: map<nat, seq<Block>>)
    ensures Collision(gold + [page], predicted)
       <==> (Collision(gold, predicted) ||
             exists k :: LeavesSomewhere(gold, predicted, k) && LeavesOver(page, predicted, k))
    ensures forall k ::
      LeavesSomewhere(gold + [page], predicted, k) <==>
        LeavesSomewhere(gold, predicted, k) || LeavesOver(page, predicted, k)
  {
    hide LeavesOver;
    var all := gold + [page];
    assert all[|gold|] == page && forall a :: 0 <= a < |gold| ==> all[a] == gold[a];
  }

  lemma NothingCollides(predicted: map<nat, seq<Block>>)
    ensures !Collides([]) && !Collision([], predicted)
    ensures forall k :: !LeftSomewhere([], k) && !LeavesSomewhere([], predicted, k)
  {
  }

  lemma {:induction false} CollisionMeaning(gold: seq<GoldPage>, predicted: map<nat, seq<Block>>)
    ensures Collides(ScoredPages(gold, predicted)) <==> Collision(gold, predicted)
    ensures forall k :: LeftSomewhere(ScoredPages(gold, predicted), k) <==> LeavesSomewhere(gold, predicted, k)
    decreases |gold|
  {
    hide Collides, Collision, LeftOver, PageMatches, LeftSomewhere, LeavesSomewhere;
    if gold == [] {
      NothingCollides(predicted);
    } else {
      var front, page := Init(gold), Last(gold);
      assert gold == front + [page];
      CollisionMeaning(front, predicted);
      CollisionAppend(front, page, predicted);
      if page.ordinal in predicted {
        CollidesAppend(ScoredPages(front, predicted),
                       ScoredPage(page.ordinal, PageMatches(page, predicted[page.ordinal])));
      }
    }
  }

  /** The predicted tags of a document are unique exactly when no two predicted pages leave over
      the same rank. */
  lemma PredictedTagsUnique(gold: seq<GoldPage>, predicted: map<nat, seq<Block>>)
    requires ValidGold(gold)
    ensures Distinct(PredictedOrder(ScoredPages(gold, predicted))) <==> !Collision(gold, predicted)
  {
    hide WellScored, Collides, Collision, PredictedOrder, ScoredPages, ValidGold;
    ScoredIsWell(gold, predicted);
    PredictedOrderDistinct(ScoredPages(gold, predicted));
    CollisionMeaning(gold, predicted);
  }

  // ---------- The evaluation loop ----------

  lemma NoPages()
    ensures ExpectedOrder([]) == [] && PredictedOrder([]) == []
  {
  }

  lemma ExpectedOrderAppend(gold: seq<GoldPage>, page: GoldPage)
    ensures ExpectedOrder(gold + [page]) == ExpectedOrder(gold) + ExpectedTags(page)
  {
    var longer := gold + [page];
    var parts := seq(|gold|, a requires 0 <= a < |gold| => ExpectedTags(gold[a]));
    FlattenAppend(parts, ExpectedTags(page));
    assert seq(|longer|, a requires 0 <= a < |longer| => ExpectedTags(longer[a])) == parts + [ExpectedTags(page)];
  }

  lemma PredictedOrderAppend(scored: seq<ScoredPage>, page: ScoredPage)
    ensures PredictedOrder(scored + [page]) == PredictedOrder(scored) + PredictedTags(page)
  {
    var longer := scored + [page];
    var parts := seq(|scored|, a requires 0 <= a < |scored| => PredictedTags(scored[a]));
    FlattenAppend(parts, PredictedTags(page));
    assert seq(|longer|, a requires 0 <= a < |longer| => PredictedTags(longer[a])) == parts + [PredictedTags(page)];
  }

  method BuildOrders(gold: seq<GoldPage>, predicted: map<nat, seq<Block>>)
    returns (expectedOrder: seq<string>, predictedOrder: seq<string>)
    ensures expectedOrder == ExpectedOrder(gold)
    ensures predictedOrder == PredictedOrder(ScoredPages(gold, predicted))
  {
    hide ExpectedTags, PredictedTags, ExpectedOrder, PredictedOrder, Greedy;
    expectedOrder, predictedOrder := [], [];
    NoPages();
    for n := 0 to |gold|
      invariant expectedOrder == ExpectedOrder(gold[..n])
      invariant predictedOrder == PredictedOrder(ScoredPages(gold[..n], predicted))
    {
      var page := gold[n];
      assert Init(gold[..n + 1]) == gold[..n] && gold[..n + 1] == gold[..n] + [page];
      ExpectedOrderAppend(gold[..n], page);
      expectedOrder := expectedOrder + ExpectedTags(page);
      if page.ordinal in predicted {
        var matches := MatchBlocks(SortGold(page.blocks), predicted[page.ordinal]);
        var scoredPage := ScoredPage(page.ordinal, matches);
        PredictedOrderAppend(ScoredPages(gold[..n], predicted), scoredPage);
        predictedOrder := predictedOrder + PredictedTags(scoredPage);
      }
    }
    assert gold[..|gold|] == gold;
  }

  /** The reading-order part of `_evaluate_quality`.  It fails, for a valid gold document, exactly
      when two predicted pages leave over the same rank. */
  method EvaluateOrder(gold: seq<GoldPage>, predicted: map<nat, seq<Block>>) returns (score: Result<real, OrderError>)
    requires ValidGold(gold)
    ensures score.Failure? <==> Collision(gold, predicted)
    ensures score.Success? ==>
      score.value == OrderScore(ExpectedOrder(gold), PredictedOrder(ScoredPages(gold, predicted)))
  {
    hide ValidGold, Collision, ExpectedOrder, PredictedOrder, ScoredPages, OrderScore;
    var expectedOrder, predictedOrder := BuildOrders(gold, predicted);
    PredictedTagsUnique(gold, predicted);
    ExpectedOrderDistinct(gold);
    score := ReadingOrder.Score(expectedOrder, predictedOrder);
  }

  /** A document of one page is never refused. */
  lemma {:induction false} OnePageNeverCollides(gold: seq<GoldPage>, predicted: map<nat, seq<Block>>)
    requires |gold| == 1 && ValidGold(gold)
    ensures !Collision(gold, predicted)
    ensures Distinct(PredictedOrder(ScoredPages(gold, predicted))) && Distinct(ExpectedOrder(gold))
  {
    hide ScoredPages, PredictedOrder, ExpectedOrder, ValidGold;
    PredictedTagsUnique(gold, predicted);
    ExpectedOrderDistinct(gold);
  }

  /** Two pages without gold blocks and with one predicted block each are always refused: the tag
      of a left-over block does not name its page. */
  lemma {:induction false} TwoPagesCollide(block: Block)
    ensures Collision([GoldPage(1, []), GoldPage(2, [])], map[1 := [block], 2 := [block]])
  {
    var gold, predicted := [GoldPage(1, []), GoldPage(2, [])], map[1 := [block], 2 := [block]];
    forall a: nat | a < 2 ensures LeavesOver(gold[a], predicted, 0) {
      assert |ByReadingOrder([block])| == 1 && SortGold([]) == [];
      assert Greedy([], ByReadingOrder([block]))[0] == Unmatched;
    }
    assert LeavesOver(gold[0], predicted, 0) && LeavesOver(gold[1], predicted, 0);
  }

  // ---------- A tag that names the page ----------

  function QualifiedTags(page: ScoredPage): seq<string> {
    seq(|page.matches|, k requires 0 <= k < |page.matches| => QualifiedTag(page.ordinal, k, page.matches[k]))
  }

  function QualifiedOrder(scored: seq<ScoredPage>): seq<string> {
    Flatten(seq(|scored|, a requires 0 <= a < |scored| => QualifiedTags(scored[a])))
  }

  lemma QualifiedDistinct(scored: seq<ScoredPage>)
    requires WellScored(scored)
    ensures Distinct(QualifiedOrder(scored))
  {
    var parts := seq(|scored|, a requires 0 <= a < |scored| => QualifiedTags(scored[a]));
    FlattenDistinct(parts);
    forall a, k, l | 0 <= a < |scored| && 0 <= k < l < |parts[a]| ensures parts[a][k] != parts[a][l] {
      if parts[a][k] == parts[a][l] {
        QualifiedTagInjective(scored[a].ordinal, k, scored[a].matches[k], scored[a].ordinal, l, scored[a].matches[l]);
      }
    }
    forall a, b | 0 <= a < b < |scored| ensures Disjoint(parts[a], parts[b]) {
      forall k, l | 0 <= k < |parts[a]| && 0 <= l < |parts[b]| ensures parts[a][k] != parts[b][l] {
        if parts[a][k] == parts[b][l] {
          QualifiedTagInjective(scored[a].ordinal, k, scored[a].matches[k], scored[b].ordinal, l, scored[b].matches[l]);
        }
      }
    }
  }

  /** With the page in the tag, every valid document has unique predicted tags. */
  lemma QualifiedOrderDistinct(gold: seq<GoldPage>, predicted: map<nat, seq<Block>>)
    requires ValidGold(gold)
    ensures Distinct(QualifiedOrder(ScoredPages(gold, predicted)))
  {
    hide ScoredPages, ValidGold, QualifiedOrder;
    ScoredIsWell(gold, predicted);
    QualifiedDistinct(ScoredPages(gold, predicted));
  }
}
