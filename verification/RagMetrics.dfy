/** Recall at k and mean reciprocal rank, which evals/rag/report.py and evals/rag/ablation.py
    compute independently: one appends to lists over the sorted query ids and takes means, the
    other accumulates sums over the rows of a file. */
module RagMetrics {

  import opened Rankings
  import opened Sequences
  import opened Wrappers

  /** A query with the ranking under evaluation. */
  datatype Query = Query(id: string, relevant: seq<string>, expectAbstain: bool, ranking: seq<string>)

  datatype Mode = Dense | Bm25 | Rrf | Rerank

  const MODES: seq<Mode> := [Dense, Bm25, Rrf, Rerank]

  /** A dictionary with exactly one entry per mode. */
  datatype ByMode<T> = ByMode(dense: T, bm25: T, rrf: T, rerank: T) {
    function Get(mode: Mode): T {
      match mode
      case Dense => dense
      case Bm25 => bm25
      case Rrf => rrf
      case Rerank => rerank
    }

    function With(mode: Mode, value: T): (r: ByMode<T>)
      ensures forall other :: r.Get(other) == if other == mode then value else Get(other)
    {
      match mode
      case Dense => this.(dense := value)
      case Bm25 => this.(bm25 := value)
      case Rrf => this.(rrf := value)
      case Rerank => this.(rerank := value)
    }
  }

  /** A row of the ablation input; `relevant` is None when the field is no list. */
  datatype Row =
    | ChunkRow
    | QueryRow(id: string, relevant: Option<seq<string>>, expectAbstain: bool, dense: Route, bm25: Route, rerank: Route)

  datatype AblationError = LimitNotPositive | RelevantRequired | Unrankable(error: RankingError)

  datatype Metrics = Metrics(recallAtK: real, meanReciprocalRank: real, evaluatedQueries: nat)

  // ---------- One query ----------

  function SetOf<T>(s: seq<T>): set<T> {
    set x | x in s
  }

  function Top(ranking: seq<string>, limit: nat): seq<string> {
    if limit <= |ranking| then ranking[..limit] else ranking
  }

  function Recall(q: Query, limit: nat): real
    requires q.relevant != []
  {
    var relevant := SetOf(q.relevant);
    assert q.relevant[0] in relevant;
    |relevant * SetOf(Top(q.ranking, limit))| as real / |relevant| as real
  }

  /** The rank, from one, of the first relevant entry; zero when there is none. */
  function FirstRank(relevant: seq<string>, top: seq<string>): nat {
    if top == [] then 0
    else if top[0] in relevant then 1
    else var rank := FirstRank(relevant, top[1..]); if rank == 0 then 0 else rank + 1
  }

  function Reciprocal(q: Query, limit: nat): real {
    var rank := FirstRank(q.relevant, Top(q.ranking, limit));
    if rank == 0 then 0.0 else 1.0 / rank as real
  }

  // ---------- All queries ----------

  /** The queries that count: those with something to find. */
  function Answerable(queries: seq<Query>): seq<Query> {
    if queries == [] then []
    else (if queries[0].relevant != [] then [queries[0]] else []) + Answerable(queries[1..])
  }

  function Sum(queries: seq<Query>, value: Query -> real): real {
    if queries == [] then 0.0
    else (if queries[0].relevant != [] then value(queries[0]) else 0.0) + Sum(queries[1..], value)
  }

  function RecallOf(limit: nat): Query -> real {
    (q: Query) => if q.relevant != [] then Recall(q, limit) else 0.0
  }

  function ReciprocalOf(limit: nat): Query -> real {
    (q: Query) => Reciprocal(q, limit)
  }

  function MeanOver(queries: seq<Query>, value: Query -> real): real {
    var n := |Answerable(queries)|;
    if n == 0 then 0.0 else Sum(queries, value) / n as real
  }

  function MetricsOf(queries: seq<Query>, limit: nat): Metrics {
    Metrics(MeanOver(queries, RecallOf(limit)), MeanOver(queries, ReciprocalOf(limit)), |Answerable(queries)|)
  }

  lemma {:induction false} SumAppend(queries: seq<Query>, q: Query, value: Query -> real)
    ensures Sum(queries + [q], value) == Sum(queries, value) + if q.relevant != [] then value(q) else 0.0
    ensures |Answerable(queries + [q])| == |Answerable(queries)| + if q.relevant != [] then 1 else 0
    decreases |queries|
  {
    if queries == [] {
      assert queries + [q] == [q];
    } else {
      assert (queries + [q])[1..] == queries[1..] + [q];
      SumAppend(queries[1..], q, value);
    }
  }

  // ---------- The loop of the report ----------

  function Total(values: seq<real>): real {
    if values == [] then 0.0 else Total(values[..|values| - 1]) + values[|values| - 1]
  }

  function Mean(values: seq<real>): real
    requires values != []
  {
    Total(values) / |values| as real
  }

  lemma NoQueries()
    ensures Answerable([]) == [] && forall value :: Sum([], value) == 0.0
  {
  }

  lemma NoValues()
    ensures Total([]) == 0.0
  {
  }

  lemma TotalAppend(values: seq<real>, value: real)
    ensures Total(values + [value]) == Total(values) + value
  {
    assert (values + [value])[..|values|] == values;
  }

  /** The report: `order` holds the queries in the order of their sorted ids. */
  method ReportMetrics(order: seq<Query>, limit: nat) returns (recallAtK: real, meanReciprocalRank: real)
    ensures recallAtK == MetricsOf(order, limit).recallAtK
    ensures meanReciprocalRank == MetricsOf(order, limit).meanReciprocalRank
  {
    hide Answerable, Sum, Total, Recall, Reciprocal;
    var recalls: seq<real>, reciprocals: seq<real> := [], [];
    NoQueries();
    NoValues();
    for n := 0 to |order|
      invariant |recalls| == |reciprocals| == |Answerable(order[..n])|
      invariant Total(recalls) == Sum(order[..n], RecallOf(limit))
      invariant Total(reciprocals) == Sum(order[..n], ReciprocalOf(limit))
    {
      var q := order[n];
      SumAppend(order[..n], q, RecallOf(limit));
      SumAppend(order[..n], q, ReciprocalOf(limit));
      assert order[..n + 1] == order[..n] + [q];
      if q.relevant != [] {
        TotalAppend(recalls, Recall(q, limit));
        TotalAppend(reciprocals, Reciprocal(q, limit));
        recalls, reciprocals := recalls + [Recall(q, limit)], reciprocals + [Reciprocal(q, limit)];
      }
    }
    assert order[..|order|] == order;
    recallAtK := if recalls != [] then Mean(recalls) else 0.0;
    meanReciprocalRank := if reciprocals != [] then Mean(reciprocals) else 0.0;
  }

  // ---------- The rows of the ablation ----------

  function FusedIds(fused: seq<Fused>): seq<string> {
    seq(|fused|, i requires 0 <= i < |fused| => fused[i].chunkId)
  }

  /** The rankings of a row, computed in the order of the code; the first refusal stops it. */
  function RankingsOf(row: Row, k: int): Result<ByMode<seq<string>>, RankingError>
    requires row.QueryRow?
  {
    match RankedOf(row.dense)
    case Failure(e) => Failure(e)
    case Success(dense) =>
      match RankedOf(row.bm25)
      case Failure(e) => Failure(e)
      case Success(lexical) =>
        if k <= 0 then Failure(FusionConstant)
        else if !Distinct(Ids(dense)) || !Distinct(Ids(lexical)) then Failure(DuplicateCandidate)
        else
          match RerankedOf(row.rerank)
          case Failure(e) => Failure(e)
          case Success(reranked) =>
            Success(ByMode(Ids(dense), Ids(lexical), FusedIds(Fusion(dense, lexical, k)), reranked))
  }

  /** The row as a query under one ranking; a query that is passed over has none. */
  function QueryOf(row: Row, mode: Mode, k: int): Query
    requires row.QueryRow?
  {
    var relevant := if row.relevant.Some? then row.relevant.value else [];
    match RankingsOf(row, k)
    case Success(rankings) => Query(row.id, relevant, row.expectAbstain, rankings.Get(mode))
    case Failure(_) => Query(row.id, relevant, row.expectAbstain, [])
  }

  function QueriesOf(rows: seq<Row>, mode: Mode, k: int): seq<Query> {
    if rows == [] then []
    else (if rows[0].QueryRow? then [QueryOf(rows[0], mode, k)] else []) + QueriesOf(rows[1..], mode, k)
  }

  /** A query that the ablation passes over. */
  predicate Unanswerable(row: Row) {
    row.QueryRow? && row.relevant == Some([]) && row.expectAbstain
  }

  /** What the ablation refuses about a row, if anything. */
  function RowFault(row: Row, k: int): Option<AblationError> {
    if row.ChunkRow? || Unanswerable(row) then None
    else if row.relevant.None? || row.relevant.value == [] then Some(RelevantRequired)
    else match RankingsOf(row, k)
      case Failure(e) => Some(Unrankable(e))
      case Success(_) => None
  }

  /** A query without relevant chunks that is not marked as unanswerable is refused. */
  lemma UnmarkedIsRefused(id: string, k: int)
    ensures RowFault(QueryRow(id, Some([]), false, Items([]), Items([]), Items([])), k) == Some(RelevantRequired)
  {
  }

  lemma NoRows()
    ensures forall mode, k :: QueriesOf([], mode, k) == []
  {
  }

  lemma {:induction false} QueriesAppend(rows: seq<Row>, row: Row, mode: Mode, k: int)
    ensures QueriesOf(rows + [row], mode, k)
         == QueriesOf(rows, mode, k) + if row.QueryRow? then [QueryOf(row, mode, k)] else []
    decreases |rows|
  {
    hide QueryOf;
    var added := if row.QueryRow? then [QueryOf(row, mode, k)] else [];
    if rows == [] {
      assert rows + [row] == [row] && [row][1..] == [];
      assert added + QueriesOf([], mode, k) == added && QueriesOf([], mode, k) + added == added;
    } else {
      var head := if rows[0].QueryRow? then [QueryOf(rows[0], mode, k)] else [];
      var rest := QueriesOf(rows[1..], mode, k);
      assert (rows + [row])[1..] == rows[1..] + [row];
      QueriesAppend(rows[1..], row, mode, k);
      assert head + (rest + added) == head + rest + added;
    }
  }

  // ---------- The loop of the ablation ----------

  /** The sums kept for one mode. */
  datatype Totals = Totals(recall: real, reciprocal: real, queries: nat)

  type Aggregates = ByMode<Totals>

  ghost function TotalsOf(queries: seq<Query>, limit: nat): Totals {
    Totals(Sum(queries, RecallOf(limit)), Sum(queries, ReciprocalOf(limit)), |Answerable(queries)|)
  }

  /** The sums of the queries under every mode. */
  ghost predicate SumsOf(aggregates: Aggregates, rows: seq<Row>, k: int, limit: nat) {
    forall mode :: aggregates.Get(mode) == TotalsOf(QueriesOf(rows, mode, k), limit)
  }

  lemma TotalsAppend(queries: seq<Query>, q: Query, limit: nat)
    ensures var before, after := TotalsOf(queries, limit), TotalsOf(queries + [q], limit);
      after == if q.relevant == [] then before
               else Totals(before.recall + Recall(q, limit),
                           before.reciprocal + Reciprocal(q, limit), before.queries + 1)
  {
    hide Sum, Answerable, Recall, Reciprocal;
    SumAppend(queries, q, RecallOf(limit));
    SumAppend(queries, q, ReciprocalOf(limit));
  }

  /** The computation of the rankings, as the code issues it. */
  method RankRow(row: Row, k: int) returns (r: Result<ByMode<seq<string>>, RankingError>)
    requires row.QueryRow?
    ensures r == RankingsOf(row, k)
  {
    hide Fusion, RankedOf, RerankedOf;
    var dense := Ranked(row.dense);
    if dense.Failure? {
      return Failure(dense.error);
    }
    var lexical := Ranked(row.bm25);
    if lexical.Failure? {
      return Failure(lexical.error);
    }
    var fused := Fuse(dense.value, lexical.value, k, None);
    if fused.Failure? {
      return Failure(fused.error);
    }
    var reranked := RerankedOf(row.rerank);
    if reranked.Failure? {
      return Failure(reranked.error);
    }
    r := Success(ByMode(Ids(dense.value), Ids(lexical.value), FusedIds(fused.value), reranked.value));
  }

  /** The sums with one more query under the given ranking. */
  function AddOne(t: Totals, row: Row, ranking: seq<string>, limit: nat): Totals
    requires row.QueryRow? && row.relevant.Some? && row.relevant.value != []
  {
    var q := Query(row.id, row.relevant.value, row.expectAbstain, ranking);
    Totals(t.recall + Recall(q, limit), t.reciprocal + Reciprocal(q, limit), t.queries + 1)
  }

  lemma ListsMode(mode: Mode)
    ensures mode in MODES
  {
    var n := match mode case Dense => 0 case Bm25 => 1 case Rrf => 2 case Rerank => 3;
    assert MODES[n] == mode;
  }

  /** The inner loop over the modes of one query. */
  method AddQuery(before: Aggregates, row: Row, rankings: ByMode<seq<string>>, limit: nat) returns (after: Aggregates)
    requires row.QueryRow? && row.relevant.Some? && row.relevant.value != []
    ensures forall mode :: after.Get(mode) == AddOne(before.Get(mode), row, rankings.Get(mode), limit)
  {
    hide AddOne;
    after := before;
    for m := 0 to |MODES|
      invariant forall mode ::
        after.Get(mode) == if mode in MODES[..m] then AddOne(before.Get(mode), row, rankings.Get(mode), limit)
                           else before.Get(mode)
    {
      var mode := MODES[m];
      assert MODES[..m + 1] == MODES[..m] + [mode] && mode !in MODES[..m];
      after := after.With(mode, AddOne(after.Get(mode), row, rankings.Get(mode), limit));
    }
    assert MODES[..|MODES|] == MODES;
    forall mode ensures mode in MODES {
      ListsMode(mode);
    }
  }

  function MetricsFrom(t: Totals): Metrics {
    Metrics(if t.queries > 0 then t.recall / t.queries as real else 0.0,
            if t.queries > 0 then t.reciprocal / t.queries as real else 0.0, t.queries)
  }

  lemma NoTotals(aggregates: Aggregates, k: int, limit: nat)
    requires forall mode :: aggregates.Get(mode) == Totals(0.0, 0.0, 0)
    ensures SumsOf(aggregates, [], k, limit)
  {
    NoQueries();
    NoRows();
  }

  /** A row that is passed over changes no sum. */
  lemma {:induction false} SumsSkip(aggregates: Aggregates, rows: seq<Row>, row: Row, k: int, limit: nat)
    requires SumsOf(aggregates, rows, k, limit) && (row.ChunkRow? || Unanswerable(row))
    ensures SumsOf(aggregates, rows + [row], k, limit)
  {
    hide QueriesOf, TotalsOf, RankingsOf;
    forall mode ensures aggregates.Get(mode) == TotalsOf(QueriesOf(rows + [row], mode, k), limit) {
      QueriesAppend(rows, row, mode, k);
      if row.QueryRow? {
        TotalsAppend(QueriesOf(rows, mode, k), QueryOf(row, mode, k), limit);
      } else {
        assert QueriesOf(rows, mode, k) + [] == QueriesOf(rows, mode, k);
      }
    }
  }

  lemma {:induction false} SumsAdd(before: Aggregates, after: Aggregates, rows: seq<Row>, row: Row, k: int, limit: nat)
    requires SumsOf(before, rows, k, limit) && row.QueryRow? && row.relevant.Some? && row.relevant.value != []
    requires RankingsOf(row, k).Success?
    requires forall mode ::
      after.Get(mode) == AddOne(before.Get(mode), row, RankingsOf(row, k).value.Get(mode), limit)
    ensures SumsOf(after, rows + [row], k, limit)
  {
    hide QueriesOf, TotalsOf, RankingsOf, Recall, Reciprocal;
    forall mode ensures after.Get(mode) == TotalsOf(QueriesOf(rows + [row], mode, k), limit) {
      QueriesAppend(rows, row, mode, k);
      TotalsAppend(QueriesOf(rows, mode, k), QueryOf(row, mode, k), limit);
    }
  }

  lemma {:induction false} MetricsFromSums(aggregates: Aggregates, rows: seq<Row>, k: int, limit: nat)
    requires SumsOf(aggregates, rows, k, limit)
    ensures forall mode :: MetricsFrom(aggregates.Get(mode)) == MetricsOf(QueriesOf(rows, mode, k), limit)
  {
    hide QueriesOf, Sum, Answerable;
  }

  /** The first row that is refused stops the ablation; without one it reports, for each mode, the
      metrics of the queries under that ranking. */
  method EvaluateAblation(rows: seq<Row>, limit: int, k: int) returns (r: Result<ByMode<Metrics>, AblationError>)
    ensures limit <= 0 ==> r == Failure(LimitNotPositive)
    ensures r.Success? <==> limit > 0 && forall row :: row in rows ==> RowFault(row, k).None?
    ensures r.Failure? && limit > 0 ==>
      exists n :: 0 <= n < |rows| && RowFault(rows[n], k) == Some(r.error)
                  && forall m :: 0 <= m < n ==> RowFault(rows[m], k).None?
    ensures r.Success? ==> forall mode :: r.value.Get(mode) == MetricsOf(QueriesOf(rows, mode, k), limit)
  {
    hide Sum, Answerable, QueriesOf, RankingsOf, Recall, Reciprocal, TotalsOf, QueryOf;
    if limit <= 0 {
      return Failure(LimitNotPositive);
    }
    var zero := Totals(0.0, 0.0, 0);
    var aggregates: Aggregates := ByMode(zero, zero, zero, zero);
    NoTotals(aggregates, k, limit);
    for n := 0 to |rows|
      invariant forall m :: 0 <= m < n ==> RowFault(rows[m], k).None?
      invariant SumsOf(aggregates, rows[..n], k, limit)
    {
      var row := rows[n];
      assert rows[..n + 1] == rows[..n] + [row] && row in rows;
      if row.ChunkRow? {
        SumsSkip(aggregates, rows[..n], row, k, limit);
        continue;
      }
      if row.relevant == Some([]) && row.expectAbstain {
        SumsSkip(aggregates, rows[..n], row, k, limit);
        continue;
      }
      if row.relevant.None? || row.relevant.value == [] {
        assert RowFault(row, k) == Some(RelevantRequired);
        return Failure(RelevantRequired);
      }
      var rankings := RankRow(row, k);
      if rankings.Failure? {
        assert RowFault(row, k) == Some(Unrankable(rankings.error));
        return Failure(Unrankable(rankings.error));
      }
      var added := AddQuery(aggregates, row, rankings.value, limit);
      SumsAdd(aggregates, added, rows[..n], row, k, limit);
      aggregates := added;
    }
    assert rows[..|rows|] == rows;
    r := Success(ByMode(MetricsFrom(aggregates.dense), MetricsFrom(aggregates.bm25), MetricsFrom(aggregates.rrf),
                        MetricsFrom(aggregates.rerank)));
    MetricsFromSums(aggregates, rows, k, limit);
  }

  // ---------- The two agree ----------

  lemma {:induction false} SumRemove(queries: seq<Query>, k: nat, value: Query -> real)
    requires k < |queries|
    ensures var rest := queries[..k] + queries[k + 1..];
      && Sum(queries, value) == Sum(rest, value) + (if queries[k].relevant != [] then value(queries[k]) else 0.0)
      && |Answerable(queries)| == |Answerable(rest)| + (if queries[k].relevant != [] then 1 else 0)
    decreases k
  {
    var rest := queries[..k] + queries[k + 1..];
    if k == 0 {
      assert rest == queries[1..];
    } else {
      SumRemove(queries[1..], k - 1, value);
      assert rest[1..] == queries[1..][..k - 1] + queries[1..][k..];
      assert rest[0] == queries[0];
    }
  }

  lemma Position(a: seq<Query>, b: seq<Query>) returns (k: nat)
    requires a != [] && multiset(a) == multiset(b)
    ensures k < |b| && b[k] == a[0] && multiset(a[1..]) == multiset(b[..k] + b[k + 1..])
  {
    assert a[0] in multiset(b);
    k :| 0 <= k < |b| && b[k] == a[0];
    RemoveHead(a);
    RemoveFromMultiset(b, k);
  }

  lemma {:induction false} SumPermuted(a: seq<Query>, b: seq<Query>, value: Query -> real)
    requires multiset(a) == multiset(b)
    ensures Sum(a, value) == Sum(b, value) && |Answerable(a)| == |Answerable(b)|
    decreases |a|
  {
    if b != [] {
      assert b[0] in multiset(b);
    }
    if a == [] {
    } else {
      var k := Position(a, b);
      var rest := b[..k] + b[k + 1..];
      SumPermuted(a[1..], rest, value);
      SumRemove(b, k, value);
    }
  }

  /** Metrics do not depend on the order of the queries. */
  lemma MetricsPermuted(a: seq<Query>, b: seq<Query>, limit: nat)
    requires multiset(a) == multiset(b)
    ensures MetricsOf(a, limit) == MetricsOf(b, limit)
  {
    SumPermuted(a, b, RecallOf(limit));
    SumPermuted(a, b, ReciprocalOf(limit));
  }

  /** On the same queries, the report being given the rankings of one mode, in whatever order, the two
      programs report the same numbers whenever the ablation accepts its rows. */
  method ProgramsAgree(order: seq<Query>, rows: seq<Row>, mode: Mode, limit: nat, k: int)
    returns (recallAtK: real, meanReciprocalRank: real, ablation: Result<ByMode<Metrics>, AblationError>)
    requires limit > 0 && multiset(order) == multiset(QueriesOf(rows, mode, k))
    ensures ablation.Success? <==> forall row :: row in rows ==> RowFault(row, k).None?
    ensures ablation.Success? ==>
      && ablation.value.Get(mode).recallAtK == recallAtK
      && ablation.value.Get(mode).meanReciprocalRank == meanReciprocalRank
  {
    hide MetricsOf, QueriesOf, RowFault;
    recallAtK, meanReciprocalRank := ReportMetrics(order, limit);
    ablation := EvaluateAblation(rows, limit, k);
    MetricsPermuted(order, QueriesOf(rows, mode, k), limit);
  }

  // ---------- The values ----------

  lemma SetOfMeaning(s: seq<string>)
    ensures SetOf(s) == set c | c in s
  {
  }

  lemma QuotientValue(a: real, b: real)
    requires b > 0.0
    ensures a / b * b == a
  {
  }

  lemma FoundInTop(q: Query, limit: nat)
    ensures SetOf(q.relevant) * SetOf(Top(q.ranking, limit))
         == set c | c in q.relevant && exists i :: 0 <= i < limit && i < |q.ranking| && q.ranking[i] == c
  {
    var top := Top(q.ranking, limit);
    assert forall i :: 0 <= i < |top| ==> top[i] == q.ranking[i];
    forall c: string ensures c in SetOf(top) <==> exists i :: 0 <= i < limit && i < |q.ranking| && q.ranking[i] == c {
      if c in top {
        var i :| 0 <= i < |top| && top[i] == c;
        assert q.ranking[i] == c;
      }
      if i: int :| 0 <= i < limit && i < |q.ranking| && q.ranking[i] == c {
        assert top[i] == c;
      }
    }
  }

  /** Recall is the share of the relevant chunks that stand among the first `limit` entries. */
  lemma {:induction false} RecallMeaning(q: Query, limit: nat)
    requires q.relevant != []
    ensures var relevant := set c | c in q.relevant;
      var found := set c | c in q.relevant && exists i :: 0 <= i < limit && i < |q.ranking| && q.ranking[i] == c;
      Recall(q, limit) * |relevant| as real == |found| as real && |relevant| > 0
  {
    hide SetOf;
    SetOfMeaning(q.relevant);
    assert q.relevant[0] in SetOf(q.relevant);
    FoundInTop(q, limit);
    QuotientValue(|SetOf(q.relevant) * SetOf(Top(q.ranking, limit))| as real, |SetOf(q.relevant)| as real);
  }

  /** A positive rank points at the first relevant entry. */
  lemma {:induction false} FirstRankMeaning(relevant: seq<string>, top: seq<string>)
    ensures var rank := FirstRank(relevant, top);
      && rank <= |top|
      && (rank > 0 ==> top[rank - 1] in relevant)
      && forall k :: 0 <= k < (if rank == 0 then |top| else rank - 1) ==> top[k] !in relevant
    decreases |top|
  {
    if top == [] || top[0] in relevant {
    } else {
      FirstRankMeaning(relevant, top[1..]);
      var rest := top[1..];
      assert forall k :: 1 <= k < |top| ==> top[k] == rest[k - 1];
    }
  }

  /** The reciprocal rank is one over the rank, from one, of the first relevant entry within the
      limit, and zero without one. */
  lemma {:induction false} ReciprocalMeaning(q: Query, limit: nat)
    ensures forall i: nat :: i < limit && i < |q.ranking| && q.ranking[i] in q.relevant
                             && (forall j :: 0 <= j < i ==> q.ranking[j] !in q.relevant) ==>
      Reciprocal(q, limit) == 1.0 / (i + 1) as real
    ensures (forall i :: 0 <= i < limit && i < |q.ranking| ==> q.ranking[i] !in q.relevant) ==>
      Reciprocal(q, limit) == 0.0
  {
    hide FirstRank;
    var top := Top(q.ranking, limit);
    assert forall i :: 0 <= i < |top| ==> top[i] == q.ranking[i];
    FirstRankMeaning(q.relevant, top);
    var rank := FirstRank(q.relevant, top);
    if rank > 0 {
      assert top[rank - 1] in q.relevant;
    }
  }

  /** One query alone gives its own values, or nothing when there is nothing to find. */
  lemma {:induction false} MetricsOfOne(q: Query, limit: nat)
    ensures MetricsOf([q], limit)
         == if q.relevant == [] then Metrics(0.0, 0.0, 0) else Metrics(Recall(q, limit), Reciprocal(q, limit), 1)
  {
    hide Recall, Reciprocal, Sum, Answerable;
    NoQueries();
    assert [] + [q] == [q];
    SumAppend([], q, RecallOf(limit));
    SumAppend([], q, ReciprocalOf(limit));
  }

  lemma {:induction false} SumConcat(a: seq<Query>, b: seq<Query>, value: Query -> real)
    ensures Sum(a + b, value) == Sum(a, value) + Sum(b, value)
    ensures |Answerable(a + b)| == |Answerable(a)| + |Answerable(b)|
    decreases |a|
  {
    if a == [] {
      assert a + b == b;
    } else {
      assert (a + b)[1..] == a[1..] + b;
      SumConcat(a[1..], b, value);
    }
  }

  lemma {:induction false} NothingToSum(queries: seq<Query>, value: Query -> real)
    requires |Answerable(queries)| == 0
    ensures Sum(queries, value) == 0.0
    decreases |queries|
  {
    if queries == [] {
    } else {
      NothingToSum(queries[1..], value);
    }
  }

  lemma MeanTimesCount(queries: seq<Query>, value: Query -> real)
    ensures MeanOver(queries, value) * |Answerable(queries)| as real == Sum(queries, value)
  {
    if |Answerable(queries)| == 0 {
      NothingToSum(queries, value);
    }
  }

  /** Over more queries both numbers are the means weighted by the evaluated queries; together with
      single queries this determines them. */
  lemma {:induction false} MetricsConcat(a: seq<Query>, b: seq<Query>, limit: nat)
    ensures var x, y, z := MetricsOf(a, limit), MetricsOf(b, limit), MetricsOf(a + b, limit);
      && z.evaluatedQueries == x.evaluatedQueries + y.evaluatedQueries
      && z.recallAtK * z.evaluatedQueries as real
         == x.recallAtK * x.evaluatedQueries as real + y.recallAtK * y.evaluatedQueries as real
      && z.meanReciprocalRank * z.evaluatedQueries as real
         == x.meanReciprocalRank * x.evaluatedQueries as real + y.meanReciprocalRank * y.evaluatedQueries as real
  {
    hide MeanOver, Sum, Answerable;
    forall value: Query -> real
      ensures MeanOver(a + b, value) * |Answerable(a + b)| as real
           == MeanOver(a, value) * |Answerable(a)| as real + MeanOver(b, value) * |Answerable(b)| as real
    {
      SumConcat(a, b, value);
      MeanTimesCount(a, value);
      MeanTimesCount(b, value);
      MeanTimesCount(a + b, value);
    }
    SumConcat(a, b, RecallOf(limit));
  }

  /** The four rankings of a row, read off its routes. */
  lemma {:induction false} RankingsMeaning(row: Row, k: int)
    requires row.QueryRow? && RankingsOf(row, k).Success?
    ensures RankedOf(row.dense).Success? && RankedOf(row.bm25).Success? && k > 0
    ensures var rankings := RankingsOf(row, k).value;
      var dense, lexical := RankedOf(row.dense).value, RankedOf(row.bm25).value;
      var fused := Fusion(dense, lexical, k);
      && |rankings.Get(Dense)| == |dense|
      && (forall i :: 0 <= i < |dense| ==> rankings.Get(Dense)[i] == dense[i].chunkId)
      && |rankings.Get(Bm25)| == |lexical|
      && (forall i :: 0 <= i < |lexical| ==> rankings.Get(Bm25)[i] == lexical[i].chunkId)
      && |rankings.Get(Rrf)| == |fused|
      && (forall i :: 0 <= i < |fused| ==> rankings.Get(Rrf)[i] == fused[i].chunkId)
      && RerankedOf(row.rerank) == Success(rankings.Get(Rerank))
  {
    hide Fusion, RankedOf, RerankedOf;
  }

  // ---------- What the numbers mean ----------

  /** Cutting the ranking keeps the first rank when it is within the limit and loses it otherwise. */
  lemma {:induction false} FirstRankCut(relevant: seq<string>, ranking: seq<string>, limit: nat)
    ensures var rank := FirstRank(relevant, ranking);
      FirstRank(relevant, Top(ranking, limit)) == if rank <= limit then rank else 0
    decreases |ranking|
  {
    if ranking == [] || limit == 0 {
    } else {
      FirstRankCut(relevant, ranking[1..], limit - 1);
      assert Top(ranking, limit)[1..] == Top(ranking[1..], limit - 1);
    }
  }

  lemma QuotientOrder(a: real, b: real, d: real)
    requires 0.0 <= a <= b <= d && d > 0.0
    ensures 0.0 <= a / d <= b / d <= 1.0
  {
    var x, y := a / d, b / d;
    assert x * d == a && y * d == b;
    assert x > y ==> (x - y) * d > 0.0;
    assert y > 1.0 ==> (y - 1.0) * d > 0.0;
    assert x < 0.0 ==> x * d < 0.0;
  }

  /** Neither value of a query falls as the limit grows, and both stay in [0, 1]. */
  lemma {:induction false} QueryMonotone(q: Query, limit: nat, larger: nat)
    requires limit <= larger
    ensures 0.0 <= RecallOf(limit)(q) <= RecallOf(larger)(q) <= 1.0
    ensures 0.0 <= ReciprocalOf(limit)(q) <= ReciprocalOf(larger)(q) <= 1.0
  {
    FirstRankCut(q.relevant, q.ranking, limit);
    FirstRankCut(q.relevant, q.ranking, larger);
    if q.relevant != [] {
      var relevant := SetOf(q.relevant);
      assert q.relevant[0] in relevant;
      var few, many := SetOf(Top(q.ranking, limit)), SetOf(Top(q.ranking, larger));
      assert few <= many;
      SubsetSize(relevant * few, relevant * many);
      SubsetSize(relevant * many, relevant);
      QuotientOrder(|relevant * few| as real, |relevant * many| as real, |relevant| as real);
    }
  }

  lemma {:induction false} SumMonotone(queries: seq<Query>, first: Query -> real, second: Query -> real)
    requires forall q :: 0.0 <= first(q) <= second(q) <= 1.0
    ensures 0.0 <= Sum(queries, first) <= Sum(queries, second) <= |Answerable(queries)| as real
    decreases |queries|
  {
    if queries == [] {
    } else {
      SumMonotone(queries[1..], first, second);
    }
  }

  lemma MeanMonotone(queries: seq<Query>, first: Query -> real, second: Query -> real)
    requires forall q :: 0.0 <= first(q) <= second(q) <= 1.0
    ensures 0.0 <= MeanOver(queries, first) <= MeanOver(queries, second) <= 1.0
  {
    hide Sum, Answerable;
    SumMonotone(queries, first, second);
    var n := |Answerable(queries)|;
    if n > 0 {
      QuotientOrder(Sum(queries, first), Sum(queries, second), n as real);
    }
  }

  /** Both reported numbers lie in [0, 1] and never fall as the limit grows. */
  lemma MetricsMonotone(queries: seq<Query>, limit: nat, larger: nat)
    requires limit <= larger
    ensures var few, many := MetricsOf(queries, limit), MetricsOf(queries, larger);
      && 0.0 <= few.recallAtK <= many.recallAtK <= 1.0
      && 0.0 <= few.meanReciprocalRank <= many.meanReciprocalRank <= 1.0
      && few.evaluatedQueries == many.evaluatedQueries
  {
    forall q ensures 0.0 <= RecallOf(limit)(q) <= RecallOf(larger)(q) <= 1.0
             ensures 0.0 <= ReciprocalOf(limit)(q) <= ReciprocalOf(larger)(q) <= 1.0 {
      QueryMonotone(q, limit, larger);
    }
    MeanMonotone(queries, RecallOf(limit), RecallOf(larger));
    MeanMonotone(queries, ReciprocalOf(limit), ReciprocalOf(larger));
  }
}
