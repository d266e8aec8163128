/** One seed through both metric programs: the report reads it with the loader of
    evals/rag/report.py, the ablation takes its records as rows (evals/rag/ablation.py). */
module SeedMetrics {

  import opened Sequences
  import opened Wrappers

  import RagMetrics
  import Rankings
  import SeedFormat
  import Sorting

  type Json = SeedFormat.Json
  type Record = SeedFormat.Record

  /** `str`, `int` and `float`; a text is its own `str`. */
  datatype Conversions =
    Conversions(text: Json -> string, whole: Json -> Option<int>, number: Json -> Option<real>)

  // ---------- Records as rows ----------

  function AsText(conv: Conversions, j: Json): string {
    if j.Text? then j.s else conv.text(j)
  }

  function FieldOf<T>(record: Record, key: string, convert: Json -> Option<T>): Rankings.Field<T> {
    if key !in record then Rankings.Missing
    else match convert(record[key])
      case None => Rankings.Unusable
      case Some(value) => Rankings.Given(value)
  }

  function ItemOf(conv: Conversions, j: Json): Rankings.RawItem {
    if !j.Object? then Rankings.NotAnObject
    else
      var chunkId := if "chunk_id" in j.fields then Some(AsText(conv, j.fields["chunk_id"])) else None;
      Rankings.Item(chunkId, FieldOf(j.fields, "rank", conv.whole), FieldOf(j.fields, "score", conv.number))
  }

  function RouteOf(conv: Conversions, record: Record, key: string): Rankings.Route {
    if key !in record then Rankings.Items([])
    else if !record[key].List? then Rankings.NotAList
    else
      var items := record[key].items;
      Rankings.Items(seq(|items|, i requires 0 <= i < |items| => ItemOf(conv, items[i])))
  }

  function RelevantOf(conv: Conversions, record: Record): Option<seq<string>> {
    var relevant := SeedFormat.Get(record, "relevant_chunk_ids");
    if !relevant.List? then None
    else Some(seq(|relevant.items|, i requires 0 <= i < |relevant.items| => AsText(conv, relevant.items[i])))
  }

  function IdOf(record: Record): string {
    if SeedFormat.Get(record, "id").Text? then SeedFormat.Get(record, "id").s else ""
  }

  function RowOf(conv: Conversions, record: Record): RagMetrics.Row {
    if SeedFormat.IsChunk(record) then RagMetrics.ChunkRow
    else
      RagMetrics.QueryRow(IdOf(record), RelevantOf(conv, record),
                          SeedFormat.Get(record, "expect_abstain") == SeedFormat.Bool(true),
                          RouteOf(conv, record, "dense"), RouteOf(conv, record, "bm25"),
                          RouteOf(conv, record, "rerank"))
  }

  function RowsOf(conv: Conversions, records: seq<Record>): seq<RagMetrics.Row> {
    seq(|records|, i requires 0 <= i < |records| => RowOf(conv, records[i]))
  }

  /** A route that the record does not have ranks nothing; one that is not a list is refused. */
  lemma RouteFields(conv: Conversions, record: Record, key: string)
    ensures key !in record ==> Rankings.RankedOf(RouteOf(conv, record, key)) == Success([])
    ensures key in record && !record[key].List? ==>
      Rankings.RankedOf(RouteOf(conv, record, key)) == Failure(Rankings.RouteNotList)
  {
  }

  /** A query without a list of relevant chunks is refused, even if it is marked as unanswerable. */
  lemma RelevantField(conv: Conversions, record: Record, k: int)
    requires !SeedFormat.IsChunk(record)
    requires "relevant_chunk_ids" !in record || !record["relevant_chunk_ids"].List?
    ensures RagMetrics.RowFault(RowOf(conv, record), k) == Some(RagMetrics.RelevantRequired)
  {
  }

  /** A candidate with an identifier and a score. */
  function Candidate(id: string, score: real): Json {
    SeedFormat.Object(map["chunk_id" := SeedFormat.Text(id), "score" := SeedFormat.Number(score)])
  }

  lemma SortOne<T>(x: T, le: (T, T) -> bool)
    ensures Sorting.Sort([x], le) == [x]
  {
    assert [x][1..] == [];
  }

  lemma {:induction false} SingleRanking(conv: Conversions, id: string, score: real)
    requires id != "" && conv.number(SeedFormat.Number(score)) == Some(score)
    ensures var route := Rankings.Items([ItemOf(conv, Candidate(id, score))]);
      && Rankings.RankedOf(route) == Success([Rankings.CandidateData(id, 1, score)])
      && Rankings.RerankedOf(route) == Success([id])
  {
    var items := [ItemOf(conv, Candidate(id, score))];
    assert items[0] == Rankings.Item(Some(id), Rankings.Missing, Rankings.Given(score));
    var one: Rankings.Candidate := Rankings.CandidateData(id, 1, score);
    var none: seq<Rankings.Candidate> := [];
    assert Init(items) == [] && Rankings.CandidatesOf([]) == Some(none) && none + [one] == [one];
    assert Rankings.ItemCandidate(items[0], 1) == Some(one);
    assert Rankings.CandidatesOf(items) == Some([one]);
    SortOne(one, Rankings.ByRank);
    SortOne(one, Rankings.ByScore);
    assert Rankings.Ids([one]) == [id];
  }

  /** The routes are read under their names: with one candidate each, every ranking is its own. */
  lemma {:induction false} RoutesByName(conv: Conversions, record: Record, a: string, b: string, c: string,
                                        x: real, y: real, z: real, k: int)
    requires !SeedFormat.IsChunk(record) && k > 0 && a != "" && b != "" && c != ""
    requires "dense" in record && record["dense"] == SeedFormat.List([Candidate(a, x)])
    requires "bm25" in record && record["bm25"] == SeedFormat.List([Candidate(b, y)])
    requires "rerank" in record && record["rerank"] == SeedFormat.List([Candidate(c, z)])
    requires forall s :: conv.number(SeedFormat.Number(s)) == Some(s)
    ensures var rankings := RagMetrics.RankingsOf(RowOf(conv, record), k);
      && rankings.Success?
      && rankings.value.Get(RagMetrics.Dense) == [a]
      && rankings.value.Get(RagMetrics.Bm25) == [b]
      && rankings.value.Get(RagMetrics.Rerank) == [c]
  {
    hide Rankings.RankedOf, Rankings.RerankedOf, Rankings.Fusion;
    SingleRanking(conv, a, x);
    SingleRanking(conv, b, y);
    SingleRanking(conv, c, z);
    assert RouteOf(conv, record, "dense") == Rankings.Items([ItemOf(conv, Candidate(a, x))]);
    assert RouteOf(conv, record, "bm25") == Rankings.Items([ItemOf(conv, Candidate(b, y))]);
    assert RouteOf(conv, record, "rerank") == Rankings.Items([ItemOf(conv, Candidate(c, z))]);
  }

  // ---------- Observations of the report ----------

  /** The query of the report: its seed record and the chunks its observation retrieved. */
  function ReportQuery(queries: map<string, SeedFormat.SeedQuery>, observed: map<string, seq<string>>, id: string)
    : RagMetrics.Query
    requires id in queries && id in observed
  {
    RagMetrics.Query(id, queries[id].relevantChunkIds, queries[id].expectAbstain, observed[id])
  }

  /** The queries in the order of their identifiers. */
  function ReportOrder(ids: seq<string>, queries: map<string, SeedFormat.SeedQuery>, observed: map<string, seq<string>>)
    : seq<RagMetrics.Query>
    requires forall id :: id in ids ==> id in queries && id in observed
  {
    seq(|ids|, i requires 0 <= i < |ids| => ReportQuery(queries, observed, ids[i]))
  }

  /** Every query record was observed with the ranking that the ablation computes under `mode`. */
  ghost predicate Retrieved(conv: Conversions, records: seq<Record>, mode: RagMetrics.Mode, k: int,
                            observed: map<string, seq<string>>)
  {
    forall i :: 0 <= i < |records| && SeedFormat.IsQuery(records[i]) ==>
      IdOf(records[i]) in observed
      && observed[IdOf(records[i])] == RagMetrics.QueryOf(RowOf(conv, records[i]), mode, k).ranking
  }

  /** Chunks and queries under distinct identifiers. */
  ghost predicate WellTyped(records: seq<Record>) {
    && (forall i :: 0 <= i < |records| ==> SeedFormat.IsChunk(records[i]) || SeedFormat.IsQuery(records[i]))
    && forall i, j :: 0 <= i < j < |records| ==> SeedFormat.Get(records[i], "id") != SeedFormat.Get(records[j], "id")
  }

  // ---------- The same queries on both sides ----------

  lemma {:induction false} QueriesMember(rows: seq<RagMetrics.Row>, mode: RagMetrics.Mode, k: int, q: RagMetrics.Query)
    ensures q in RagMetrics.QueriesOf(rows, mode, k)
       <==> exists i :: 0 <= i < |rows| && rows[i].QueryRow? && q == RagMetrics.QueryOf(rows[i], mode, k)
    decreases |rows|
  {
    hide RagMetrics.QueryOf;
    if rows == [] {
    } else {
      var rest := rows[1..];
      QueriesMember(rest, mode, k, q);
      assert forall i :: 0 <= i < |rest| ==> rest[i] == rows[i + 1];
      if i: int :| 0 <= i < |rows| && rows[i].QueryRow? && q == RagMetrics.QueryOf(rows[i], mode, k) && i > 0 {
        assert rest[i - 1] == rows[i];
      }
    }
  }

  lemma {:induction false} QueriesDistinct(rows: seq<RagMetrics.Row>, mode: RagMetrics.Mode, k: int)
    requires forall i, j :: 0 <= i < j < |rows| && rows[i].QueryRow? && rows[j].QueryRow? ==> rows[i].id != rows[j].id
    ensures Distinct(RagMetrics.QueriesOf(rows, mode, k))
    decreases |rows|
  {
    if rows == [] {
    } else {
      QueriesDistinct(rows[1..], mode, k);
      if rows[0].QueryRow? {
        var first := RagMetrics.QueryOf(rows[0], mode, k);
        QueriesMember(rows[1..], mode, k, first);
        assert first.id == rows[0].id;
      }
    }
  }

  /** A loadable query record is the same query for both programs. */
  lemma RecordQuery(conv: Conversions, record: Record, chunks: set<string>, mode: RagMetrics.Mode, k: int)
    requires SeedFormat.IsQuery(record) && SeedFormat.LoadableQuery(record, chunks)
    ensures var row, query := RowOf(conv, record), SeedFormat.QueryOf(record, chunks);
      && row.QueryRow? && row.id == IdOf(record)
      && RagMetrics.QueryOf(row, mode, k).id == IdOf(record)
      && RagMetrics.QueryOf(row, mode, k).relevant == query.relevantChunkIds
      && RagMetrics.QueryOf(row, mode, k).expectAbstain == query.expectAbstain
  {
    hide RagMetrics.RankingsOf, RouteOf;
    var relevant := SeedFormat.Get(record, "relevant_chunk_ids");
    assert forall i :: 0 <= i < |relevant.items| ==> AsText(conv, relevant.items[i]) == relevant.items[i].s;
    assert RelevantOf(conv, record).value == SeedFormat.Texts(relevant.items);
  }

  /** What the two programs are given: a loadable seed, observations of its queries, and these in the
      order of their identifiers. */
  ghost predicate SameSeed(conv: Conversions, records: seq<Record>, chunks: set<string>, ids: seq<string>,
                           observed: map<string, seq<string>>, mode: RagMetrics.Mode, k: int)
  {
    var queries := SeedFormat.QueriesOf(records, chunks);
    && WellTyped(records)
    && (forall i :: 0 <= i < |records| && SeedFormat.IsQuery(records[i]) ==>
          SeedFormat.LoadableQuery(records[i], chunks))
    && Retrieved(conv, records, mode, k, observed)
    && Distinct(ids)
    && (forall id :: id in ids <==> id in queries)
    && forall id :: id in ids ==> id in observed
  }

  lemma {:induction false} RecordMatches(conv: Conversions, records: seq<Record>, chunks: set<string>, ids: seq<string>,
                                         observed: map<string, seq<string>>, mode: RagMetrics.Mode, k: int, i: nat)
    requires SameSeed(conv, records, chunks, ids, observed, mode, k)
    requires i < |records| && SeedFormat.IsQuery(records[i])
    ensures var queries := SeedFormat.QueriesOf(records, chunks);
      && IdOf(records[i]) in queries
      && IdOf(records[i]) in observed
      && SeedFormat.Get(records[i], "id") == SeedFormat.Text(IdOf(records[i]))
      && RowOf(conv, records[i]).QueryRow?
      && ReportQuery(queries, observed, IdOf(records[i])) == RagMetrics.QueryOf(RowOf(conv, records[i]), mode, k)
  {
    hide SeedFormat.QueriesOf, SeedFormat.QueryOf, RagMetrics.QueryOf, RowOf, SeedFormat.IsQuery, SeedFormat.Get;
    SeedFormat.QueriesExact(records, chunks);
    assert SeedFormat.HasQuery(records[i], chunks, SeedFormat.QueriesOf(records, chunks));
    RecordQuery(conv, records[i], chunks, mode, k);
  }

  /** The record behind an entry of the loader's dictionary. */
  lemma {:induction false} RecordOf(records: seq<Record>, chunks: set<string>, id: string) returns (i: nat)
    requires WellTyped(records)
    requires forall i :: 0 <= i < |records| && SeedFormat.IsQuery(records[i]) ==>
      SeedFormat.LoadableQuery(records[i], chunks)
    requires id in SeedFormat.QueriesOf(records, chunks)
    ensures i < |records| && SeedFormat.IsQuery(records[i]) && IdOf(records[i]) == id
  {
    hide SeedFormat.QueriesOf, SeedFormat.IsQuery, SeedFormat.LoadableQuery, SeedFormat.Get;
    SeedFormat.QueriesExact(records, chunks);
    i :| 0 <= i < |records| && SeedFormat.IsQuery(records[i])
      && SeedFormat.Get(records[i], "id") == SeedFormat.Text(id);
  }

  lemma {:induction false} QueryOnBothSides(conv: Conversions, records: seq<Record>, chunks: set<string>,
                                            ids: seq<string>, observed: map<string, seq<string>>,
                                            mode: RagMetrics.Mode, k: int, q: RagMetrics.Query)
    requires SameSeed(conv, records, chunks, ids, observed, mode, k)
    ensures q in ReportOrder(ids, SeedFormat.QueriesOf(records, chunks), observed)
       <==> q in RagMetrics.QueriesOf(RowsOf(conv, records), mode, k)
  {
    hide SeedFormat.QueriesOf, RagMetrics.QueriesOf, RagMetrics.QueryOf, ReportQuery, IdOf;
    var queries, rows := SeedFormat.QueriesOf(records, chunks), RowsOf(conv, records);
    var order := ReportOrder(ids, queries, observed);
    QueriesMember(rows, mode, k, q);
    if q in order {
      var n :| 0 <= n < |ids| && q == ReportQuery(queries, observed, ids[n]);
      var i := RecordOf(records, chunks, ids[n]);
      RecordMatches(conv, records, chunks, ids, observed, mode, k, i);
      assert rows[i] == RowOf(conv, records[i]);
    }
    if i: int :| 0 <= i < |rows| && rows[i].QueryRow? && q == RagMetrics.QueryOf(rows[i], mode, k) {
      assert rows[i] == RowOf(conv, records[i]);
      RecordMatches(conv, records, chunks, ids, observed, mode, k, i);
      var id := IdOf(records[i]);
      assert id in ids;
      var n :| 0 <= n < |ids| && ids[n] == id;
      assert order[n] == ReportQuery(queries, observed, id);
    }
  }

  lemma {:induction false} RowsDistinct(conv: Conversions, records: seq<Record>, chunks: set<string>,
                                        mode: RagMetrics.Mode, k: int)
    requires WellTyped(records)
    requires forall i :: 0 <= i < |records| && SeedFormat.IsQuery(records[i]) ==>
      SeedFormat.LoadableQuery(records[i], chunks)
    ensures Distinct(RagMetrics.QueriesOf(RowsOf(conv, records), mode, k))
  {
    hide RagMetrics.QueriesOf, SeedFormat.IsQuery, RelevantOf, RouteOf;
    var rows := RowsOf(conv, records);
    forall i, j | 0 <= i < j < |rows| && rows[i].QueryRow? && rows[j].QueryRow? ensures rows[i].id != rows[j].id {
      assert SeedFormat.LoadableQuery(records[i], chunks) && SeedFormat.LoadableQuery(records[j], chunks);
    }
    QueriesDistinct(rows, mode, k);
  }

  /** The queries of the report and those of the ablation are the same, up to their order. */
  lemma {:induction false} SameQueries(conv: Conversions, records: seq<Record>, chunks: set<string>, ids: seq<string>,
                                       observed: map<string, seq<string>>, mode: RagMetrics.Mode, k: int)
    requires SameSeed(conv, records, chunks, ids, observed, mode, k)
    ensures multiset(ReportOrder(ids, SeedFormat.QueriesOf(records, chunks), observed))
         == multiset(RagMetrics.QueriesOf(RowsOf(conv, records), mode, k))
  {
    hide SeedFormat.QueriesOf, RagMetrics.QueriesOf, RagMetrics.QueryOf;
    var order := ReportOrder(ids, SeedFormat.QueriesOf(records, chunks), observed);
    assert forall i :: 0 <= i < |order| ==> order[i].id == ids[i];
    assert Distinct(order);
    RowsDistinct(conv, records, chunks, mode, k);
    forall q ensures q in order <==> q in RagMetrics.QueriesOf(RowsOf(conv, records), mode, k) {
      QueryOnBothSides(conv, records, chunks, ids, observed, mode, k, q);
    }
    SameElements(order, RagMetrics.QueriesOf(RowsOf(conv, records), mode, k));
  }

  /** The report and the ablation of one seed: whenever the ablation accepts its rows, both give the
      same numbers for the ranking that was observed. */
  method SeedProgramsAgree(conv: Conversions, lines: seq<SeedFormat.Line>, ids: seq<string>,
                           observed: map<string, seq<string>>, mode: RagMetrics.Mode, limit: nat, k: int)
    returns (recallAtK: real, meanReciprocalRank: real,
             ablation: Result<RagMetrics.ByMode<RagMetrics.Metrics>, RagMetrics.AblationError>)
    requires limit > 0 && SeedFormat.Loadable(lines)
    requires var records := SeedFormat.RecordsOf(lines);
      SameSeed(conv, records, SeedFormat.LoadedChunks(records), ids, observed, mode, k)
    ensures ablation.Success? <==>
      forall row :: row in RowsOf(conv, SeedFormat.RecordsOf(lines)) ==> RagMetrics.RowFault(row, k).None?
    ensures ablation.Success? ==>
      && ablation.value.Get(mode).recallAtK == recallAtK
      && ablation.value.Get(mode).meanReciprocalRank == meanReciprocalRank
  {
    hide SeedFormat.Loadable, SeedFormat.QueriesOf, SeedFormat.LoadedChunks, SeedFormat.RecordsOf, RowsOf,
      RagMetrics.QueriesOf, RagMetrics.RowFault;
    var loaded := SeedFormat.LoadSeedQueries(lines);
    ghost var chunks := SeedFormat.LoadedChunks(SeedFormat.RecordsOf(lines));
    SameQueries(conv, SeedFormat.RecordsOf(lines), chunks, ids, observed, mode, k);
    var order := ReportOrder(ids, loaded.value, observed);
    recallAtK, meanReciprocalRank, ablation :=
      RagMetrics.ProgramsAgree(order, RowsOf(conv, SeedFormat.RecordsOf(lines)), mode, limit, k);
  }

  // ---------- What the checker gives the ablation ----------

  /** A seed without findings has chunks and queries under distinct identifiers, all loadable ... */
  lemma {:induction false} CheckedIsWellTyped(ops: SeedFormat.TextOps, lines: seq<SeedFormat.Line>)
    requires SeedFormat.CleanSeed(ops, lines)
    ensures var records := SeedFormat.RecordsOf(lines);
      && WellTyped(records)
      && forall i :: 0 <= i < |records| && SeedFormat.IsQuery(records[i]) ==>
           SeedFormat.LoadableQuery(records[i], SeedFormat.LoadedChunks(records))
  {
    hide SeedFormat.RecordsOf, SeedFormat.ChunkIds, SeedFormat.LoadedChunks, SeedFormat.QueryOk, SeedFormat.ChunkOk,
      SeedFormat.HeadOk, SeedFormat.LoadableQuery, SeedFormat.Digest;
    var records := SeedFormat.RecordsOf(lines);
    SeedFormat.CleanChunks(ops, lines);
    forall i | 0 <= i < |records| && SeedFormat.IsQuery(records[i])
      ensures SeedFormat.LoadableQuery(records[i], SeedFormat.LoadedChunks(records))
    {
      SeedFormat.CleanQueryLoads(records[i], SeedFormat.LoadedChunks(records));
    }
  }

  /** ... and the ablation never misses relevant chunks in it: only a ranking can be refused. */
  lemma {:induction false} CheckedIsMarked(conv: Conversions, ops: SeedFormat.TextOps, lines: seq<SeedFormat.Line>,
                                           k: int, i: nat)
    requires SeedFormat.CleanSeed(ops, lines) && i < |SeedFormat.RecordsOf(lines)|
    ensures RagMetrics.RowFault(RowOf(conv, SeedFormat.RecordsOf(lines)[i]), k) != Some(RagMetrics.RelevantRequired)
  {
    hide SeedFormat.RecordsOf, SeedFormat.ChunkIds, SeedFormat.ChunkOk, SeedFormat.HeadOk, SeedFormat.Digest,
      SeedFormat.RouteOk, RagMetrics.RankingsOf, RouteOf;
    var record := SeedFormat.RecordsOf(lines)[i];
    if !SeedFormat.IsChunk(record) {
      var relevant := SeedFormat.Get(record, "relevant_chunk_ids");
      assert SeedFormat.QueryFieldsOk(record);
      assert |RelevantOf(conv, record).value| == |relevant.items|;
    }
  }
}
