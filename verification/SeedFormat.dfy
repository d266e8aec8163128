/** Two independent readers of the public retrieval seed: the checker of
    scripts/check_private_data.py and the loader of evals/rag/report.py.  What the checker passes
    without findings, the loader accepts. */
module SeedFormat {

  import opened Sequences
  import opened Wrappers

  datatype Json =
    | Null
    | Bool(b: bool)
    | Number(n: real)
    | Text(s: string)
    | List(items: seq<Json>)
    | Object(fields: map<string, Json>)

  /** A line of the file: blank, not JSON, or a JSON value. */
  datatype Line = Blank | Malformed | Parsed(json: Json)

  type Record = map<string, Json>

  datatype Finding = SeedInvalid | DuplicateId | AnswerContamination | DuplicateContent | DanglingChunk

  /** `TypeError`, from hashing a list or an object, and `UnicodeEncodeError`, from a text with lone
      surrogates. */
  datatype SeedException = Unhashable | Unencodable

  datatype SeedError = InvalidSeed | InvalidQuery | NoQueries

  datatype SeedQuery = SeedQuery(relevantChunkIds: seq<string>, expectAbstain: bool, split: string)

  /** Case folding against the forbidden names, whitespace tests, and hashing of normalised text, which
      has no result for a text that cannot be encoded. */
  datatype TextOps = TextOps(isForbidden: string -> bool, isBlank: string -> bool, digest: string -> Option<string>)

  // ---------- Fields ----------

  /** `record.get(key)`: a missing field reads as null. */
  function Get(record: Record, key: string): Json {
    if key in record then record[key] else Null
  }

  predicate Hashable(j: Json) {
    !j.List? && !j.Object?
  }

  /** Python takes a boolean for the number it equals. */
  function HashKey(j: Json): Json {
    if j.Bool? then Number(if j.b then 1.0 else 0.0) else j
  }

  predicate IsChunk(record: Record) {
    Get(record, "record_type") == Text("chunk")
  }

  predicate IsQuery(record: Record) {
    Get(record, "record_type") == Text("query")
  }

  predicate AllText(items: seq<Json>) {
    forall i :: 0 <= i < |items| ==> items[i].Text?
  }

  function Texts(items: seq<Json>): seq<string>
    requires AllText(items)
  {
    seq(|items|, i requires 0 <= i < |items| => items[i].s)
  }

  predicate KnownSplit(split: Json) {
    split == Text("train") || split == Text("validation") || split == Text("test")
  }

  predicate ContainsAnswerField(ops: TextOps, record: Record) {
    exists key :: key in record && ops.isForbidden(key)
  }

  /** The records of the lines that hold an object. */
  function RecordsOf(lines: seq<Line>): seq<Record> {
    if lines == [] then []
    else
      var line := Last(lines);
      RecordsOf(Init(lines)) + if line.Parsed? && line.json.Object? then [line.json.fields] else []
  }

  predicate LineOk(line: Line) {
    line.Blank? || (line.Parsed? && line.json.Object?)
  }

  // ---------- What the checker demands ----------

  predicate ChunkOk(ops: TextOps, record: Record) {
    && Get(record, "id").Text?
    && Get(record, "text").Text? && !ops.isBlank(Get(record, "text").s)
    && Get(record, "corpus_role") == Text("corpus")
    && Get(record, "document_id").Text? && Get(record, "revision_id").Text?
  }

  /** The digest of a chunk's normalised text. */
  function Digest(ops: TextOps, record: Record): Option<string> {
    if Get(record, "text").Text? then ops.digest(Get(record, "text").s) else None
  }

  /** A chunk that passes its checks, but whose text cannot be encoded. */
  predicate ChunkRaises(ops: TextOps, record: Record) {
    IsChunk(record) && ChunkOk(ops, record) && Digest(ops, record).None?
  }

  predicate HeadOk(ops: TextOps, record: Record) {
    Get(record, "schema_version") == Text("1.0") && !ContainsAnswerField(ops, record)
  }

  predicate QueryFieldsOk(record: Record) {
    var relevant, abstain := Get(record, "relevant_chunk_ids"), Get(record, "expect_abstain");
    && Get(record, "query").Text?
    && relevant.List? && AllText(relevant.items)
    && abstain.Bool?
    && KnownSplit(Get(record, "split"))
    && (abstain.b <==> relevant.items == [])
  }

  predicate CandidateOk(candidate: Json, chunks: set<string>) {
    && candidate.Object?
    && Get(candidate.fields, "chunk_id").Text? && Get(candidate.fields, "chunk_id").s in chunks
    && (Get(candidate.fields, "score").Number? || Get(candidate.fields, "score").Bool?)
  }

  predicate RouteOk(candidates: Json, chunks: set<string>) {
    candidates.List? && forall i :: 0 <= i < |candidates.items| ==> CandidateOk(candidates.items[i], chunks)
  }

  predicate QueryOk(record: Record, chunks: set<string>) {
    && QueryFieldsOk(record)
    && (forall i :: 0 <= i < |Get(record, "relevant_chunk_ids").items| ==>
          Get(record, "relevant_chunk_ids").items[i].s in chunks)
    && RouteOk(Get(record, "dense"), chunks) && RouteOk(Get(record, "bm25"), chunks)
    && RouteOk(Get(record, "rerank"), chunks)
  }

  /** The identifiers of the chunk records that pass their checks. */
  function ChunkIds(ops: TextOps, records: seq<Record>): set<string> {
    set i | 0 <= i < |records| && IsChunk(records[i]) && ChunkOk(ops, records[i]) :: Get(records[i], "id").s
  }

  predicate IdOk(record: Record) {
    Get(record, "id").Text? && Get(record, "id").s != ""
  }

  /** A seed without findings. */
  ghost predicate CleanSeed(ops: TextOps, lines: seq<Line>) {
    var records := RecordsOf(lines);
    var chunks := ChunkIds(ops, records);
    && (forall i :: 0 <= i < |lines| ==> LineOk(lines[i]))
    && (forall i :: 0 <= i < |records| ==> IdOk(records[i]) && HeadOk(ops, records[i]))
    && (forall i, j :: 0 <= i < j < |records| ==> Get(records[i], "id") != Get(records[j], "id"))
    && (forall i :: 0 <= i < |records| && IsChunk(records[i]) ==>
          ChunkOk(ops, records[i]) && Digest(ops, records[i]).Some?)
    && (forall i, j :: 0 <= i < j < |records| && IsChunk(records[i]) && IsChunk(records[j]) ==>
          Digest(ops, records[i]) != Digest(ops, records[j]))
    && (forall i :: 0 <= i < |records| && !IsChunk(records[i]) ==> IsQuery(records[i]) && QueryOk(records[i], chunks))
    && chunks != {}
  }

  // ---------- What the loader demands ----------

  predicate LoadableLine(line: Line) {
    line.Blank? || (line.Parsed? && line.json.Object? && Get(line.json.fields, "schema_version") == Text("1.0"))
  }

  /** The loader takes every chunk record with a textual identifier. */
  function LoadedChunks(records: seq<Record>): set<string> {
    set i | 0 <= i < |records| && IsChunk(records[i]) && Get(records[i], "id").Text? :: Get(records[i], "id").s
  }

  predicate LoadableQuery(record: Record, chunks: set<string>) {
    var relevant := Get(record, "relevant_chunk_ids");
    && Get(record, "id").Text?
    && relevant.List? && AllText(relevant.items)
    && (forall i :: 0 <= i < |relevant.items| ==> relevant.items[i].s in chunks)
    && Get(record, "expect_abstain").Bool?
    && KnownSplit(Get(record, "split"))
  }

  function QueryOf(record: Record, chunks: set<string>): SeedQuery
    requires LoadableQuery(record, chunks)
  {
    SeedQuery(Texts(Get(record, "relevant_chunk_ids").items), Get(record, "expect_abstain").b, Get(record, "split").s)
  }

  lemma {:induction false} ChunksAppend(records: seq<Record>, record: Record)
    ensures LoadedChunks(records + [record]) == LoadedChunks(records)
      + if IsChunk(record) && Get(record, "id").Text? then {Get(record, "id").s} else {}
  {
    var all := records + [record];
    assert all[|records|] == record;
    assert forall i :: 0 <= i < |records| ==> all[i] == records[i];
  }

  /** The dictionary of the queries: a later record replaces an earlier one of the same identifier. */
  function QueriesOf(records: seq<Record>, chunks: set<string>): map<string, SeedQuery> {
    if records == [] then map[]
    else
      var before, record := QueriesOf(Init(records), chunks), Last(records);
      if IsQuery(record) && LoadableQuery(record, chunks) then
        before[Get(record, "id").s := QueryOf(record, chunks)] else before
  }

  method ReadRecords(lines: seq<Line>) returns (r: Result<(seq<Record>, set<string>), SeedError>)
    ensures r.Success? <==> forall i :: 0 <= i < |lines| ==> LoadableLine(lines[i])
    ensures r.Success? ==> r.value == (RecordsOf(lines), LoadedChunks(RecordsOf(lines)))
  {
    var records: seq<Record>, chunks: set<string> := [], {};
    for n := 0 to |lines|
      invariant forall i :: 0 <= i < n ==> LoadableLine(lines[i])
      invariant records == RecordsOf(lines[..n]) && chunks == LoadedChunks(records)
    {
      assert Init(lines[..n + 1]) == lines[..n];
      if lines[n].Blank? {
        continue;
      }
      if !lines[n].Parsed? || !lines[n].json.Object? || Get(lines[n].json.fields, "schema_version") != Text("1.0") {
        return Failure(InvalidSeed);
      }
      var record := lines[n].json.fields;
      ChunksAppend(records, record);
      records := records + [record];
      if Get(record, "record_type") == Text("chunk") && Get(record, "id").Text? {
        chunks := chunks + {Get(record, "id").s};
      }
    }
    assert lines[..|lines|] == lines;
    r := Success((records, chunks));
  }

  lemma TypeMeaning(record: Record)
    ensures IsChunk(record) <==> Get(record, "record_type") == Text("chunk")
    ensures IsQuery(record) <==> Get(record, "record_type") == Text("query")
  {
  }

  /** The identifiers read one by one are the texts of the field. */
  lemma PresentChunks(record: Record, ids: seq<string>, chunks: set<string>)
    requires Get(record, "relevant_chunk_ids").List? && AllText(Get(record, "relevant_chunk_ids").items)
    requires |ids| == |Get(record, "relevant_chunk_ids").items|
    requires forall i :: 0 <= i < |ids| ==> Get(record, "relevant_chunk_ids").items[i] == Text(ids[i])
    ensures ids == Texts(Get(record, "relevant_chunk_ids").items)
    ensures (set id | id in ids) <= chunks <==>
      forall i :: 0 <= i < |ids| ==> Get(record, "relevant_chunk_ids").items[i].s in chunks
  {
    hide Get;
  }

  /** The checks and the entry of one query record. */
  method ReadQuery(record: Record, chunks: set<string>) returns (r: Option<SeedQuery>)
    ensures r == if LoadableQuery(record, chunks) then Some(QueryOf(record, chunks)) else None
    ensures r.Some? <==>
      && "id" in record && record["id"].Text?
      && "relevant_chunk_ids" in record && record["relevant_chunk_ids"].List?
      && (forall item :: item in record["relevant_chunk_ids"].items ==> item.Text? && item.s in chunks)
      && "expect_abstain" in record && record["expect_abstain"].Bool?
      && "split" in record && record["split"] in {Text("train"), Text("validation"), Text("test")}
  {
    var relevant, abstain := Get(record, "relevant_chunk_ids"), Get(record, "expect_abstain");
    var split := Get(record, "split");
    if !Get(record, "id").Text? || !relevant.List?
       || (exists i :: 0 <= i < |relevant.items| && !relevant.items[i].Text?)
    {
      return None;
    }
    var ids := seq(|relevant.items|, i requires 0 <= i < |relevant.items| =>
      match relevant.items[i] case Text(s) => s case _ => "");
    PresentChunks(record, ids, chunks);
    if !((set id | id in ids) <= chunks) || !abstain.Bool? || !split.Text?
       || split.s !in {"train", "validation", "test"}
    {
      return None;
    }
    r := Some(SeedQuery(ids, abstain.b, split.s));
  }

  lemma LoadableId(record: Record, chunks: set<string>)
    requires LoadableQuery(record, chunks)
    ensures Get(record, "id").Text?
  {
  }

  method ReadQueries(records: seq<Record>, chunks: set<string>) returns (r: Result<map<string, SeedQuery>, SeedError>)
    ensures r.Success? <==> forall i :: 0 <= i < |records| && IsQuery(records[i]) ==> LoadableQuery(records[i], chunks)
    ensures r.Success? ==> r.value == QueriesOf(records, chunks)
  {
    hide LoadableQuery, QueryOf, IsQuery;
    var queries: map<string, SeedQuery> := map[];
    for n := 0 to |records|
      invariant forall i :: 0 <= i < n && IsQuery(records[i]) ==> LoadableQuery(records[i], chunks)
      invariant queries == QueriesOf(records[..n], chunks)
    {
      assert Init(records[..n + 1]) == records[..n];
      TypeMeaning(records[n]);
      if Get(records[n], "record_type") != Text("query") {
        continue;
      }
      var query := ReadQuery(records[n], chunks);
      if query.None? {
        return Failure(InvalidQuery);
      }
      LoadableId(records[n], chunks);
      queries := queries[Get(records[n], "id").s := query.value];
    }
    assert records[..|records|] == records;
    r := Success(queries);
  }

  /** The loader accepts every line, every query record, and at least one of these. */
  ghost predicate Loadable(lines: seq<Line>) {
    var records := RecordsOf(lines);
    var chunks := LoadedChunks(records);
    && (forall i :: 0 <= i < |lines| ==> LoadableLine(lines[i]))
    && (forall i :: 0 <= i < |records| && IsQuery(records[i]) ==> LoadableQuery(records[i], chunks))
    && exists i :: 0 <= i < |records| && IsQuery(records[i])
  }

  lemma {:induction false} SomeQuery(records: seq<Record>, chunks: set<string>)
    requires forall i :: 0 <= i < |records| && IsQuery(records[i]) ==> LoadableQuery(records[i], chunks)
    ensures QueriesOf(records, chunks) != map[] <==> exists i :: 0 <= i < |records| && IsQuery(records[i])
    decreases |records|
  {
    hide LoadableQuery, QueryOf, IsQuery;
    if records == [] {
    } else {
      var front, last := Init(records), Last(records);
      assert forall i :: 0 <= i < |front| ==> front[i] == records[i];
      SomeQuery(front, chunks);
      if IsQuery(last) {
        LoadableId(last, chunks);
        assert Get(last, "id").s in QueriesOf(records, chunks);
        assert IsQuery(records[|records| - 1]);
      }
    }
  }

  method LoadSeedQueries(lines: seq<Line>) returns (r: Result<map<string, SeedQuery>, SeedError>)
    ensures r.Success? <==> Loadable(lines)
    ensures r.Success? ==> r.value == QueriesOf(RecordsOf(lines), LoadedChunks(RecordsOf(lines)))
  {
    hide LoadableLine, LoadableQuery, IsQuery, QueriesOf, RecordsOf, LoadedChunks;
    var read := ReadRecords(lines);
    if read.Failure? {
      return Failure(read.error);
    }
    var (records, chunks) := read.value;
    var queries := ReadQueries(records, chunks);
    if queries.Failure? {
      return Failure(queries.error);
    }
    SomeQuery(records, chunks);
    r := if queries.value == map[] then Failure(NoQueries) else queries;
  }

  // ---------- The checker ----------

  /** Reading the lines; a line that holds no object is a finding. */
  method CheckLines(lines: seq<Line>) returns (records: seq<Record>, findings: seq<Finding>)
    ensures records == RecordsOf(lines)
    ensures findings == [] <==> forall i :: 0 <= i < |lines| ==> LineOk(lines[i])
    ensures forall f :: f in findings ==> f == SeedInvalid
  {
    records, findings := [], [];
    for n := 0 to |lines|
      invariant records == RecordsOf(lines[..n])
      invariant findings == [] <==> forall i :: 0 <= i < n ==> LineOk(lines[i])
      invariant forall f :: f in findings ==> f == SeedInvalid
    {
      assert Init(lines[..n + 1]) == lines[..n];
      if lines[n].Parsed? && lines[n].json.Object? {
        records := records + [lines[n].json.fields];
      } else if !lines[n].Blank? {
        findings := findings + [SeedInvalid];
      }
    }
    assert lines[..|lines|] == lines;
  }

  ghost predicate IdsOk(records: seq<Record>) {
    && (forall i :: 0 <= i < |records| ==> IdOk(records[i]))
    && forall i, j :: 0 <= i < j < |records| ==> Get(records[i], "id") != Get(records[j], "id")
  }

  /** Python takes true for 1 and false for 0. */
  predicate SameId(a: Json, b: Json) {
    || a == b
    || (a == Bool(true) && b == Number(1.0)) || (a == Number(1.0) && b == Bool(true))
    || (a == Bool(false) && b == Number(0.0)) || (a == Number(0.0) && b == Bool(false))
  }

  /** Two records have identifiers that Python takes for equal. */
  ghost predicate RepeatsId(records: seq<Record>) {
    exists i, j :: 0 <= i < j < |records| && SameId(Get(records[i], "id"), Get(records[j], "id"))
  }

  method CheckIds(records: seq<Record>) returns (r: Result<seq<Finding>, SeedException>)
    ensures r.Failure? <==> exists i :: 0 <= i < |records| && !Hashable(Get(records[i], "id"))
    ensures r.Success? ==> (r.value == [] <==> IdsOk(records))
    ensures r.Success? ==>
      (DuplicateId in r.value <==> RepeatsId(records))
    ensures r.Success? ==> forall f :: f in r.value ==> f == SeedInvalid || f == DuplicateId
  {
    var findings: seq<Finding> := [];
    if exists i :: 0 <= i < |records| && (!Get(records[i], "id").Text? || Get(records[i], "id").s == "") {
      findings := [SeedInvalid];
    }
    if exists i :: 0 <= i < |records| && (Get(records[i], "id").List? || Get(records[i], "id").Object?) {
      return Failure(Unhashable);
    }
    if exists i, j :: 0 <= i < j < |records| && HashKey(Get(records[i], "id")) == HashKey(Get(records[j], "id")) {
      findings := findings + [DuplicateId];
    }
    r := Success(findings);
  }

  ghost predicate ChunksOk(ops: TextOps, records: seq<Record>) {
    && (forall i :: 0 <= i < |records| ==> HeadOk(ops, records[i]))
    && (forall i :: 0 <= i < |records| && IsChunk(records[i]) ==>
          ChunkOk(ops, records[i]) && Digest(ops, records[i]).Some?)
    && forall i, j :: 0 <= i < j < |records| && IsChunk(records[i]) && IsChunk(records[j]) ==>
         Digest(ops, records[i]) != Digest(ops, records[j])
  }

  ghost predicate SeenDigest(ops: TextOps, records: seq<Record>, h: string) {
    exists i :: 0 <= i < |records| && IsChunk(records[i]) && ChunkOk(ops, records[i])
      && Digest(ops, records[i]) == Some(h)
  }

  /** Some chunk among the records has the digest of `record`. */
  ghost predicate Repeats(ops: TextOps, records: seq<Record>, record: Record) {
    exists i :: 0 <= i < |records| && IsChunk(records[i]) && Digest(ops, records[i]) == Digest(ops, record)
  }

  lemma {:induction false} ChunksOkAppend(ops: TextOps, records: seq<Record>, record: Record)
    ensures ChunksOk(ops, records + [record])
       <==> (ChunksOk(ops, records) && HeadOk(ops, record)
             && (IsChunk(record) ==>
                   ChunkOk(ops, record) && Digest(ops, record).Some? && !Repeats(ops, records, record)))
    ensures ChunksOk(ops, records) && Digest(ops, record).Some? ==>
      (Repeats(ops, records, record) <==> SeenDigest(ops, records, Digest(ops, record).value))
  {
    hide HeadOk, IsChunk, ChunkOk, Digest;
    var all := records + [record];
    assert all[|records|] == record;
    assert forall i :: 0 <= i < |records| ==> all[i] == records[i];
  }

  lemma {:induction false} SeenAppend(ops: TextOps, records: seq<Record>, record: Record, h: string)
    ensures SeenDigest(ops, records + [record], h)
       <==> (SeenDigest(ops, records, h) || (IsChunk(record) && ChunkOk(ops, record) && Digest(ops, record) == Some(h)))
  {
    hide IsChunk, ChunkOk, Digest;
    var all := records + [record];
    assert all[|records|] == record;
    assert forall i :: 0 <= i < |records| ==> all[i] == records[i];
  }

  lemma {:induction false} ChunkIdsAppend(ops: TextOps, records: seq<Record>, record: Record)
    ensures ChunkIds(ops, records + [record]) == ChunkIds(ops, records)
      + if IsChunk(record) && ChunkOk(ops, record) then {Get(record, "id").s} else {}
  {
    var all := records + [record];
    assert all[|records|] == record;
    assert forall i :: 0 <= i < |records| ==> all[i] == records[i];
    hide IsChunk;
  }

  lemma ChunkHasText(ops: TextOps, record: Record)
    ensures ChunkOk(ops, record) ==>
      Get(record, "id").Text? && Get(record, "text").Text? && Digest(ops, record) == ops.digest(Get(record, "text").s)
    ensures HeadOk(ops, record) <==> Get(record, "schema_version") == Text("1.0") && !ContainsAnswerField(ops, record)
  {
  }

  /** `_contains_answer_field` */
  method HasAnswerField(ops: TextOps, record: Record) returns (found: bool)
    ensures found <==> ContainsAnswerField(ops, record)
    ensures found <==> exists key :: key in record && ops.isForbidden(key)
  {
    found := exists key :: key in record && ops.isForbidden(key);
  }

  /** The checks of one chunk record. */
  method IsBadChunk(ops: TextOps, record: Record) returns (bad: bool)
    ensures bad <==> !ChunkOk(ops, record)
  {
    var text := Get(record, "text");
    bad := !Get(record, "id").Text? || !text.Text? || ops.isBlank(text.s)
      || Get(record, "corpus_role") != Text("corpus")
      || !Get(record, "document_id").Text? || !Get(record, "revision_id").Text?;
  }

  /** Two valid chunks with the same normalised text. */
  predicate SameContent(ops: TextOps, first: Record, second: Record) {
    && IsChunk(first) && ChunkOk(ops, first) && IsChunk(second) && ChunkOk(ops, second)
    && Digest(ops, first).Some? && Digest(ops, first) == Digest(ops, second)
  }

  /** Some record has a forbidden field. */
  ghost predicate HoldsAnswer(ops: TextOps, records: seq<Record>) {
    exists i, key :: 0 <= i < |records| && key in records[i] && ops.isForbidden(key)
  }

  /** Two valid chunks have the same normalised text. */
  ghost predicate RepeatsContent(ops: TextOps, records: seq<Record>) {
    exists i, j :: 0 <= i < j < |records| && SameContent(ops, records[i], records[j])
  }

  lemma AnswerAppend(ops: TextOps, records: seq<Record>, record: Record)
    ensures HoldsAnswer(ops, records + [record])
       <==> (HoldsAnswer(ops, records) || exists key :: key in record && ops.isForbidden(key))
  {
    var all := records + [record];
    assert all[|records|] == record && forall i :: 0 <= i < |records| ==> all[i] == records[i];
  }

  lemma ContentAppend(ops: TextOps, records: seq<Record>, record: Record)
    ensures RepeatsContent(ops, records + [record])
       <==> (RepeatsContent(ops, records)
             || (IsChunk(record) && ChunkOk(ops, record) && Digest(ops, record).Some?
                 && SeenDigest(ops, records, Digest(ops, record).value)))
  {
    hide IsChunk, ChunkOk, Digest;
    var all := records + [record];
    assert all[|records|] == record && forall i :: 0 <= i < |records| ==> all[i] == records[i];
    if i :| 0 <= i < |records| && SameContent(ops, records[i], record) {
      assert SameContent(ops, all[i], all[|records|]);
    }
  }

  ghost predicate ChunkFindings(findings: seq<Finding>) {
    forall f :: f in findings ==> f == SeedInvalid || f == AnswerContamination || f == DuplicateContent
  }

  lemma NoRecords(ops: TextOps)
    ensures ChunkIds(ops, []) == {} && ChunksOk(ops, []) && forall h :: !SeenDigest(ops, [], h)
    ensures !HoldsAnswer(ops, []) && !RepeatsContent(ops, []) && ChunkFindings([])
  {
  }

  lemma FindingsConcat(findings: seq<Finding>, more: seq<Finding>)
    requires ChunkFindings(findings) && ChunkFindings(more)
    ensures ChunkFindings(findings + more)
  {
  }

  /** One turn of the loop: the findings about a record and the digest of a valid chunk. */
  method CheckRecord(ops: TextOps, record: Record, contentHashes: set<string>)
    returns (r: Result<(seq<Finding>, Option<string>), SeedException>)
    ensures r.Failure? <==> ChunkRaises(ops, record)
    ensures r.Success? ==> r.value.1 == if IsChunk(record) && ChunkOk(ops, record) then Digest(ops, record) else None
    ensures r.Success? ==>
      (r.value.0 == [] <==>
         HeadOk(ops, record) && (IsChunk(record) ==> r.value.1.Some? && r.value.1.value !in contentHashes))
    ensures r.Success? ==> (AnswerContamination in r.value.0 <==> exists key :: key in record && ops.isForbidden(key))
    ensures r.Success? ==> (DuplicateContent in r.value.0 <==> r.value.1.Some? && r.value.1.value in contentHashes)
    ensures r.Success? ==> ChunkFindings(r.value.0)
  {
    hide IsChunk, Digest, ChunkOk, ContainsAnswerField;
    var findings: seq<Finding> := [];
    TypeMeaning(record);
    if Get(record, "schema_version") != Text("1.0") {
      findings := findings + [SeedInvalid];
    }
    var answer := HasAnswerField(ops, record);
    if answer {
      findings := findings + [AnswerContamination];
    }
    if Get(record, "record_type") != Text("chunk") {
      return Success((findings, None));
    }
    var bad := IsBadChunk(ops, record);
    if bad {
      return Success((findings + [SeedInvalid], None));
    }
    ChunkHasText(ops, record);
    var digest := ops.digest(Get(record, "text").s);
    if digest.None? {
      return Failure(Unencodable);
    }
    if digest.value in contentHashes {
      findings := findings + [DuplicateContent];
    }
    r := Success((findings, digest));
  }

  /** The loop over all records for their head fields, and over chunks for theirs. */
  method CheckChunks(ops: TextOps, records: seq<Record>) returns (r: Result<(set<string>, seq<Finding>), SeedException>)
    ensures r.Failure? <==> exists i :: 0 <= i < |records| && ChunkRaises(ops, records[i])
    ensures r.Success? ==> r.value.0 == ChunkIds(ops, records)
    ensures r.Success? ==> (r.value.1 == [] <==> ChunksOk(ops, records))
    ensures r.Success? ==> (AnswerContamination in r.value.1 <==> HoldsAnswer(ops, records))
    ensures r.Success? ==> (DuplicateContent in r.value.1 <==> RepeatsContent(ops, records))
    ensures r.Success? ==> ChunkFindings(r.value.1)
  {
    hide HeadOk, IsChunk, Digest, ChunkOk, ChunksOk, ChunkIds, SeenDigest, Repeats, HoldsAnswer, RepeatsContent,
      ChunkFindings;
    var chunks: set<string>, findings: seq<Finding>, contentHashes: set<string> := {}, [], {};
    NoRecords(ops);
    for n := 0 to |records|
      invariant forall i :: 0 <= i < n ==> !ChunkRaises(ops, records[i])
      invariant chunks == ChunkIds(ops, records[..n])
      invariant findings == [] <==> ChunksOk(ops, records[..n])
      invariant forall h :: h in contentHashes <==> SeenDigest(ops, records[..n], h)
      invariant AnswerContamination in findings <==> HoldsAnswer(ops, records[..n])
      invariant DuplicateContent in findings <==> RepeatsContent(ops, records[..n])
      invariant ChunkFindings(findings)
    {
      var record := records[n];
      assert records[..n + 1] == records[..n] + [record];
      ChunksOkAppend(ops, records[..n], record);
      ChunkIdsAppend(ops, records[..n], record);
      ChunkHasText(ops, record);
      AnswerAppend(ops, records[..n], record);
      ContentAppend(ops, records[..n], record);
      forall h
        ensures SeenDigest(ops, records[..n + 1], h)
           <==> (SeenDigest(ops, records[..n], h)
                 || (IsChunk(record) && ChunkOk(ops, record) && Digest(ops, record) == Some(h)))
      {
        SeenAppend(ops, records[..n], record, h);
      }
      var checked := CheckRecord(ops, record, contentHashes);
      if checked.Failure? {
        return Failure(checked.error);
      }
      FindingsConcat(findings, checked.value.0);
      findings := findings + checked.value.0;
      if checked.value.1.Some? {
        contentHashes := contentHashes + {checked.value.1.value};
        chunks := chunks + {Get(record, "id").s};
      }
    }
    assert records[..|records|] == records;
    r := Success((chunks, findings));
  }

  /** The candidates of one route: the chunks they name, and whether all are well formed. */
  method CheckRoute(candidates: Json, ghost chunks: set<string>)
    returns (referenced: set<string>, findings: seq<Finding>)
    ensures RouteOk(candidates, chunks) <==> findings == [] && referenced <= chunks
    ensures forall f :: f in findings ==> f == SeedInvalid
  {
    hide Get;
    referenced, findings := {}, [];
    if !candidates.List? {
      findings := [SeedInvalid];
      return;
    }
    for n := 0 to |candidates.items|
      invariant findings == [] && referenced <= chunks <==>
        forall i :: 0 <= i < n ==> CandidateOk(candidates.items[i], chunks)
      invariant forall f :: f in findings ==> f == SeedInvalid
    {
      var candidate := candidates.items[n];
      if !candidate.Object? || !Get(candidate.fields, "chunk_id").Text?
         || !(Get(candidate.fields, "score").Number? || Get(candidate.fields, "score").Bool?)
      {
        findings := findings + [SeedInvalid];
        continue;
      }
      referenced := referenced + {Get(candidate.fields, "chunk_id").s};
    }
  }

  lemma QueryHasList(record: Record)
    requires QueryFieldsOk(record)
    ensures Get(record, "relevant_chunk_ids").List? && AllText(Get(record, "relevant_chunk_ids").items)
  {
  }

  /** The references of one well-formed query. */
  method CheckReferences(record: Record, chunks: set<string>) returns (findings: seq<Finding>)
    requires QueryFieldsOk(record)
    ensures findings == [] <==> QueryOk(record, chunks)
    ensures forall f :: f in findings ==> f == SeedInvalid || f == DanglingChunk
  {
    hide QueryFieldsOk, RouteOk;
    QueryHasList(record);
    var relevant := Get(record, "relevant_chunk_ids").items;
    var referenced := set i | 0 <= i < |relevant| :: relevant[i].s;
    var dense, denseFindings := CheckRoute(Get(record, "dense"), chunks);
    var bm25, bm25Findings := CheckRoute(Get(record, "bm25"), chunks);
    var rerank, rerankFindings := CheckRoute(Get(record, "rerank"), chunks);
    findings := denseFindings + bm25Findings + rerankFindings;
    if !(referenced + dense + bm25 + rerank <= chunks) {
      findings := findings + [DanglingChunk];
    }
    assert referenced <= chunks <==> forall i :: 0 <= i < |relevant| ==> relevant[i].s in chunks;
  }

  /** The membership test of the split hashes it, unless an earlier test already failed. */
  predicate SplitRaises(record: Record) {
    && Get(record, "query").Text?
    && Get(record, "relevant_chunk_ids").List? && AllText(Get(record, "relevant_chunk_ids").items)
    && Get(record, "expect_abstain").Bool?
    && !Hashable(Get(record, "split"))
  }

  predicate QueryRaises(record: Record) {
    !IsChunk(record) && IsQuery(record) && SplitRaises(record)
  }

  ghost predicate QueriesOk(records: seq<Record>, chunks: set<string>) {
    forall i :: 0 <= i < |records| && !IsChunk(records[i]) ==> IsQuery(records[i]) && QueryOk(records[i], chunks)
  }

  /** The checks of the fields of one query record, up to the first that holds. */
  method IsBadQuery(record: Record) returns (r: Result<bool, SeedException>)
    ensures r.Failure? <==> SplitRaises(record)
    ensures r.Success? ==> r.value == !QueryFieldsOk(record)
  {
    var relevant, abstain := Get(record, "relevant_chunk_ids"), Get(record, "expect_abstain");
    var split := Get(record, "split");
    if !Get(record, "query").Text? || !relevant.List?
       || (exists i :: 0 <= i < |relevant.items| && !relevant.items[i].Text?) || !abstain.Bool?
    {
      return Success(true);
    }
    if split.List? || split.Object? {
      return Failure(Unhashable);
    }
    r := Success(split !in {Text("train"), Text("validation"), Text("test")}
                 || (abstain.b && relevant.items != []) || (!abstain.b && relevant.items == []));
  }

  method CheckQueries(records: seq<Record>, chunks: set<string>) returns (r: Result<seq<Finding>, SeedException>)
    ensures r.Success? ==> (r.value == [] <==> QueriesOk(records, chunks))
    ensures r.Failure? <==> exists i :: 0 <= i < |records| && QueryRaises(records[i])
    ensures r.Success? ==> forall f :: f in r.value ==> f == SeedInvalid || f == DanglingChunk
  {
    hide IsChunk, IsQuery, QueryFieldsOk, SplitRaises;
    var findings: seq<Finding> := [];
    for n := 0 to |records|
      invariant forall i :: 0 <= i < n ==> !QueryRaises(records[i])
      invariant findings == [] <==> forall i :: 0 <= i < n && !IsChunk(records[i]) ==>
        IsQuery(records[i]) && QueryOk(records[i], chunks)
      invariant forall f :: f in findings ==> f == SeedInvalid || f == DanglingChunk
    {
      TypeMeaning(records[n]);
      if Get(records[n], "record_type") == Text("chunk") {
        continue;
      }
      if Get(records[n], "record_type") != Text("query") {
        findings := findings + [SeedInvalid];
        continue;
      }
      var bad := IsBadQuery(records[n]);
      if bad.Failure? {
        assert QueryRaises(records[n]);
        return Failure(bad.error);
      }
      if bad.value {
        findings := findings + [SeedInvalid];
        continue;
      }
      var more := CheckReferences(records[n], chunks);
      findings := findings + more;
    }
    r := Success(findings);
  }

  lemma RaisesNotOk(records: seq<Record>, chunks: set<string>)
    requires exists i :: 0 <= i < |records| && QueryRaises(records[i])
    ensures !QueriesOk(records, chunks)
  {
    var i :| 0 <= i < |records| && QueryRaises(records[i]);
    assert !QueryFieldsOk(records[i]);
  }

  predicate RecordRaises(ops: TextOps, record: Record) {
    !Hashable(Get(record, "id")) || ChunkRaises(ops, record) || QueryRaises(record)
  }

  lemma NoChunks(ops: TextOps)
    ensures ChunkIds(ops, []) == {}
  {
  }

  lemma UnhashableNotOk(records: seq<Record>)
    requires exists i :: 0 <= i < |records| && !Hashable(Get(records[i], "id"))
    ensures !IdsOk(records)
  {
    var i :| 0 <= i < |records| && !Hashable(Get(records[i], "id"));
    assert !IdOk(records[i]);
  }

  lemma UnencodableNotOk(ops: TextOps, records: seq<Record>)
    requires exists i :: 0 <= i < |records| && ChunkRaises(ops, records[i])
    ensures !ChunksOk(ops, records)
  {
  }

  lemma CleanSeedParts(ops: TextOps, lines: seq<Line>)
    ensures var records := RecordsOf(lines);
      CleanSeed(ops, lines) <==>
        (forall i :: 0 <= i < |lines| ==> LineOk(lines[i]))
        && IdsOk(records) && ChunksOk(ops, records) && QueriesOk(records, ChunkIds(ops, records))
        && ChunkIds(ops, records) != {}
  {
    hide IdOk, HeadOk, ChunkOk, QueryOk, IsQuery, IsChunk, LineOk, ChunkIds, RecordsOf, Digest;
  }

  /** `verify_rag_seed`: no findings exactly for a clean seed; it raises exactly when an identifier
      or a split it looks up is a list or an object, or the text of a valid chunk cannot be encoded. */
  method VerifyRagSeed(ops: TextOps, lines: seq<Line>) returns (r: Result<seq<Finding>, SeedException>)
    ensures r == Success([]) <==> CleanSeed(ops, lines)
    ensures var records := RecordsOf(lines);
      r.Failure? <==> exists i :: 0 <= i < |records| && RecordRaises(ops, records[i])
    ensures r.Success? ==> var records := RecordsOf(lines);
      && (AnswerContamination in r.value <==> HoldsAnswer(ops, records))
      && (DuplicateContent in r.value <==> RepeatsContent(ops, records))
      && (DuplicateId in r.value <==> RepeatsId(records))
  {
    hide RecordsOf, IdOk, HeadOk, ChunkOk, QueryOk, IsChunk, IsQuery, LineOk, ChunkIds,
      Hashable, QueryRaises, ChunkRaises, HoldsAnswer, RepeatsContent, RepeatsId;
    var records, findings := CheckLines(lines);
    CleanSeedParts(ops, lines);
    hide CleanSeed;
    var ids := CheckIds(records);
    if ids.Failure? {
      UnhashableNotOk(records);
      return Failure(Unhashable);
    }
    var checked := CheckChunks(ops, records);
    if checked.Failure? {
      UnencodableNotOk(ops, records);
      return Failure(checked.error);
    }
    var (chunks, chunkFindings) := checked.value;
    var queries := CheckQueries(records, chunks);
    if queries.Failure? {
      RaisesNotOk(records, chunks);
      return Failure(queries.error);
    }
    findings := findings + ids.value + chunkFindings + queries.value;
    if chunks == {} || records == [] {
      findings := findings + [SeedInvalid];
    }
    NoChunks(ops);
    r := Success(findings);
  }

  // ---------- The two agree ----------

  lemma {:induction false} RecordsMember(lines: seq<Line>, i: nat)
    requires i < |lines| && lines[i].Parsed? && lines[i].json.Object?
    ensures lines[i].json.fields in RecordsOf(lines)
    decreases |lines|
  {
    if i == |lines| - 1 {
    } else {
      RecordsMember(Init(lines), i);
    }
  }

  ghost predicate HasQuery(record: Record, chunks: set<string>, queries: map<string, SeedQuery>) {
    LoadableQuery(record, chunks) && Get(record, "id").s in queries
    && queries[Get(record, "id").s] == QueryOf(record, chunks)
  }

  /** With distinct identifiers the dictionary holds exactly the query records. */
  ghost predicate HoldsQueries(records: seq<Record>, chunks: set<string>, queries: map<string, SeedQuery>) {
    && (forall i :: 0 <= i < |records| && IsQuery(records[i]) ==> HasQuery(records[i], chunks, queries))
    && forall id :: id in queries ==>
       exists i :: 0 <= i < |records| && IsQuery(records[i]) && Get(records[i], "id") == Text(id)
  }

  lemma {:induction false} QueriesExact(records: seq<Record>, chunks: set<string>)
    requires forall i, j :: 0 <= i < j < |records| ==> Get(records[i], "id") != Get(records[j], "id")
    requires forall i :: 0 <= i < |records| && IsQuery(records[i]) ==> LoadableQuery(records[i], chunks)
    ensures HoldsQueries(records, chunks, QueriesOf(records, chunks))
    decreases |records|
  {
    hide IsQuery, QueryOf, Get;
    if records == [] {
    } else {
      var front, last := Init(records), Last(records);
      assert forall i :: 0 <= i < |front| ==> front[i] == records[i];
      QueriesExact(front, chunks);
      var before, after := QueriesOf(front, chunks), QueriesOf(records, chunks);
      forall i | 0 <= i < |records| && IsQuery(records[i]) ensures HasQuery(records[i], chunks, after) {
        if i < |front| {
          assert HasQuery(front[i], chunks, before);
          assert Get(records[i], "id") != Get(records[|front|], "id");
        }
      }
      forall id | id in after
        ensures exists i :: 0 <= i < |records| && IsQuery(records[i]) && Get(records[i], "id") == Text(id)
      {
        if id in before {
          var i :| 0 <= i < |front| && IsQuery(front[i]) && Get(front[i], "id") == Text(id);
          assert IsQuery(records[i]) && Get(records[i], "id") == Text(id);
        } else {
          assert IsQuery(records[|front|]) && Get(records[|front|], "id") == Text(id);
        }
      }
    }
  }

  lemma {:induction false} CleanChunks(ops: TextOps, lines: seq<Line>)
    requires CleanSeed(ops, lines)
    ensures LoadedChunks(RecordsOf(lines)) == ChunkIds(ops, RecordsOf(lines))
  {
    hide RecordsOf, HeadOk, QueryOk, IsQuery, IsChunk, Digest;
  }

  /** The relevant ids are chunks, and the query expects abstention exactly when there are none. */
  predicate Consistent(q: SeedQuery, chunks: set<string>) {
    && (forall i :: 0 <= i < |q.relevantChunkIds| ==> q.relevantChunkIds[i] in chunks)
    && (q.expectAbstain <==> q.relevantChunkIds == [])
  }

  lemma CleanQueryLoads(record: Record, chunks: set<string>)
    requires IdOk(record) && QueryOk(record, chunks)
    ensures LoadableQuery(record, chunks) && Consistent(QueryOf(record, chunks), chunks)
  {
  }

  /** A seed without findings loads exactly when it has a query; the loader then returns exactly
      the query records, each with relevant ids that are chunks, and expecting abstention exactly
      when there are none. */
  lemma {:induction false} CheckedSeedLoads(ops: TextOps, lines: seq<Line>)
    requires CleanSeed(ops, lines)
    ensures var records := RecordsOf(lines);
      Loadable(lines) <==> exists i :: 0 <= i < |records| && IsQuery(records[i])
    ensures var records, chunks := RecordsOf(lines), LoadedChunks(RecordsOf(lines));
      && chunks == ChunkIds(ops, records)
      && HoldsQueries(records, chunks, QueriesOf(records, chunks))
      && forall id :: id in QueriesOf(records, chunks) ==> Consistent(QueriesOf(records, chunks)[id], chunks)
  {
    hide RecordsOf, QueryOk, Digest, ChunkIds, LoadedChunks, QueriesOf, QueryOf, LoadableQuery, Consistent;
    var records := RecordsOf(lines);
    var chunks := ChunkIds(ops, records);
    CleanChunks(ops, lines);
    forall i | 0 <= i < |lines| ensures LoadableLine(lines[i]) {
      if lines[i].Parsed? {
        RecordsMember(lines, i);
        var k :| 0 <= k < |records| && records[k] == lines[i].json.fields;
        assert HeadOk(ops, records[k]);
      }
    }
    forall i | 0 <= i < |records| && IsQuery(records[i])
      ensures LoadableQuery(records[i], chunks) && Consistent(QueryOf(records[i], chunks), chunks)
    {
      assert !IsChunk(records[i]) && IdOk(records[i]);
      CleanQueryLoads(records[i], chunks);
    }
    QueriesExact(records, chunks);
    var queries := QueriesOf(records, chunks);
    forall id | id in queries ensures Consistent(queries[id], chunks) {
      var i :| 0 <= i < |records| && IsQuery(records[i]) && Get(records[i], "id") == Text(id);
      assert HasQuery(records[i], chunks, queries);
    }
  }
}
