/** Packaging of one parse attempt as a function of its environment: what the parser returns, how
    the control plane answers, and which pages pass the quality gates
    (services/worker/src/study_worker/artifacts.py, runtime.py and dispatcher.py).  A run yields a
    value or the fault that stopped it, and in both cases the log of reporter effects. */
module ParseModel {

  import opened Sequences
  import opened Sorting
  import opened Wrappers

  // ---------- Raw documents ----------

  datatype BlockType = Title | Paragraph | TableBlock | FormulaBlock | ImageBlock | Code

  /** `content` stands for text, box, confidence and metadata. */
  datatype RawBlock = RawBlock(kind: BlockType, readingOrder: nat, artifactPath: Option<string>, content: string)

  datatype RawPage = RawPage(ordinal: int, sourceKind: string, blocks: seq<RawBlock>)

  datatype Source = Source(documentSha256: string, parserProfile: string, backend: string, version: string,
                           totalPages: int)

  datatype DocumentData = DocumentData(source: Source, pages: seq<RawPage>)

  /** What the raw models validate on construction. */
  predicate ValidRawPage(page: RawPage) {
    page.ordinal >= 1
    && forall i, j :: 0 <= i < j < |page.blocks| ==> page.blocks[i].readingOrder != page.blocks[j].readingOrder
  }

  predicate ValidRawDocument(doc: DocumentData) {
    && doc.source.totalPages > 0 && doc.pages != []
    && (forall i :: 0 <= i < |doc.pages| ==>
          ValidRawPage(doc.pages[i]) && doc.pages[i].ordinal <= doc.source.totalPages)
    && forall i, j :: 0 <= i < j < |doc.pages| ==> doc.pages[i].ordinal != doc.pages[j].ordinal
  }

  type RawDocument = d: DocumentData | ValidRawDocument(d)
    witness DocumentData(Source("", "", "", "", 1), [RawPage(1, "", [])])

  // ---------- Packaged pages ----------

  datatype Receipt = Receipt(artifactRef: string, sha256: string, sizeBytes: nat, mediaType: string)

  datatype PageQuality = PageQuality(failed: bool, issues: seq<string>)

  /** `^[A-Z][A-Z0-9_]*$`, the pattern of issue codes. */
  predicate IsIssueCode(code: string) {
    code != [] && 'A' <= code[0] <= 'Z'
    && forall i :: 0 <= i < |code| ==> 'A' <= code[i] <= 'Z' || '0' <= code[i] <= '9' || code[i] == '_'
  }

  /** What the quality contract validates: a failed page has an issue, and codes match the pattern. */
  type Quality = q: PageQuality |
    (q.failed ==> q.issues != []) && forall i :: 0 <= i < |q.issues| ==> IsIssueCode(q.issues[i])
    witness PageQuality(false, [])

  datatype AssetId = AssetId(ordinal: int, readingOrder: nat)

  /** A normalised page, as the record of what it is computed from. */
  datatype Page = Page(ordinal: int, sourceKind: string, backend: string, version: string, rawRef: string,
                       blocks: seq<RawBlock>, assetIds: map<nat, AssetId>, quality: Quality)

  datatype Asset = Asset(id: AssetId, kind: BlockType, ordinal: int, sourceKind: string, backend: string,
                         version: string, rawRef: string, receipt: Receipt, metadataOnly: bool, content: string)

  datatype PackagedPage = PackagedPage(page: Page, assets: seq<Asset>, failed: bool)

  datatype Checkpoint = Checkpoint(ordinal: int, failed: bool, outputRef: string, outputSha256: string, outputSize: int,
                                   backend: string, version: string, errorCode: Option<string>)

  datatype Attempt = Attempt(source: Source, requested: seq<int>, covered: seq<int>, pages: seq<Page>,
                             assets: seq<Asset>)

  datatype TaskResult = TaskResult(manifestRef: string, sha256: string, sizeBytes: int, pageCount: int,
                                   failedPages: seq<int>)

  datatype LeaseData = LeaseData(parserProfile: string, mediaType: string, requestedPages: seq<int>)

  /** What the lease contract validates: the requested pages are positive and distinct. */
  type Lease = l: LeaseData |
    (forall i :: 0 <= i < |l.requestedPages| ==> l.requestedPages[i] >= 1) && Distinct(l.requestedPages)
    witness LeaseData("", "", [])

  // ---------- Validation on construction ----------

  predicate IsLetter(c: char) {
    'A' <= c <= 'Z' || 'a' <= c <= 'z'
  }

  /** `_require_error_code`, for ASCII codes. */
  predicate IsErrorCode(code: string) {
    && code != [] && IsLetter(code[0])
    && forall i :: 0 <= i < |code| ==>
         !('a' <= code[i] <= 'z') && (code[i] == '_' || IsLetter(code[i]) || '0' <= code[i] <= '9')
  }

  predicate ValidCheckpoint(c: Checkpoint) {
    && c.ordinal >= 1
    && c.outputSize >= 0
    && (c.failed <==> c.errorCode.Some?)
    && (c.errorCode.Some? ==> IsErrorCode(c.errorCode.value))
  }

  predicate ValidTaskResult(r: TaskResult) {
    && r.pageCount >= 0 && r.sizeBytes >= 0
    && (forall i, j :: 0 <= i < j < |r.failedPages| ==> r.failedPages[i] != r.failedPages[j])
    && forall i :: 0 <= i < |r.failedPages| ==> 1 <= r.failedPages[i] <= r.pageCount
  }

  predicate StrictlyIncreasing(s: seq<int>) {
    forall i, j :: 0 <= i < j < |s| ==> s[i] < s[j]
  }

  /** The identifiers `{source_kind}-{ordinal}-block-{order}` of a page's blocks, as their parts. */
  function BlockIds(page: Page): seq<(string, int, nat)> {
    seq(|page.blocks|, i requires 0 <= i < |page.blocks| =>
      (page.sourceKind, page.ordinal, page.blocks[i].readingOrder))
  }

  predicate DistinctBlocks(pages: seq<Page>) {
    && (forall p, i, j :: 0 <= p < |pages| && 0 <= i < j < |pages[p].blocks| ==>
          BlockIds(pages[p])[i] != BlockIds(pages[p])[j])
    && forall p, q, i, j :: 0 <= p < q < |pages| && 0 <= i < |pages[p].blocks| && 0 <= j < |pages[q].blocks| ==>
         BlockIds(pages[p])[i] != BlockIds(pages[q])[j]
  }

  /** The asset lies on a covered page and shares its provenance. */
  predicate AssetFits(asset: Asset, a: Attempt) {
    && asset.ordinal in a.covered
    && asset.backend == a.source.backend && asset.version == a.source.version
    && forall i :: 0 <= i < |a.pages| && a.pages[i].ordinal == asset.ordinal ==>
         asset.rawRef == a.pages[i].rawRef && asset.sourceKind == a.pages[i].sourceKind
  }

  /** What the attempt envelope validates; provenance of blocks is that of their page here. */
  predicate ValidAttempt(a: Attempt) {
    && a.source.totalPages > 0 && a.requested != []
    && StrictlyIncreasing(a.requested) && StrictlyIncreasing(a.covered)
    && (forall i :: 0 <= i < |a.requested| ==> 1 <= a.requested[i] <= a.source.totalPages)
    && (forall i :: 0 <= i < |a.covered| ==> a.covered[i] in a.requested)
    && a.covered == seq(|a.pages|, i requires 0 <= i < |a.pages| => a.pages[i].ordinal)
    && (forall i :: 0 <= i < |a.pages| ==>
          a.pages[i].backend == a.source.backend && a.pages[i].version == a.source.version)
    && DistinctBlocks(a.pages)
    && (forall i, j :: 0 <= i < j < |a.assets| ==> a.assets[i].id != a.assets[j].id)
    && forall i :: 0 <= i < |a.assets| ==> AssetFits(a.assets[i], a)
  }

  // ---------- The environment and the log ----------

  /** An exception: a ValueError, an OSError, a TaskExecutionError as the worker reports it, or any
      other. */
  datatype Fault = ValueFault | OsFault | TaskFault(code: string, retryable: bool) | OtherFault(name: string)

  datatype Effect =
    | UploadRaw(source: Source, rawPage: RawPage)
    | UploadAsset(ordinal: int, readingOrder: nat, path: string)
    | UploadPage(page: Page)
    | SaveCheckpoint(checkpoint: Checkpoint)
    | UploadEnvelope(attempt: Attempt)

  datatype Reply = Accepted(receipt: Receipt) | Rejected(fault: Fault)

  /** An effect and the answer it got. */
  datatype Entry = Entry(effect: Effect, reply: Reply)

  type Log = seq<Entry>

  /** What a call of the parser, with the construction of its request, comes to: a document, a
      ParserExecutionError with its code, or any other exception. */
  datatype ParserReply = Parsed(doc: RawDocument) | Refused(code: string, retryable: bool) | Broke(fault: Fault)

  /** Everything outside the packager.  `respond` covers the local write and the control plane's
      answer, `locate` says what, if anything, is wrong with an asset path; both may depend on all
      effects before.  Each page is parsed once, so `parse` may be any behaviour of the parser.
      `unicodeCode` says which error codes with characters beyond ASCII are accepted. */
  datatype Environment = Environment(
    respond: (Log, Effect) -> Reply,
    parse: int -> ParserReply,
    unicodeCode: string -> bool,
    quality: (string, RawPage) -> Result<Quality, Fault>,
    locate: (Log, string) -> Option<Fault>,
    assetAccepted: Asset -> bool,
    pageAccepted: Page -> bool
  )

  datatype Outcome<+T> = Done(value: T, log: Log) | Stopped(fault: Fault, log: Log)

  function Perform(env: Environment, log: Log, effect: Effect): Outcome<Receipt> {
    var reply := env.respond(log, effect);
    match reply
    case Accepted(receipt) => Done(receipt, log + [Entry(effect, reply)])
    case Rejected(fault) => Stopped(fault, log + [Entry(effect, reply)])
  }

  // ---------- One page ----------

  predicate HasAsset(block: RawBlock) {
    block.kind == ImageBlock || block.kind == TableBlock || block.kind == FormulaBlock
  }

  datatype PackagedAssets = PackagedAssets(assets: seq<Asset>, ids: map<nat, AssetId>)

  function MakeAsset(source: Source, page: RawPage, block: RawBlock, rawRef: string, receipt: Receipt): Asset {
    Asset(AssetId(page.ordinal, block.readingOrder), block.kind, page.ordinal, page.sourceKind, source.backend,
          source.version, rawRef, receipt, block.artifactPath.None?, block.content)
  }

  /** The receipt of a block's binary, or that of the raw page for a block without one. */
  function AssetReceipt(env: Environment, page: RawPage, block: RawBlock, raw: Receipt, log: Log): Outcome<Receipt> {
    match block.artifactPath
    case None => Done(raw, log)
    case Some(path) =>
      match env.locate(log, path)
      case Some(fault) => Stopped(fault, log)
      case None => Perform(env, log, UploadAsset(page.ordinal, block.readingOrder, path))
  }

  /** One turn of the loop in `_package_assets`. */
  function PackageBlock(env: Environment, source: Source, page: RawPage, block: RawBlock, raw: Receipt,
                        done: PackagedAssets, log: Log): Outcome<PackagedAssets> {
    if !HasAsset(block) then Done(done, log)
    else match AssetReceipt(env, page, block, raw, log)
      case Stopped(fault, log') => Stopped(fault, log')
      case Done(receipt, log') =>
        var asset := MakeAsset(source, page, block, raw.artifactRef, receipt);
        if env.assetAccepted(asset) then
          Done(PackagedAssets(done.assets + [asset], done.ids[block.readingOrder := asset.id]), log')
        else Stopped(ValueFault, log')
  }

  /** The first `n` turns. */
  function PackageAssets(env: Environment, source: Source, page: RawPage, n: nat, raw: Receipt,
                         log: Log): Outcome<PackagedAssets>
    requires n <= |page.blocks|
  {
    if n == 0 then Done(PackagedAssets([], map[]), log)
    else match PackageAssets(env, source, page, n - 1, raw, log)
      case Stopped(fault, log') => Stopped(fault, log')
      case Done(done, log') => PackageBlock(env, source, page, page.blocks[n - 1], raw, done, log')
  }

  function MakeCheckpoint(source: Source, page: RawPage, quality: Quality, receipt: Receipt): Checkpoint {
    Checkpoint(page.ordinal, quality.failed, receipt.artifactRef, receipt.sha256, receipt.sizeBytes, source.backend,
               source.version, if quality.failed then Some(quality.issues[0]) else None)
  }

  /** From the quality gate to the checkpoint. */
  function FinishPage(env: Environment, source: Source, page: RawPage, raw: Receipt, assets: PackagedAssets, log: Log)
    : Outcome<PackagedPage>
  {
    match env.quality(source.parserProfile, page)
    case Failure(fault) => Stopped(fault, log)
    case Success(quality) =>
      var normalized := Page(page.ordinal, page.sourceKind, source.backend, source.version, raw.artifactRef,
                             page.blocks, assets.ids, quality);
      if !env.pageAccepted(normalized) then Stopped(ValueFault, log)
      else match Perform(env, log, UploadPage(normalized))
        case Stopped(fault, log') => Stopped(fault, log')
        case Done(receipt, log') =>
          var checkpoint := MakeCheckpoint(source, page, quality, receipt);
          if !ValidCheckpoint(checkpoint) then Stopped(ValueFault, log')
          else match Perform(env, log', SaveCheckpoint(checkpoint))
            case Stopped(fault, log'') => Stopped(fault, log'')
            case Done(_, log'') => Done(PackagedPage(normalized, assets.assets, quality.failed), log'')
  }

  /** `package_parse_page` */
  function PackagePage(env: Environment, source: Source, page: RawPage, log: Log): Outcome<PackagedPage> {
    if page.ordinal > source.totalPages then Stopped(ValueFault, log)
    else match Perform(env, log, UploadRaw(source, page))
      case Stopped(fault, log') => Stopped(fault, log')
      case Done(raw, log') =>
        match PackageAssets(env, source, page, |page.blocks|, raw, log')
        case Stopped(fault, log'') => Stopped(fault, log'')
        case Done(assets, log'') => FinishPage(env, source, page, raw, assets, log'')
  }

  // ---------- The envelope ----------

  predicate NoMore(a: int, b: int) {
    a <= b
  }

  function SortOrdinals(ordinals: seq<int>): seq<int> {
    Sort(ordinals, NoMore)
  }

  function OrdinalsOf(packaged: seq<PackagedPage>): seq<int> {
    seq(|packaged|, i requires 0 <= i < |packaged| => packaged[i].page.ordinal)
  }

  function PagesOf(packaged: seq<PackagedPage>): seq<Page> {
    seq(|packaged|, i requires 0 <= i < |packaged| => packaged[i].page)
  }

  function AssetsOf(packaged: seq<PackagedPage>): seq<Asset> {
    if packaged == [] then [] else AssetsOf(packaged[..|packaged| - 1]) + packaged[|packaged| - 1].assets
  }

  function FailedOf(packaged: seq<PackagedPage>): seq<int> {
    if packaged == [] then []
    else
      var last := packaged[|packaged| - 1];
      FailedOf(packaged[..|packaged| - 1]) + if last.failed then [last.page.ordinal] else []
  }

  function MakeAttempt(source: Source, requested: seq<int>, packaged: seq<PackagedPage>): Attempt {
    Attempt(source, requested, OrdinalsOf(packaged), PagesOf(packaged), AssetsOf(packaged))
  }

  /** `finalize_parse_attempt` */
  function Finalize(env: Environment, source: Source, requestedPages: seq<int>, packaged: seq<PackagedPage>, log: Log)
    : Outcome<TaskResult>
  {
    var requested, covered := SortOrdinals(requestedPages), OrdinalsOf(packaged);
    var attempt := MakeAttempt(source, requested, packaged);
    if requested == [] || covered != SortOrdinals(covered) || covered != requested || !ValidAttempt(attempt) then
      Stopped(ValueFault, log)
    else match Perform(env, log, UploadEnvelope(attempt))
      case Stopped(fault, log') => Stopped(fault, log')
      case Done(receipt, log') =>
        var result := TaskResult(receipt.artifactRef, receipt.sha256, receipt.sizeBytes,
                                 source.totalPages, FailedOf(packaged));
        if ValidTaskResult(result) then Done(result, log') else Stopped(ValueFault, log')
  }

  // ---------- A whole document at once ----------

  /** The pages `1..total`. */
  function AllOrdinals(total: int): seq<int> {
    if total <= 0 then [] else seq(total, i requires 0 <= i => i + 1)
  }

  function Requested(lease: Lease, total: int): seq<int> {
    var sorted := SortOrdinals(lease.requestedPages);
    if sorted != [] then sorted else AllOrdinals(total)
  }

  function PageOrdinals(doc: RawDocument): seq<int> {
    seq(|doc.pages|, i requires 0 <= i < |doc.pages| => doc.pages[i].ordinal)
  }

  /** The first `n` pages of a document, packaged one after the other. */
  function PackagePages(env: Environment, doc: RawDocument, n: nat, log: Log): Outcome<seq<PackagedPage>>
    requires n <= |doc.pages|
  {
    if n == 0 then Done([], log)
    else match PackagePages(env, doc, n - 1, log)
      case Stopped(fault, log') => Stopped(fault, log')
      case Done(packaged, log') =>
        match PackagePage(env, doc.source, doc.pages[n - 1], log')
        case Stopped(fault, log'') => Stopped(fault, log'')
        case Done(page, log'') => Done(packaged + [page], log'')
  }

  /** `package_parse_attempt` */
  function PackageAttempt(env: Environment, doc: RawDocument, lease: Lease, log: Log): Outcome<TaskResult> {
    var requested, covered := Requested(lease, doc.source.totalPages), PageOrdinals(doc);
    if covered != SortOrdinals(covered) || covered != requested then Stopped(ValueFault, log)
    else match PackagePages(env, doc, |doc.pages|, log)
      case Stopped(fault, log') => Stopped(fault, log')
      case Done(packaged, log') => Finalize(env, doc.source, requested, packaged, log')
  }

  // ---------- Page by page ----------

  datatype Handler = Handler(parserProfile: string, mediaTypes: set<string>, rejectionSummary: string)

  const INVALID := TaskFault("PARSER_RESULT_INVALID", false)
  const INCONSISTENT := TaskFault("PARSER_RESULT_INCONSISTENT", false)
  const WRITE_FAILED := TaskFault("ARTIFACT_WRITE_FAILED", true)
  const MAX_SUMMARY := 500

  /** How the handler reports the packager's exceptions. */
  function MapFault(fault: Fault): Fault {
    match fault
    case ValueFault => INVALID
    case OsFault => WRITE_FAILED
    case TaskFault(_, _) => fault
    case OtherFault(_) => fault
  }

  function MapOutcome<T>(out: Outcome<T>): Outcome<T> {
    match out
    case Stopped(fault, log) => Stopped(MapFault(fault), log)
    case Done(_, _) => out
  }

  predicate IsAscii(s: string) {
    forall i :: 0 <= i < |s| ==> s[i] as int < 128
  }

  predicate AcceptsCode(env: Environment, code: string) {
    if IsAscii(code) then IsErrorCode(code) else env.unicodeCode(code)
  }

  /** The constructor of TaskExecutionError validates what it is given: a refusal whose code or
      summary it does not accept becomes a ValueError. */
  function Refusal(handler: Handler, env: Environment, code: string, retryable: bool): Fault {
    if AcceptsCode(env, code) && |handler.rejectionSummary| <= MAX_SUMMARY then TaskFault(code, retryable)
    else ValueFault
  }

  /** `_parse_page` and `_validate_page_result`: one page and the source it came from. */
  function ParsePage(handler: Handler, env: Environment, ordinal: int,
                     baseline: Option<Source>): Result<RawDocument, Fault> {
    match env.parse(ordinal)
    case Refused(code, retryable) => Failure(Refusal(handler, env, code, retryable))
    case Broke(fault) => Failure(fault)
    case Parsed(doc) =>
      if PageOrdinals(doc) != [ordinal] then Failure(INVALID)
      else if baseline.Some? && doc.source != baseline.value then Failure(INCONSISTENT)
      else Success(doc)
  }

  /** The first `n` requested pages, each parsed and packaged before the next is parsed.  The first
      page has no baseline; the others are compared with it. */
  function HandlePages(handler: Handler, env: Environment, first: RawDocument, ordinals: seq<int>, n: nat,
                       log: Log): Outcome<seq<PackagedPage>>
    requires 1 <= n <= |ordinals| && PageOrdinals(first) == [ordinals[0]]
  {
    if n == 1 then
      match MapOutcome(PackagePage(env, first.source, first.pages[0], log))
      case Stopped(fault, log') => Stopped(fault, log')
      case Done(page, log') => Done([page], log')
    else match HandlePages(handler, env, first, ordinals, n - 1, log)
      case Stopped(fault, log') => Stopped(fault, log')
      case Done(packaged, log') =>
        match ParsePage(handler, env, ordinals[n - 1], Some(first.source))
        case Failure(fault) => Stopped(fault, log')
        case Success(doc) =>
          match MapOutcome(PackagePage(env, doc.source, doc.pages[0], log'))
          case Stopped(fault, log'') => Stopped(fault, log'')
          case Done(page, log'') => Done(packaged + [page], log'')
  }

  function FirstOrdinal(lease: Lease): int {
    var sorted := SortOrdinals(lease.requestedPages);
    if sorted != [] then sorted[0] else 1
  }

  lemma FirstIsRequested(lease: Lease, doc: RawDocument)
    ensures var requested := Requested(lease, doc.source.totalPages);
      requested != [] && requested[0] == FirstOrdinal(lease)
  {
    hide SortOrdinals;
    assert doc.source.totalPages > 0;
  }

  /** All requested pages, the first one already parsed, and then the envelope. */
  function HandleAll(handler: Handler, env: Environment, first: RawDocument, ordinals: seq<int>,
                     log: Log): Outcome<TaskResult>
    requires ordinals != [] && PageOrdinals(first) == [ordinals[0]]
  {
    match HandlePages(handler, env, first, ordinals, |ordinals|, log)
    case Stopped(fault, log') => Stopped(fault, log')
    case Done(packaged, log') => MapOutcome(Finalize(env, first.source, ordinals, packaged, log'))
  }

  /** `NativeTaskHandler.__call__` */
  function Handle(handler: Handler, env: Environment, lease: Lease, log: Log): Outcome<TaskResult> {
    if lease.parserProfile != handler.parserProfile then Stopped(TaskFault("UNSUPPORTED_PARSER_PROFILE", false), log)
    else if lease.mediaType !in handler.mediaTypes then Stopped(TaskFault("UNSUPPORTED_MEDIA_TYPE", false), log)
    else match ParsePage(handler, env, FirstOrdinal(lease), None)
      case Failure(fault) => Stopped(fault, log)
      case Success(first) =>
        FirstIsRequested(lease, first);
        HandleAll(handler, env, first, Requested(lease, first.source.totalPages), log)
  }
}
