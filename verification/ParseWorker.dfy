/** The packager and the page handler as they run: loops over blocks and pages that issue effects
    on a reporter and stop at the first exception.  Each method is proved to be the function of
    ParseModel with the same name. */
module ParseWorker {

  import Model = ParseModel
  import opened ParseModel
  import opened Wrappers

  /** The outcome of a method that returned or raised, with the log it left. */
  function Ran<T>(r: Result<T, Fault>, log: Log): Outcome<T> {
    match r
    case Success(value) => Done(value, log)
    case Failure(fault) => Stopped(fault, log)
  }

  /** The reporter of one job: every effect is recorded, and answered as the environment says. */
  class JobReporter {
    const env: Environment
    var log: Log
    /** The known page totals of the progress updates. */
    var progress: seq<Option<int>>

    constructor (env: Environment)
      ensures this.env == env && log == [] && progress == []
    {
      this.env := env;
      log, progress := [], [];
    }

    method UpdateProgress(totalPages: Option<int>)
      modifies this`progress
      ensures progress == old(progress) + [totalPages]
    {
      progress := progress + [totalPages];
    }

    method Perform(effect: Effect) returns (r: Result<Receipt, Fault>)
      modifies this`log
      ensures Ran(r, log) == Model.Perform(env, old(log), effect)
    {
      var reply := env.respond(log, effect);
      log := log + [Entry(effect, reply)];
      match reply {
        case Accepted(receipt) => r := Success(receipt);
        case Rejected(fault) => r := Failure(fault);
      }
    }
  }

  // ---------- A stopped loop stays stopped ----------

  lemma {:induction false} AssetsStay(env: Environment, source: Source, page: RawPage, n: nat, m: nat, raw: Receipt,
                                      log: Log)
    requires n <= m <= |page.blocks| && PackageAssets(env, source, page, n, raw, log).Stopped?
    ensures PackageAssets(env, source, page, m, raw, log) == PackageAssets(env, source, page, n, raw, log)
    decreases m - n
  {
    if n == m {
    } else {
      AssetsStay(env, source, page, n, m - 1, raw, log);
    }
  }

  lemma {:induction false} PagesStay(env: Environment, doc: RawDocument, n: nat, m: nat, log: Log)
    requires n <= m <= |doc.pages| && PackagePages(env, doc, n, log).Stopped?
    ensures PackagePages(env, doc, m, log) == PackagePages(env, doc, n, log)
    decreases m - n
  {
    if n == m {
    } else {
      PagesStay(env, doc, n, m - 1, log);
    }
  }

  lemma {:induction false} HandledStay(handler: Handler, env: Environment, first: RawDocument, ordinals: seq<int>,
                                       n: nat, m: nat, log: Log)
    requires 1 <= n <= m <= |ordinals| && PageOrdinals(first) == [ordinals[0]]
    requires HandlePages(handler, env, first, ordinals, n, log).Stopped?
    ensures HandlePages(handler, env, first, ordinals, m, log) == HandlePages(handler, env, first, ordinals, n, log)
    decreases m - n
  {
    hide PackagePage;
    if n == m {
    } else {
      HandledStay(handler, env, first, ordinals, n, m - 1, log);
    }
  }

  lemma FirstHandled(handler: Handler, env: Environment, first: RawDocument, ordinals: seq<int>, log: Log)
    requires ordinals != [] && PageOrdinals(first) == [ordinals[0]]
    ensures HandlePages(handler, env, first, ordinals, 1, log)
         == match MapOutcome(PackagePage(env, first.source, first.pages[0], log))
            case Stopped(fault, log') => Stopped(fault, log')
            case Done(page, log') => Done([page], log')
  {
    hide PackagePage, MapOutcome;
  }

  /** One more page: it is parsed, compared with the first, and packaged. */
  lemma HandledNext(handler: Handler, env: Environment, first: RawDocument, ordinals: seq<int>, n: nat, log: Log)
    requires 1 <= n < |ordinals| && PageOrdinals(first) == [ordinals[0]]
    requires HandlePages(handler, env, first, ordinals, n, log).Done?
    ensures var done := HandlePages(handler, env, first, ordinals, n, log);
      HandlePages(handler, env, first, ordinals, n + 1, log)
      == match ParsePage(handler, env, ordinals[n], Some(first.source))
         case Failure(fault) => Stopped(fault, done.log)
         case Success(doc) =>
           match MapOutcome(PackagePage(env, doc.source, doc.pages[0], done.log))
           case Stopped(fault, log') => Stopped(fault, log')
           case Done(page, log') => Done(done.value + [page], log')
  {
    hide PackagePage, ParsePage, MapOutcome;
  }

  // ---------- artifacts.py ----------

  method PackageAssetsOf(page: RawPage, raw: Receipt, source: Source, reporter: JobReporter)
    returns (r: Result<PackagedAssets, Fault>)
    modifies reporter`log
    ensures Ran(r, reporter.log) == PackageAssets(reporter.env, source, page, |page.blocks|, raw, old(reporter.log))
  {
    var assets: seq<Asset>, assetIds: map<nat, AssetId> := [], map[];
    var n := 0;
    while n < |page.blocks|
      invariant n <= |page.blocks|
      invariant PackageAssets(reporter.env, source, page, n, raw, old(reporter.log))
             == Done(PackagedAssets(assets, assetIds), reporter.log)
    {
      var block := page.blocks[n];
      n := n + 1;
      if !HasAsset(block) {
        continue;
      }
      var receipt := Success(raw);
      if block.artifactPath.Some? {
        var wrong := reporter.env.locate(reporter.log, block.artifactPath.value);
        if wrong.Some? {
          receipt := Failure(wrong.value);
        } else {
          receipt := reporter.Perform(UploadAsset(page.ordinal, block.readingOrder, block.artifactPath.value));
        }
      }
      if receipt.Failure? {
        AssetsStay(reporter.env, source, page, n, |page.blocks|, raw, old(reporter.log));
        return Failure(receipt.error);
      }
      var asset := MakeAsset(source, page, block, raw.artifactRef, receipt.value);
      if !reporter.env.assetAccepted(asset) {
        AssetsStay(reporter.env, source, page, n, |page.blocks|, raw, old(reporter.log));
        return Failure(ValueFault);
      }
      assetIds := assetIds[block.readingOrder := asset.id];
      assets := assets + [asset];
    }
    r := Success(PackagedAssets(assets, assetIds));
  }

  method FinishParsePage(page: RawPage, raw: Receipt, assets: PackagedAssets, source: Source, reporter: JobReporter)
    returns (r: Result<PackagedPage, Fault>)
    modifies reporter`log
    ensures Ran(r, reporter.log) == FinishPage(reporter.env, source, page, raw, assets, old(reporter.log))
  {
    var quality := reporter.env.quality(source.parserProfile, page);
    if quality.Failure? {
      return Failure(quality.error);
    }
    var normalized := Page(page.ordinal, page.sourceKind, source.backend, source.version, raw.artifactRef, page.blocks,
                           assets.ids, quality.value);
    if !reporter.env.pageAccepted(normalized) {
      return Failure(ValueFault);
    }
    var receipt := reporter.Perform(UploadPage(normalized));
    if receipt.Failure? {
      return Failure(receipt.error);
    }
    var checkpoint := MakeCheckpoint(source, page, quality.value, receipt.value);
    if !ValidCheckpoint(checkpoint) {
      return Failure(ValueFault);
    }
    var saved := reporter.Perform(SaveCheckpoint(checkpoint));
    if saved.Failure? {
      return Failure(saved.error);
    }
    r := Success(PackagedPage(normalized, assets.assets, quality.value.failed));
  }

  method PackageParsePage(page: RawPage, source: Source, reporter: JobReporter) returns (r: Result<PackagedPage, Fault>)
    modifies reporter`log
    ensures Ran(r, reporter.log) == PackagePage(reporter.env, source, page, old(reporter.log))
  {
    hide PackageAssets;
    if page.ordinal > source.totalPages {
      return Failure(ValueFault);
    }
    var raw := reporter.Perform(UploadRaw(source, page));
    if raw.Failure? {
      return Failure(raw.error);
    }
    var assets := PackageAssetsOf(page, raw.value, source, reporter);
    if assets.Failure? {
      return Failure(assets.error);
    }
    r := FinishParsePage(page, raw.value, assets.value, source, reporter);
  }

  method FinalizeParseAttempt(source: Source, requestedPages: seq<int>, packaged: seq<PackagedPage>,
                              reporter: JobReporter)
    returns (r: Result<TaskResult, Fault>)
    modifies reporter`log
    ensures Ran(r, reporter.log) == Finalize(reporter.env, source, requestedPages, packaged, old(reporter.log))
  {
    hide ValidAttempt, ValidTaskResult, SortOrdinals, FailedOf;
    var requested, covered := SortOrdinals(requestedPages), OrdinalsOf(packaged);
    if requested == [] {
      return Failure(ValueFault);
    }
    if covered != SortOrdinals(covered) || covered != requested {
      return Failure(ValueFault);
    }
    var attempt := MakeAttempt(source, requested, packaged);
    if !ValidAttempt(attempt) {
      return Failure(ValueFault);
    }
    var receipt := reporter.Perform(UploadEnvelope(attempt));
    if receipt.Failure? {
      return Failure(receipt.error);
    }
    var result := TaskResult(receipt.value.artifactRef, receipt.value.sha256, receipt.value.sizeBytes,
                             source.totalPages,
                             FailedOf(packaged));
    r := if ValidTaskResult(result) then Success(result) else Failure(ValueFault);
  }

  method PackageParseAttempt(doc: RawDocument, lease: Lease, reporter: JobReporter)
    returns (r: Result<TaskResult, Fault>)
    modifies reporter`log
    ensures Ran(r, reporter.log) == PackageAttempt(reporter.env, doc, lease, old(reporter.log))
  {
    hide SortOrdinals, PackagePage, Finalize, Requested;
    var requested, covered := Requested(lease, doc.source.totalPages), PageOrdinals(doc);
    if covered != SortOrdinals(covered) || covered != requested {
      return Failure(ValueFault);
    }
    var packaged: seq<PackagedPage> := [];
    for n := 0 to |doc.pages|
      invariant PackagePages(reporter.env, doc, n, old(reporter.log)) == Done(packaged, reporter.log)
    {
      var page := PackageParsePage(doc.pages[n], doc.source, reporter);
      if page.Failure? {
        PagesStay(reporter.env, doc, n + 1, |doc.pages|, old(reporter.log));
        return Failure(page.error);
      }
      packaged := packaged + [page.value];
    }
    r := FinalizeParseAttempt(doc.source, requested, packaged, reporter);
  }

  // ---------- runtime.py ----------

  function Mapped<T>(r: Result<T, Fault>): Result<T, Fault> {
    match r
    case Success(_) => r
    case Failure(fault) => Failure(MapFault(fault))
  }

  /** The progress a run reports: that parsing began, and the total once the first page is parsed. */
  function ProgressOf(routing: Handler, env: Environment, lease: Lease): seq<Option<int>> {
    if lease.parserProfile != routing.parserProfile || lease.mediaType !in routing.mediaTypes then []
    else match ParsePage(routing, env, FirstOrdinal(lease), None)
      case Failure(_) => [None]
      case Success(first) => [None, Some(first.source.totalPages)]
  }

  class NativeTaskHandler {
    const routing: Handler

    constructor (routing: Handler)
      ensures this.routing == routing
    {
      this.routing := routing;
    }

    /** The loop over the requested pages; each is packaged before the next is parsed. */
    method PackageAll(first: RawDocument, ordinals: seq<int>, reporter: JobReporter)
      returns (r: Result<seq<PackagedPage>, Fault>)
      requires ordinals != [] && PageOrdinals(first) == [ordinals[0]]
      modifies reporter`log
      ensures Ran(r, reporter.log) == HandlePages(routing, reporter.env, first, ordinals, |ordinals|, old(reporter.log))
    {
      hide PackagePage, MapFault, HandlePages, ParsePage;
      FirstHandled(routing, reporter.env, first, ordinals, reporter.log);
      var page := PackageParsePage(first.pages[0], first.source, reporter);
      if page.Failure? {
        HandledStay(routing, reporter.env, first, ordinals, 1, |ordinals|, old(reporter.log));
        return Failure(MapFault(page.error));
      }
      var packaged := [page.value];
      for n := 1 to |ordinals|
        invariant HandlePages(routing, reporter.env, first, ordinals, n, old(reporter.log))
               == Done(packaged, reporter.log)
      {
        HandledNext(routing, reporter.env, first, ordinals, n, old(reporter.log));
        var parsed := ParsePage(routing, reporter.env, ordinals[n], Some(first.source));
        if parsed.Failure? {
          HandledStay(routing, reporter.env, first, ordinals, n + 1, |ordinals|, old(reporter.log));
          return Failure(parsed.error);
        }
        page := PackageParsePage(parsed.value.pages[0], parsed.value.source, reporter);
        if page.Failure? {
          HandledStay(routing, reporter.env, first, ordinals, n + 1, |ordinals|, old(reporter.log));
          return Failure(MapFault(page.error));
        }
        packaged := packaged + [page.value];
      }
      r := Success(packaged);
    }

    /** `__call__` */
    method Call(lease: Lease, reporter: JobReporter) returns (r: Result<TaskResult, Fault>)
      modifies reporter
      ensures Ran(r, reporter.log) == Handle(routing, reporter.env, lease, old(reporter.log))
      ensures reporter.progress == old(reporter.progress) + ProgressOf(routing, reporter.env, lease)
    {
      hide SortOrdinals, HandlePages, Finalize, Requested, FirstOrdinal;
      if lease.parserProfile != routing.parserProfile {
        return Failure(TaskFault("UNSUPPORTED_PARSER_PROFILE", false));
      }
      if lease.mediaType !in routing.mediaTypes {
        return Failure(TaskFault("UNSUPPORTED_MEDIA_TYPE", false));
      }
      reporter.UpdateProgress(None);
      var parsed := ParsePage(routing, reporter.env, FirstOrdinal(lease), None);
      if parsed.Failure? {
        return Failure(parsed.error);
      }
      var first := parsed.value;
      FirstIsRequested(lease, first);
      var ordinals := Requested(lease, first.source.totalPages);
      reporter.UpdateProgress(Some(first.source.totalPages));
      var packaged := PackageAll(first, ordinals, reporter);
      if packaged.Failure? {
        return Failure(packaged.error);
      }
      var result := FinalizeParseAttempt(first.source, ordinals, packaged.value, reporter);
      r := Mapped(result);
    }
  }
}
