/** Which exceptions leave the page handler under their own name.  Packaging and finalisation report
    every ValueError and OSError as a task error; a parse is guarded against ParserExecutionError
    only. */
module ParseFaults {

  import opened ParseModel
  import opened ParseTrace
  import opened ParseWorker
  import opened Sequences
  import opened Wrappers

  /** A ValueError or OSError that was not turned into a task error. */
  predicate Bare(fault: Fault) {
    fault.ValueFault? || fault.OsFault?
  }

  /** The parser breaks with a bare exception, or refuses the page in a way that the constructor of
      the task error refuses in turn. */
  predicate ParsesBare(handler: Handler, env: Environment, ordinal: int) {
    match env.parse(ordinal)
    case Parsed(_) => false
    case Refused(code, _) => !AcceptsCode(env, code) || |handler.rejectionSummary| > MAX_SUMMARY
    case Broke(fault) => Bare(fault)
  }

  /** The ordinal of the page that is parsed as number `k`; the first is known before any parse. */
  function PageAt(env: Environment, lease: Lease, k: nat): int {
    if 0 < k < |RequestedOf(env, lease)| then RequestedOf(env, lease)[k] else FirstOrdinal(lease)
  }

  /** The run parses page number `k`: all pages before it were packaged. */
  predicate Reaches(handler: Handler, env: Environment, lease: Lease, log: Log, k: nat) {
    && lease.parserProfile == handler.parserProfile
    && lease.mediaType in handler.mediaTypes
    && (k == 0 ||
        match ParsePage(handler, env, FirstOrdinal(lease), None)
        case Failure(_) => false
        case Success(first) =>
          FirstIsRequested(lease, first);
          var ordinals := Requested(lease, first.source.totalPages);
          k < |ordinals| && HandlePages(handler, env, first, ordinals, k, log).Done?)
  }

  lemma ParseFault(handler: Handler, env: Environment, ordinal: int, baseline: Option<Source>)
    ensures var parsed := ParsePage(handler, env, ordinal, baseline);
      parsed.Failure? && Bare(parsed.error) <==> ParsesBare(handler, env, ordinal)
  {
  }

  lemma MappedIsNotBare()
    ensures forall code, retryable :: !Bare(TaskFault(code, retryable))
    ensures forall fault :: !Bare(MapFault(fault))
  {
  }

  /** The parse of some page before number `n` was reached and is bare. */
  ghost predicate BareBefore(handler: Handler, env: Environment, first: RawDocument, ordinals: seq<int>, n: nat,
                             log: Log)
    requires 1 <= n <= |ordinals| && PageOrdinals(first) == [ordinals[0]]
  {
    exists k :: 1 <= k < n && HandlePages(handler, env, first, ordinals, k, log).Done?
                && ParsesBare(handler, env, ordinals[k])
  }

  lemma BareBeforeNext(handler: Handler, env: Environment, first: RawDocument, ordinals: seq<int>, n: nat, log: Log)
    requires 1 < n <= |ordinals| && PageOrdinals(first) == [ordinals[0]]
    ensures BareBefore(handler, env, first, ordinals, n, log) <==>
      BareBefore(handler, env, first, ordinals, n - 1, log)
      || (HandlePages(handler, env, first, ordinals, n - 1, log).Done? && ParsesBare(handler, env, ordinals[n - 1]))
  {
    hide HandlePages, ParsesBare;
  }

  lemma NothingBefore(handler: Handler, env: Environment, first: RawDocument, ordinals: seq<int>, log: Log)
    requires ordinals != [] && PageOrdinals(first) == [ordinals[0]]
    ensures !BareBefore(handler, env, first, ordinals, 1, log)
  {
  }

  /** Among the first `n` pages: nothing is bare but the parse of a page that was reached. */
  lemma {:induction false} PagesFault(handler: Handler, env: Environment, first: RawDocument, ordinals: seq<int>,
                                      n: nat, log: Log)
    requires 1 <= n <= |ordinals| && PageOrdinals(first) == [ordinals[0]]
    ensures var out := HandlePages(handler, env, first, ordinals, n, log);
      out.Stopped? && Bare(out.fault) <==> BareBefore(handler, env, first, ordinals, n, log)
    ensures HandlePages(handler, env, first, ordinals, n, log).Done? ==>
      !BareBefore(handler, env, first, ordinals, n, log)
    decreases n
  {
    hide PackagePage, ParsesBare, ParsePage, Bare, BareBefore, MapFault;
    MappedIsNotBare();
    if n == 1 {
      NothingBefore(handler, env, first, ordinals, log);
    } else {
      PagesFault(handler, env, first, ordinals, n - 1, log);
      BareBeforeNext(handler, env, first, ordinals, n, log);
      ParseFault(handler, env, ordinals[n - 1], Some(first.source));
    }
  }

  /** A bare exception leaves the handler exactly when a parse that was reached broke with it, or
      refused with a code or summary that the task error does not accept. */
  lemma {:induction false} BareFaultOrigin(handler: Handler, env: Environment, lease: Lease, log: Log)
    ensures var out := Handle(handler, env, lease, log);
      out.Stopped? && Bare(out.fault) <==>
        exists k :: Reaches(handler, env, lease, log, k) && ParsesBare(handler, env, PageAt(env, lease, k))
  {
    hide HandlePages, Finalize, SortOrdinals, Requested, FirstOrdinal, ParsesBare, Bare;
    var parsed := ParsePage(handler, env, FirstOrdinal(lease), None);
    ParseFault(handler, env, FirstOrdinal(lease), None);
    MappedIsNotBare();
    assert PageAt(env, lease, 0) == FirstOrdinal(lease);
    if lease.parserProfile == handler.parserProfile && lease.mediaType in handler.mediaTypes {
      assert Reaches(handler, env, lease, log, 0);
      if parsed.Success? {
        FirstIsRequested(lease, parsed.value);
        var ordinals := Requested(lease, parsed.value.source.totalPages);
        PagesFault(handler, env, parsed.value, ordinals, |ordinals|, log);
        forall k: nat | 1 <= k
          ensures Reaches(handler, env, lease, log, k)
             <==> k < |ordinals| && HandlePages(handler, env, parsed.value, ordinals, k, log).Done?
          ensures k < |ordinals| ==> PageAt(env, lease, k) == ordinals[k]
        {
        }
      }
    }
  }

  /** A parser that never breaks bare and refuses only with what the task error accepts never makes
      the handler raise a bare exception. */
  lemma NoBareFault(handler: Handler, env: Environment, lease: Lease, log: Log)
    requires forall ordinal :: !ParsesBare(handler, env, ordinal)
    ensures var out := Handle(handler, env, lease, log); out.Stopped? ==> !Bare(out.fault)
  {
    hide Reaches, ParsesBare, Handle, Bare, PageAt;
    BareFaultOrigin(handler, env, lease, log);
  }

  /** Two inputs on which it does: a parser that breaks on the first page, and one that refuses it
      with a code that is no identifier. */
  lemma BareFaultExamples(handler: Handler, env: Environment, lease: Lease, log: Log)
    requires lease.parserProfile == handler.parserProfile && lease.mediaType in handler.mediaTypes
    ensures env.parse(FirstOrdinal(lease)) == Broke(OsFault) ==>
      Handle(handler, env, lease, log) == Stopped(OsFault, log)
    ensures env.parse(FirstOrdinal(lease)) == Refused("not an identifier", false) ==>
      Handle(handler, env, lease, log) == Stopped(ValueFault, log)
  {
    hide HandleAll, SortOrdinals, Requested, FirstOrdinal, PageOrdinals;
    assert "not an identifier"[3] == ' ';
  }

  // ---------- The reported codes ----------

  /** Before anything is parsed: the wrong profile or media type. */
  lemma RoutingRefusals(handler: Handler, env: Environment, lease: Lease, log: Log)
    ensures lease.parserProfile != handler.parserProfile ==>
      Handle(handler, env, lease, log) == Stopped(TaskFault("UNSUPPORTED_PARSER_PROFILE", false), log)
    ensures lease.parserProfile == handler.parserProfile && lease.mediaType !in handler.mediaTypes ==>
      Handle(handler, env, lease, log) == Stopped(TaskFault("UNSUPPORTED_MEDIA_TYPE", false), log)
  {
    hide HandleAll, SortOrdinals, Requested, FirstOrdinal;
  }

  /** The codes the task error accepts: upper-case letters, digits and underscores after a letter; the
      environment says which others beyond ASCII. */
  lemma AcceptedCodes(env: Environment, code: string)
    ensures (forall i :: 0 <= i < |code| ==> code[i] as int < 128) ==>
      (AcceptsCode(env, code) <==>
        && code != "" && 'A' <= code[0] <= 'Z'
        && forall i :: 0 <= i < |code| ==> 'A' <= code[i] <= 'Z' || '0' <= code[i] <= '9' || code[i] == '_')
    ensures (exists i :: 0 <= i < |code| && code[i] as int >= 128) ==>
      (AcceptsCode(env, code) <==> env.unicodeCode(code))
  {
    if code != "" && AcceptsCode(env, code) && forall i :: 0 <= i < |code| ==> code[i] as int < 128 {
      assert IsErrorCode(code);
    }
  }

  /** The document holds exactly the page that was asked for. */
  predicate OnePage(doc: RawDocument, ordinal: int) {
    |doc.pages| == 1 && doc.pages[0].ordinal == ordinal
  }

  lemma OnePageMeaning(doc: RawDocument, ordinal: int)
    ensures PageOrdinals(doc) == [ordinal] <==> OnePage(doc, ordinal)
  {
    assert |PageOrdinals(doc)| == |doc.pages|;
    assert |doc.pages| == 1 ==> PageOrdinals(doc) == [doc.pages[0].ordinal];
  }

  /** A parse that is refused with an accepted code is reported with that code and flag, one that
      breaks with what it broke with; the wrong pages are an invalid result, and another document
      than the first page's an inconsistent one. */
  ghost predicate ParseReported(handler: Handler, env: Environment, ordinal: int, baseline: Option<Source>,
                                fault: Fault)
  {
    match env.parse(ordinal)
    case Refused(code, retryable) =>
      AcceptsCode(env, code) && |handler.rejectionSummary| <= 500 ==> fault == TaskFault(code, retryable)
    case Broke(broken) => fault == broken
    case Parsed(doc) =>
      && (!OnePage(doc, ordinal) ==> fault == TaskFault("PARSER_RESULT_INVALID", false))
      && (OnePage(doc, ordinal) ==>
            baseline.Some? && doc.source != baseline.value && fault == TaskFault("PARSER_RESULT_INCONSISTENT", false))
  }

  lemma ParsePageReported(handler: Handler, env: Environment, ordinal: int, baseline: Option<Source>)
    ensures var parsed := ParsePage(handler, env, ordinal, baseline);
      parsed.Failure? ==> ParseReported(handler, env, ordinal, baseline, parsed.error)
    ensures ParsePage(handler, env, ordinal, baseline).Success? <==>
      && env.parse(ordinal).Parsed?
      && OnePage(env.parse(ordinal).doc, ordinal)
      && (baseline.Some? ==> env.parse(ordinal).doc.source == baseline.value)
  {
    hide PageOrdinals;
    if env.parse(ordinal).Parsed? {
      OnePageMeaning(env.parse(ordinal).doc, ordinal);
    }
  }

  lemma FirstParsed(handler: Handler, env: Environment, lease: Lease)
    ensures var parsed := ParsePage(handler, env, FirstOrdinal(lease), None);
      parsed.Success? ==>
        env.parse(FirstOrdinal(lease)) == Parsed(parsed.value) && PageOrdinals(parsed.value) == [FirstOrdinal(lease)]
  {
    hide FirstOrdinal;
  }

  /** A run that reaches page number `k` goes on exactly when the parse gives that page alone, of the
      document of the first page; otherwise it stops there, reported by that parse. */
  lemma {:induction false} ReachedParse(handler: Handler, env: Environment, lease: Lease, log: Log, k: nat)
    requires Reaches(handler, env, lease, log, k)
    ensures var ordinal, parsed := PageAt(env, lease, k), env.parse(PageAt(env, lease, k));
      var baseline := if k == 0 then None else Some(env.parse(FirstOrdinal(lease)).doc.source);
      !(parsed.Parsed? && OnePage(parsed.doc, ordinal) && (baseline.Some? ==> parsed.doc.source == baseline.value)) ==>
        && Handle(handler, env, lease, log).Stopped?
        && ParseReported(handler, env, ordinal, baseline, Handle(handler, env, lease, log).fault)
  {
    hide PackagePage, Finalize, SortOrdinals, Requested, FirstOrdinal, ParsePage, OnePage, ParseReported, MapFault;
    ParsePageReported(handler, env, FirstOrdinal(lease), None);
    if k > 0 {
      var first := ParsePage(handler, env, FirstOrdinal(lease), None).value;
      FirstParsed(handler, env, lease);
      FirstIsRequested(lease, first);
      var ordinals := Requested(lease, first.source.totalPages);
      ParsePageReported(handler, env, ordinals[k], Some(first.source));
      HandledNext(handler, env, first, ordinals, k, log);
      if ParsePage(handler, env, ordinals[k], Some(first.source)).Failure? {
        HandledStay(handler, env, first, ordinals, k + 1, |ordinals|, log);
      }
    }
  }

  // ---------- A refused effect ----------

  /** A run that ends with a refused effect is stopped by that refusal. */
  ghost predicate Blamed<T>(out: Outcome<T>, log: Log) {
    && log <= out.log
    && (out.Done? ==> AllAccepted(out.log[|log|..]))
    && (out.Stopped? && |out.log| > |log| && Last(out.log).reply.Rejected? ==> out.fault == Last(out.log).reply.fault)
  }

  lemma PerformBlamed(env: Environment, log: Log, effect: Effect)
    ensures Blamed(Perform(env, log, effect), log)
  {
    var out := Perform(env, log, effect);
    assert out.log[|log|..] == [out.log[|log|]];
  }

  lemma SameBlamed<T>(out: Outcome<T>, log: Log)
    requires out.log == log
    ensures Blamed(out, log)
  {
  }

  /** What follows an accepted run, or carries on its refusal. */
  lemma ThenBlamed<T, U>(first: Outcome<T>, second: Outcome<U>, log: Log)
    requires Blamed(first, log)
    requires if first.Done? then Blamed(second, first.log) else second == Stopped(first.fault, first.log)
    ensures Blamed(second, log)
  {
    if first.Done? {
      var a, b := first.log[|log|..], second.log[|first.log|..];
      assert second.log[|log|..] == a + b;
      if |second.log| == |first.log| && |second.log| > |log| {
        assert Last(second.log) == a[|a| - 1];
      }
    }
  }

  lemma {:induction false} BlockBlamed(env: Environment, source: Source, page: RawPage, block: RawBlock, raw: Receipt,
                                       done: PackagedAssets, log: Log)
    ensures Blamed(PackageBlock(env, source, page, block, raw, done, log), log)
  {
    hide Blamed;
    var out := PackageBlock(env, source, page, block, raw, done, log);
    var receipt := AssetReceipt(env, page, block, raw, log);
    if out.log == log {
      SameBlamed(out, log);
    } else {
      PerformBlamed(env, log, UploadAsset(page.ordinal, block.readingOrder, block.artifactPath.value));
      if receipt.Done? {
        SameBlamed(out, receipt.log);
      }
      ThenBlamed(receipt, out, log);
    }
  }

  lemma {:induction false} AssetsBlamed(env: Environment, source: Source, page: RawPage, n: nat, raw: Receipt, log: Log)
    requires n <= |page.blocks|
    ensures Blamed(PackageAssets(env, source, page, n, raw, log), log)
    decreases n
  {
    hide Blamed;
    var out := PackageAssets(env, source, page, n, raw, log);
    if n == 0 {
      SameBlamed(out, log);
    } else {
      AssetsBlamed(env, source, page, n - 1, raw, log);
      var before := PackageAssets(env, source, page, n - 1, raw, log);
      if before.Done? {
        BlockBlamed(env, source, page, page.blocks[n - 1], raw, before.value, before.log);
      }
      ThenBlamed(before, out, log);
    }
  }

  lemma {:induction false} FinishBlamed(env: Environment, source: Source, page: RawPage, raw: Receipt,
                                        assets: PackagedAssets, log: Log)
    ensures Blamed(FinishPage(env, source, page, raw, assets, log), log)
  {
    hide Blamed;
    var out := FinishPage(env, source, page, raw, assets, log);
    if out.log == log {
      SameBlamed(out, log);
    } else {
      var quality := env.quality(source.parserProfile, page).value;
      var normalized := Page(page.ordinal, page.sourceKind, source.backend, source.version, raw.artifactRef,
                             page.blocks, assets.ids, quality);
      var upload := Perform(env, log, UploadPage(normalized));
      PerformBlamed(env, log, UploadPage(normalized));
      if upload.Done? {
        var save := SaveCheckpoint(MakeCheckpoint(source, page, quality, upload.value));
        var saved := Perform(env, upload.log, save);
        PerformBlamed(env, upload.log, save);
        if out.log == upload.log {
          SameBlamed(out, upload.log);
        } else {
          if saved.Done? {
            SameBlamed(out, saved.log);
          }
          ThenBlamed(saved, out, upload.log);
        }
      }
      ThenBlamed(upload, out, log);
    }
  }

  lemma {:induction false} PageBlamed(env: Environment, source: Source, page: RawPage, log: Log)
    ensures Blamed(PackagePage(env, source, page, log), log)
  {
    hide Blamed, PackageAssets, FinishPage;
    var out := PackagePage(env, source, page, log);
    if page.ordinal > source.totalPages {
      SameBlamed(out, log);
    } else {
      var raw := Perform(env, log, UploadRaw(source, page));
      PerformBlamed(env, log, UploadRaw(source, page));
      if raw.Done? {
        var assets := PackageAssets(env, source, page, |page.blocks|, raw.value, raw.log);
        AssetsBlamed(env, source, page, |page.blocks|, raw.value, raw.log);
        if assets.Done? {
          FinishBlamed(env, source, page, raw.value, assets.value, assets.log);
        }
        ThenBlamed(assets, out, raw.log);
      }
      ThenBlamed(raw, out, log);
    }
  }

  lemma {:induction false} FinalizeBlamed(env: Environment, source: Source, requested: seq<int>,
                                          packaged: seq<PackagedPage>, log: Log)
    ensures Blamed(Finalize(env, source, requested, packaged, log), log)
  {
    hide Blamed, ValidAttempt, ValidTaskResult, SortOrdinals, FailedOf;
    var out := Finalize(env, source, requested, packaged, log);
    var effect := UploadEnvelope(MakeAttempt(source, SortOrdinals(requested), packaged));
    var upload := Perform(env, log, effect);
    PerformBlamed(env, log, effect);
    if out.log == log {
      SameBlamed(out, log);
    } else {
      if upload.Done? {
        SameBlamed(out, upload.log);
      }
      ThenBlamed(upload, out, log);
    }
  }

  /** How the handler reports a refused effect: a ValueError as an invalid result, an OSError as a
      failed write that may be retried, and any other exception as it is. */
  ghost predicate Reports<T>(out: Outcome<T>, log: Log) {
    && log <= out.log
    && (out.Done? ==> AllAccepted(out.log[|log|..]))
    && (out.Stopped? && |out.log| > |log| && Last(out.log).reply.Rejected? ==>
          match Last(out.log).reply.fault
          case ValueFault => out.fault == TaskFault("PARSER_RESULT_INVALID", false)
          case OsFault => out.fault == TaskFault("ARTIFACT_WRITE_FAILED", true)
          case TaskFault(_, _) => out.fault == Last(out.log).reply.fault
          case OtherFault(_) => out.fault == Last(out.log).reply.fault)
  }

  lemma MappedReports<T>(out: Outcome<T>, log: Log)
    requires Blamed(out, log)
    ensures Reports(MapOutcome(out), log)
  {
  }

  lemma SameReports<T>(out: Outcome<T>, log: Log)
    requires out.log == log
    ensures Reports(out, log)
  {
  }

  lemma ThenReports<T, U>(first: Outcome<T>, second: Outcome<U>, log: Log)
    requires Reports(first, log)
    requires if first.Done? then Reports(second, first.log) else second == Stopped(first.fault, first.log)
    ensures Reports(second, log)
  {
    if first.Done? {
      var a, b := first.log[|log|..], second.log[|first.log|..];
      assert second.log[|log|..] == a + b;
      if |second.log| == |first.log| && |second.log| > |log| {
        assert Last(second.log) == a[|a| - 1];
      }
    }
  }

  lemma {:induction false} PagesReport(handler: Handler, env: Environment, first: RawDocument, ordinals: seq<int>,
                                       n: nat, log: Log)
    requires 1 <= n <= |ordinals| && PageOrdinals(first) == [ordinals[0]]
    ensures Reports(HandlePages(handler, env, first, ordinals, n, log), log)
    decreases n
  {
    hide Reports, Blamed, PackagePage, MapOutcome, ParsePage;
    var out := HandlePages(handler, env, first, ordinals, n, log);
    if n == 1 {
      var page := MapOutcome(PackagePage(env, first.source, first.pages[0], log));
      PageBlamed(env, first.source, first.pages[0], log);
      MappedReports(PackagePage(env, first.source, first.pages[0], log), log);
      if page.Done? {
        SameReports(out, page.log);
      }
      ThenReports(page, out, log);
    } else {
      PagesReport(handler, env, first, ordinals, n - 1, log);
      var before := HandlePages(handler, env, first, ordinals, n - 1, log);
      var parsed := ParsePage(handler, env, ordinals[n - 1], Some(first.source));
      if before.Done? {
        if parsed.Failure? {
          SameReports(out, before.log);
        } else {
          var page := MapOutcome(PackagePage(env, parsed.value.source, parsed.value.pages[0], before.log));
          PageBlamed(env, parsed.value.source, parsed.value.pages[0], before.log);
          MappedReports(PackagePage(env, parsed.value.source, parsed.value.pages[0], before.log), before.log);
          if page.Done? {
            SameReports(out, page.log);
          }
          ThenReports(page, out, before.log);
        }
      }
      ThenReports(before, out, log);
    }
  }

  /** A run of the handler that ends with a refused effect is stopped by it, under its reported name. */
  lemma {:induction false} RefusedEffect(handler: Handler, env: Environment, lease: Lease)
    ensures Reports(Handle(handler, env, lease, []), [])
  {
    hide Reports, Blamed, HandlePages, Finalize, SortOrdinals, Requested, FirstOrdinal, MapOutcome;
    var out, parsed := Handle(handler, env, lease, []), ParsePage(handler, env, FirstOrdinal(lease), None);
    if lease.parserProfile != handler.parserProfile || lease.mediaType !in handler.mediaTypes || parsed.Failure? {
      SameReports(out, []);
    } else {
      var first := parsed.value;
      FirstIsRequested(lease, first);
      var ordinals := Requested(lease, first.source.totalPages);
      PagesReport(handler, env, first, ordinals, |ordinals|, []);
      var pages := HandlePages(handler, env, first, ordinals, |ordinals|, []);
      if pages.Done? {
        FinalizeBlamed(env, first.source, ordinals, pages.value, pages.log);
        MappedReports(Finalize(env, first.source, ordinals, pages.value, pages.log), pages.log);
      }
      ThenReports(pages, out, []);
    }
  }
}
