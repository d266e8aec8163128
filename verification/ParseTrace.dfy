/** What the reporter sees: in every run of the page handler, stopped anywhere or not, the effects
    follow one script. */
module ParseTrace {

  import opened ParseModel
  import opened Sequences
  import opened Wrappers

  /** An effect without its payload. */
  datatype Mark =
    | RawMark(ordinal: int)
    | AssetMark(ordinal: int, readingOrder: nat)
    | PageMark(ordinal: int)
    | CheckpointMark(ordinal: int)
    | EnvelopeMark

  function MarkOf(effect: Effect): Mark {
    match effect
    case UploadRaw(_, page) => RawMark(page.ordinal)
    case UploadAsset(ordinal, order, _) => AssetMark(ordinal, order)
    case UploadPage(page) => PageMark(page.ordinal)
    case SaveCheckpoint(checkpoint) => CheckpointMark(checkpoint.ordinal)
    case UploadEnvelope(_) => EnvelopeMark
  }

  ghost function Marks(log: Log): seq<Mark> {
    seq(|log|, i requires 0 <= i < |log| => MarkOf(log[i].effect))
  }

  ghost predicate AllAccepted(log: Log) {
    forall i :: 0 <= i < |log| ==> log[i].reply.Accepted?
  }

  /** From `log` on, the run performs `script`: all of it, every effect accepted, if it is done;
      a beginning of it if it was stopped, and then only the last effect may have been refused. */
  ghost predicate Follows<T>(out: Outcome<T>, log: Log, script: seq<Mark>) {
    && log <= out.log
    && Marks(out.log[|log|..]) <= script
    && (out.Done? ==> Marks(out.log[|log|..]) == script && AllAccepted(out.log[|log|..]))
    && (out.Stopped? && |out.log| > |log| ==> AllAccepted(Init(out.log)[|log|..]))
  }

  // ---------- Composing runs ----------

  lemma {:induction false} PerformFollows(env: Environment, log: Log, effect: Effect)
    ensures Follows(Perform(env, log, effect), log, [MarkOf(effect)])
  {
    var out := Perform(env, log, effect);
    assert out.log[|log|..] == [out.log[|log|]];
    assert Init(out.log)[|log|..] == [];
  }

  lemma {:induction false} NothingFollows<T>(out: Outcome<T>, log: Log)
    requires out.log == log
    ensures out.Done? ==> Follows(out, log, [])
    ensures out.Stopped? ==> forall script: seq<Mark> :: Follows(out, log, script)
  {
    assert out.log[|log|..] == [];
  }

  /** A stopped first part stops the whole. */
  lemma {:induction false} StoppedFirst<T, U>(first: Outcome<T>, out: Outcome<U>, log: Log, script: seq<Mark>,
                                              rest: seq<Mark>)
    requires Follows(first, log, script) && first.Stopped? && out == Stopped(first.fault, first.log)
    ensures Follows(out, log, script + rest)
  {
  }

  /** A done first part is followed by the second. */
  lemma {:induction false} ThenSecond<T, U>(first: Outcome<T>, second: Outcome<U>, log: Log, script: seq<Mark>,
                                            rest: seq<Mark>)
    requires Follows(first, log, script) && first.Done? && Follows(second, first.log, rest)
    ensures Follows(second, log, script + rest)
  {
    var a, b := first.log[|log|..], second.log[|first.log|..];
    assert second.log[|log|..] == a + b;
    assert Marks(a + b) == Marks(a) + Marks(b);
    if second.Stopped? && |second.log| > |log| {
      if |b| > 0 {
        assert Init(second.log)[|log|..] == a + Init(second.log)[|first.log|..];
      } else {
        assert second.log == first.log && Init(second.log)[|log|..] == Init(a);
      }
    }
  }

  /** The same run with another value or another fault. */
  lemma {:induction false} SameLog<T, U>(first: Outcome<T>, out: Outcome<U>, log: Log, script: seq<Mark>)
    requires Follows(first, log, script) && out.log == first.log && (out.Done? ==> first.Done?)
    requires first.Done? && out.Stopped? ==> AllAccepted(first.log[|log|..])
    ensures Follows(out, log, script)
  {
    if first.Done? && out.Stopped? && |out.log| > |log| {
      assert Init(out.log)[|log|..] == Init(out.log[|log|..]);
    }
  }

  lemma DoneIsAccepted<T>(out: Outcome<T>, log: Log, script: seq<Mark>)
    requires Follows(out, log, script)
    ensures out.Done? ==> |log| <= |out.log| && AllAccepted(out.log[|log|..])
  {
  }

  // ---------- Scripts ----------

  function BlockScript(page: RawPage, block: RawBlock): seq<Mark> {
    if HasAsset(block) && block.artifactPath.Some? then [AssetMark(page.ordinal, block.readingOrder)] else []
  }

  function AssetScript(page: RawPage, n: nat): seq<Mark>
    requires n <= |page.blocks|
  {
    if n == 0 then [] else AssetScript(page, n - 1) + BlockScript(page, page.blocks[n - 1])
  }

  function PageScript(page: RawPage): seq<Mark> {
    [RawMark(page.ordinal)] + AssetScript(page, |page.blocks|) + [PageMark(page.ordinal), CheckpointMark(page.ordinal)]
  }

  lemma {:induction false} BlockFollows(env: Environment, source: Source, page: RawPage, block: RawBlock, raw: Receipt,
                                        done: PackagedAssets, log: Log)
    ensures Follows(PackageBlock(env, source, page, block, raw, done, log), log, BlockScript(page, block))
  {
    hide Follows;
    var out := PackageBlock(env, source, page, block, raw, done, log);
    if HasAsset(block) && block.artifactPath.Some? && env.locate(log, block.artifactPath.value).None? {
      var effect := UploadAsset(page.ordinal, block.readingOrder, block.artifactPath.value);
      PerformFollows(env, log, effect);
      DoneIsAccepted(Perform(env, log, effect), log, [MarkOf(effect)]);
      SameLog(Perform(env, log, effect), out, log, [MarkOf(effect)]);
    } else {
      NothingFollows(out, log);
    }
  }

  lemma {:induction false} AssetsFollow(env: Environment, source: Source, page: RawPage, n: nat, raw: Receipt, log: Log)
    requires n <= |page.blocks|
    ensures Follows(PackageAssets(env, source, page, n, raw, log), log, AssetScript(page, n))
    decreases n
  {
    hide Follows;
    var out := PackageAssets(env, source, page, n, raw, log);
    if n == 0 {
      NothingFollows(out, log);
    } else {
      AssetsFollow(env, source, page, n - 1, raw, log);
      var first := PackageAssets(env, source, page, n - 1, raw, log);
      var rest := BlockScript(page, page.blocks[n - 1]);
      if first.Stopped? {
        StoppedFirst(first, out, log, AssetScript(page, n - 1), rest);
      } else {
        BlockFollows(env, source, page, page.blocks[n - 1], raw, first.value, first.log);
        ThenSecond(first, out, log, AssetScript(page, n - 1), rest);
      }
    }
  }

  lemma FinishNeedsUpload(env: Environment, source: Source, page: RawPage, raw: Receipt, assets: PackagedAssets,
                          log: Log)
    ensures FinishPage(env, source, page, raw, assets, log).log == log ==>
      FinishPage(env, source, page, raw, assets, log).Stopped?
  {
  }

  lemma {:induction false} FinishFollows(env: Environment, source: Source, page: RawPage, raw: Receipt,
                                         assets: PackagedAssets, log: Log)
    ensures Follows(FinishPage(env, source, page, raw, assets, log), log,
                    [PageMark(page.ordinal), CheckpointMark(page.ordinal)])
  {
    hide Follows;
    var out := FinishPage(env, source, page, raw, assets, log);
    var script := [PageMark(page.ordinal), CheckpointMark(page.ordinal)];
    if out.log == log {
      FinishNeedsUpload(env, source, page, raw, assets, log);
      NothingFollows(out, log);
    } else {
      var quality := env.quality(source.parserProfile, page).value;
      var normalized := Page(page.ordinal, page.sourceKind, source.backend, source.version, raw.artifactRef,
                             page.blocks, assets.ids, quality);
      var first := Perform(env, log, UploadPage(normalized));
      PerformFollows(env, log, UploadPage(normalized));
      assert script == [PageMark(page.ordinal)] + [CheckpointMark(page.ordinal)];
      if first.Stopped? {
        StoppedFirst(first, out, log, [PageMark(page.ordinal)], [CheckpointMark(page.ordinal)]);
      } else {
        var checkpoint := MakeCheckpoint(source, page, quality, first.value);
        var second := Perform(env, first.log, SaveCheckpoint(checkpoint));
        PerformFollows(env, first.log, SaveCheckpoint(checkpoint));
        if ValidCheckpoint(checkpoint) {
          DoneIsAccepted(second, first.log, [CheckpointMark(page.ordinal)]);
          SameLog(second, out, first.log, [CheckpointMark(page.ordinal)]);
        } else {
          NothingFollows(out, first.log);
        }
        ThenSecond(first, out, log, [PageMark(page.ordinal)], [CheckpointMark(page.ordinal)]);
      }
    }
  }

  lemma {:induction false} PageFollows(env: Environment, source: Source, page: RawPage, log: Log)
    ensures Follows(PackagePage(env, source, page, log), log, PageScript(page))
  {
    hide Follows, PackageAssets, FinishPage, AssetScript;
    var out := PackagePage(env, source, page, log);
    var effect := UploadRaw(source, page);
    var assets, finish := AssetScript(page, |page.blocks|), [PageMark(page.ordinal), CheckpointMark(page.ordinal)];
    if page.ordinal > source.totalPages {
      NothingFollows(out, log);
    } else {
      var first := Perform(env, log, effect);
      PerformFollows(env, log, effect);
      if first.Stopped? {
        StoppedFirst(first, out, log, [MarkOf(effect)], assets + finish);
        assert [MarkOf(effect)] + (assets + finish) == PageScript(page);
      } else {
        var second := PackageAssets(env, source, page, |page.blocks|, first.value, first.log);
        AssetsFollow(env, source, page, |page.blocks|, first.value, first.log);
        ThenSecond(first, second, log, [MarkOf(effect)], assets);
        if second.Stopped? {
          StoppedFirst(second, out, log, [MarkOf(effect)] + assets, finish);
        } else {
          FinishFollows(env, source, page, first.value, second.value, second.log);
          ThenSecond(second, out, log, [MarkOf(effect)] + assets, finish);
        }
      }
    }
  }

  // ---------- The handler's script ----------

  /** The page the parser gives for an ordinal, or an empty one when it gives none. */
  function PageFor(env: Environment, ordinal: int): (page: RawPage)
    ensures page.ordinal == ordinal
  {
    match env.parse(ordinal)
    case Parsed(doc) =>
      if PageOrdinals(doc) == [ordinal] then
        assert PageOrdinals(doc)[0] == doc.pages[0].ordinal;
        doc.pages[0]
      else RawPage(ordinal, "", [])
    case _ => RawPage(ordinal, "", [])
  }

  function PagesScript(env: Environment, ordinals: seq<int>): seq<Mark> {
    if ordinals == [] then [] else PagesScript(env, Init(ordinals)) + PageScript(PageFor(env, Last(ordinals)))
  }

  /** All requested pages one after the other, then the envelope. */
  function FullScript(env: Environment, ordinals: seq<int>): seq<Mark> {
    PagesScript(env, ordinals) + [EnvelopeMark]
  }

  lemma {:induction false} MappedFollows<T>(out: Outcome<T>, log: Log, script: seq<Mark>)
    requires Follows(out, log, script)
    ensures Follows(MapOutcome(out), log, script)
  {
  }

  lemma {:induction false} HandlePagesFollow(handler: Handler, env: Environment, first: RawDocument, ordinals: seq<int>,
                                             n: nat, log: Log)
    requires 1 <= n <= |ordinals| && env.parse(ordinals[0]) == Parsed(first) && PageOrdinals(first) == [ordinals[0]]
    ensures Follows(HandlePages(handler, env, first, ordinals, n, log), log, PagesScript(env, ordinals[..n]))
    decreases n
  {
    hide Follows, PackagePage, PageScript;
    var out := HandlePages(handler, env, first, ordinals, n, log);
    assert Init(ordinals[..n]) == ordinals[..n - 1] && Last(ordinals[..n]) == ordinals[n - 1];
    if n == 1 {
      PageFollows(env, first.source, first.pages[0], log);
      var page := MapOutcome(PackagePage(env, first.source, first.pages[0], log));
      MappedFollows(PackagePage(env, first.source, first.pages[0], log), log, PageScript(first.pages[0]));
      DoneIsAccepted(page, log, PageScript(first.pages[0]));
      SameLog(page, out, log, PageScript(first.pages[0]));
      assert ordinals[..0] == [] && [] + PageScript(first.pages[0]) == PageScript(first.pages[0]);
    } else {
      HandlePagesFollow(handler, env, first, ordinals, n - 1, log);
      var before := HandlePages(handler, env, first, ordinals, n - 1, log);
      var script, rest := PagesScript(env, ordinals[..n - 1]), PageScript(PageFor(env, ordinals[n - 1]));
      var parsed := ParsePage(handler, env, ordinals[n - 1], Some(first.source));
      if before.Stopped? {
        StoppedFirst(before, out, log, script, rest);
      } else {
        if parsed.Failure? {
          NothingFollows(out, before.log);
        } else {
          PageFollows(env, parsed.value.source, parsed.value.pages[0], before.log);
          var page := MapOutcome(PackagePage(env, parsed.value.source, parsed.value.pages[0], before.log));
          MappedFollows(PackagePage(env, parsed.value.source, parsed.value.pages[0], before.log), before.log, rest);
          DoneIsAccepted(page, before.log, rest);
          SameLog(page, out, before.log, rest);
        }
        ThenSecond(before, out, log, script, rest);
      }
    }
  }

  lemma {:induction false} FinalizeFollows(env: Environment, source: Source, requested: seq<int>,
                                           packaged: seq<PackagedPage>, log: Log)
    ensures Follows(Finalize(env, source, requested, packaged, log), log, [EnvelopeMark])
  {
    hide Follows, ValidAttempt, ValidTaskResult;
    var out := Finalize(env, source, requested, packaged, log);
    var effect := UploadEnvelope(MakeAttempt(source, SortOrdinals(requested), packaged));
    var upload := Perform(env, log, effect);
    PerformFollows(env, log, effect);
    if out.log == log {
      NothingFollows(out, log);
    } else {
      DoneIsAccepted(upload, log, [EnvelopeMark]);
      SameLog(upload, out, log, [EnvelopeMark]);
    }
  }

  /** The pages a lease asks for: those it lists, sorted, or all pages the parser counts. */
  function RequestedOf(env: Environment, lease: Lease): seq<int> {
    match env.parse(FirstOrdinal(lease))
    case Parsed(doc) => Requested(lease, doc.source.totalPages)
    case _ => SortOrdinals(lease.requestedPages)
  }

  /** Every run performs the full script or, when stopped, a beginning of it whose last effect
      alone may have been refused. */
  lemma {:induction false} HandleFollows(handler: Handler, env: Environment, lease: Lease, log: Log)
    ensures Follows(Handle(handler, env, lease, log), log, FullScript(env, RequestedOf(env, lease)))
  {
    hide Follows, Finalize, HandlePages, PagesScript, SortOrdinals, Requested, FirstOrdinal;
    var out := Handle(handler, env, lease, log);
    var ordinals := RequestedOf(env, lease);
    if lease.parserProfile != handler.parserProfile || lease.mediaType !in handler.mediaTypes
       || ParsePage(handler, env, FirstOrdinal(lease), None).Failure? {
      NothingFollows(out, log);
    } else {
      var first := ParsePage(handler, env, FirstOrdinal(lease), None).value;
      FirstIsRequested(lease, first);
      HandlePagesFollow(handler, env, first, ordinals, |ordinals|, log);
      assert ordinals[..|ordinals|] == ordinals;
      var pages := HandlePages(handler, env, first, ordinals, |ordinals|, log);
      if pages.Stopped? {
        StoppedFirst(pages, out, log, PagesScript(env, ordinals), [EnvelopeMark]);
      } else {
        FinalizeFollows(env, first.source, ordinals, pages.value, pages.log);
        MappedFollows(Finalize(env, first.source, ordinals, pages.value, pages.log), pages.log, [EnvelopeMark]);
        ThenSecond(pages, out, log, PagesScript(env, ordinals), [EnvelopeMark]);
      }
    }
  }

  // ---------- What the script says ----------

  function CheckpointsIn(marks: seq<Mark>): seq<int> {
    if marks == [] then []
    else CheckpointsIn(Init(marks)) + if Last(marks).CheckpointMark? then [Last(marks).ordinal] else []
  }

  lemma {:induction false} CheckpointsConcat(a: seq<Mark>, b: seq<Mark>)
    ensures CheckpointsIn(a + b) == CheckpointsIn(a) + CheckpointsIn(b)
    decreases |b|
  {
    if b == [] {
      assert a + b == a;
    } else {
      assert Init(a + b) == a + Init(b);
      CheckpointsConcat(a, Init(b));
    }
  }

  lemma {:induction false} AssetMarks(page: RawPage, n: nat)
    requires n <= |page.blocks|
    ensures forall i :: 0 <= i < |AssetScript(page, n)| ==> AssetScript(page, n)[i].AssetMark?
    decreases n
  {
    if n == 0 {
    } else {
      AssetMarks(page, n - 1);
    }
  }

  lemma {:induction false} NoCheckpoints(marks: seq<Mark>)
    requires forall i :: 0 <= i < |marks| ==> !marks[i].CheckpointMark?
    ensures CheckpointsIn(marks) == []
    decreases |marks|
  {
    if marks == [] {
    } else {
      NoCheckpoints(Init(marks));
    }
  }

  lemma SmallCheckpoints(ordinal: int)
    ensures CheckpointsIn([RawMark(ordinal)]) == [] && CheckpointsIn([EnvelopeMark]) == []
    ensures CheckpointsIn([PageMark(ordinal), CheckpointMark(ordinal)]) == [ordinal]
  {
    assert Init([PageMark(ordinal), CheckpointMark(ordinal)]) == [PageMark(ordinal)] && Init([PageMark(ordinal)]) == [];
  }

  lemma {:induction false} PageCheckpoints(page: RawPage)
    ensures CheckpointsIn(PageScript(page)) == [page.ordinal]
  {
    hide CheckpointsIn;
    var assets := AssetScript(page, |page.blocks|);
    AssetMarks(page, |page.blocks|);
    NoCheckpoints(assets);
    CheckpointsConcat([RawMark(page.ordinal)] + assets, [PageMark(page.ordinal), CheckpointMark(page.ordinal)]);
    CheckpointsConcat([RawMark(page.ordinal)], assets);
    SmallCheckpoints(page.ordinal);
  }

  lemma {:induction false} ScriptCheckpoints(env: Environment, ordinals: seq<int>)
    ensures CheckpointsIn(PagesScript(env, ordinals)) == ordinals
    decreases |ordinals|
  {
    if ordinals == [] {
    } else {
      ScriptCheckpoints(env, Init(ordinals));
      hide CheckpointsIn;
      CheckpointsConcat(PagesScript(env, Init(ordinals)), PageScript(PageFor(env, Last(ordinals))));
      PageCheckpoints(PageFor(env, Last(ordinals)));
    }
  }

  lemma {:induction false} CheckpointsPrefix(a: seq<Mark>, b: seq<Mark>)
    requires a <= b
    ensures CheckpointsIn(a) <= CheckpointsIn(b)
  {
    assert b == a + b[|a|..];
    CheckpointsConcat(a, b[|a|..]);
  }

  /** The mark stands before position `i`. */
  ghost predicate Before(marks: seq<Mark>, i: int, mark: Mark) {
    exists j :: 0 <= j < i && j < |marks| && marks[j] == mark
  }

  /** Every checkpoint comes after the raw upload and the page upload of the same page. */
  ghost predicate WellOrdered(marks: seq<Mark>) {
    forall i :: 0 <= i < |marks| && marks[i].CheckpointMark? ==>
      Before(marks, i, RawMark(marks[i].ordinal)) && Before(marks, i, PageMark(marks[i].ordinal))
  }

  lemma WellOrderedConcat(a: seq<Mark>, b: seq<Mark>)
    requires WellOrdered(a) && WellOrdered(b)
    ensures WellOrdered(a + b)
  {
    var all := a + b;
    forall i, mark | 0 <= i < |a| && Before(a, i, mark) ensures Before(all, i, mark) {
      var j :| 0 <= j < i && j < |a| && a[j] == mark;
      assert all[j] == mark;
    }
    forall i, mark | 0 <= i < |b| && Before(b, i, mark) ensures Before(all, |a| + i, mark) {
      var j :| 0 <= j < i && j < |b| && b[j] == mark;
      assert all[|a| + j] == mark;
    }
    forall i | 0 <= i < |all| && all[i].CheckpointMark?
      ensures Before(all, i, RawMark(all[i].ordinal)) && Before(all, i, PageMark(all[i].ordinal))
    {
      if i < |a| {
        assert a[i] == all[i];
      } else {
        assert b[i - |a|] == all[i] && all[i] == all[|a| + (i - |a|)];
      }
    }
  }

  lemma PageWellOrdered(ordinal: int, assets: seq<Mark>)
    requires forall i :: 0 <= i < |assets| ==> assets[i].AssetMark?
    ensures WellOrdered([RawMark(ordinal)] + assets + [PageMark(ordinal), CheckpointMark(ordinal)])
  {
    var script, n := [RawMark(ordinal)] + assets + [PageMark(ordinal), CheckpointMark(ordinal)], |assets|;
    assert forall i :: 1 <= i <= n ==> script[i] == assets[i - 1];
    assert script[0] == RawMark(ordinal) && script[n + 1] == PageMark(ordinal);
    assert Before(script, n + 2, RawMark(ordinal)) && Before(script, n + 2, PageMark(ordinal));
  }

  lemma {:induction false} ScriptWellOrdered(env: Environment, ordinals: seq<int>)
    ensures WellOrdered(PagesScript(env, ordinals)) && EnvelopeMark !in PagesScript(env, ordinals)
    decreases |ordinals|
  {
    if ordinals == [] {
    } else {
      ScriptWellOrdered(env, Init(ordinals));
      var page := PageFor(env, Last(ordinals));
      AssetMarks(page, |page.blocks|);
      PageWellOrdered(page.ordinal, AssetScript(page, |page.blocks|));
      hide WellOrdered;
      WellOrderedConcat(PagesScript(env, Init(ordinals)), PageScript(page));
    }
  }

  lemma WellOrderedPrefix(a: seq<Mark>, b: seq<Mark>)
    requires a <= b && WellOrdered(b)
    ensures WellOrdered(a)
  {
    forall i, mark | 0 <= i < |a| && Before(b, i, mark) ensures Before(a, i, mark) {
      var j :| 0 <= j < i && j < |b| && b[j] == mark;
      assert a[j] == mark;
    }
  }

  lemma FollowsFromStart<T>(out: Outcome<T>, script: seq<Mark>)
    requires Follows(out, [], script)
    ensures Marks(out.log) <= script
    ensures forall i :: 0 <= i < |out.log| - 1 ==> out.log[i].reply.Accepted?
  {
    assert out.log[0..] == out.log;
    if out.log != [] {
      assert Init(out.log)[0..] == Init(out.log);
    }
  }

  lemma EnvelopeWellOrdered()
    ensures WellOrdered([EnvelopeMark])
  {
  }

  lemma {:induction false} ScriptSafety(env: Environment, requested: seq<int>, marks: seq<Mark>)
    requires marks <= FullScript(env, requested)
    ensures CheckpointsIn(marks) <= requested && WellOrdered(marks)
    ensures forall i :: 0 <= i < |marks| && marks[i] == EnvelopeMark ==>
      i == |marks| - 1 && CheckpointsIn(marks[..i]) == requested
  {
    hide CheckpointsIn, WellOrdered;
    var pages, full := PagesScript(env, requested), FullScript(env, requested);
    ScriptCheckpoints(env, requested);
    ScriptWellOrdered(env, requested);
    SmallCheckpoints(0);
    CheckpointsConcat(pages, [EnvelopeMark]);
    CheckpointsPrefix(marks, full);
    EnvelopeWellOrdered();
    WellOrderedConcat(pages, [EnvelopeMark]);
    WellOrderedPrefix(marks, full);
    assert forall j :: 0 <= j < |pages| ==> full[j] == pages[j];
    forall i | 0 <= i < |marks| && marks[i] == EnvelopeMark
      ensures i == |marks| - 1 && CheckpointsIn(marks[..i]) == requested
    {
      assert marks[..i] == pages;
    }
  }

  /** In every run from an empty log: the checkpoints are a beginning of the requested pages, in
      order; each follows its page's own uploads; and the envelope, if reached, is the last effect
      and follows the checkpoints of all requested pages.  Only the last effect may be refused. */
  lemma {:induction false} HandleSafety(handler: Handler, env: Environment, lease: Lease)
    ensures var marks := Marks(Handle(handler, env, lease, []).log);
      var requested := RequestedOf(env, lease);
      && CheckpointsIn(marks) <= requested
      && WellOrdered(marks)
      && (forall i :: 0 <= i < |marks| && marks[i] == EnvelopeMark ==>
            i == |marks| - 1 && CheckpointsIn(marks[..i]) == requested)
      && forall i :: 0 <= i < |marks| - 1 ==> Handle(handler, env, lease, []).log[i].reply.Accepted?
  {
    var out, requested := Handle(handler, env, lease, []), RequestedOf(env, lease);
    HandleFollows(handler, env, lease, []);
    assert out.log[0..] == out.log;
    FollowsFromStart(out, FullScript(env, requested));
    hide Handle, Follows, WellOrdered, CheckpointsIn, RequestedOf;
    ScriptSafety(env, requested, Marks(out.log));
  }
}
