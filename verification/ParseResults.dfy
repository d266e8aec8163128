/** What a finished run returns: the validation of the envelope and of the `TaskResult` never
    rejects what the packager built, the failed pages are those checkpointed as failed, and
    handling a document page by page is the same as packaging it at once. */
module ParseResults {

  import opened ParseModel
  import opened ParseTrace
  import opened Sequences
  import opened Sorting
  import opened Wrappers

  // ---------- Sorted requests ----------

  /** Distinct ordinals sort to a strictly increasing list of the same ordinals. */
  lemma {:induction false} SortAscending(ordinals: seq<int>)
    requires Distinct(ordinals)
    ensures StrictlyIncreasing(SortOrdinals(ordinals))
    ensures forall o :: o in SortOrdinals(ordinals) <==> o in ordinals
  {
    hide Sort;
    var sorted := SortOrdinals(ordinals);
    SortIsSorted(ordinals, NoMore);
    forall o ensures o in sorted <==> o in ordinals {
      assert o in sorted <==> o in multiset(sorted);
      assert o in ordinals <==> o in multiset(ordinals);
    }
    forall i, j | 0 <= i < j < |sorted| ensures sorted[i] < sorted[j] {
      assert NoMore(sorted[i], sorted[j]);
      TwiceInMultiset(sorted, i, j);
      OnceInMultiset(ordinals, sorted[i]);
    }
  }

  lemma SortSorted(ordinals: seq<int>)
    requires StrictlyIncreasing(ordinals)
    ensures SortOrdinals(ordinals) == ordinals
  {
    SortKeepsSorted(ordinals, NoMore);
  }

  lemma RequestedAscending(lease: Lease, total: int)
    ensures var requested := Requested(lease, total);
      StrictlyIncreasing(requested) && forall i :: 0 <= i < |requested| ==> requested[i] >= 1
  {
    SortAscending(lease.requestedPages);
    var sorted := SortOrdinals(lease.requestedPages);
    assert forall i :: 0 <= i < |sorted| ==> sorted[i] in sorted;
  }

  // ---------- What a packaged page carries ----------

  ghost predicate AssetFrom(asset: Asset, source: Source, raw: RawPage, rawRef: string, n: nat)
    requires n <= |raw.blocks|
  {
    && asset.ordinal == raw.ordinal == asset.id.ordinal && asset.sourceKind == raw.sourceKind
    && asset.backend == source.backend && asset.version == source.version && asset.rawRef == rawRef
    && exists b :: 0 <= b < n && raw.blocks[b].readingOrder == asset.id.readingOrder
  }

  /** Assets of the first `n` blocks, at most one each. */
  ghost predicate AssetsFrom(assets: seq<Asset>, source: Source, raw: RawPage, rawRef: string, n: nat) {
    && n <= |raw.blocks|
    && (forall i, j :: 0 <= i < j < |assets| ==> assets[i].id != assets[j].id)
    && forall i :: 0 <= i < |assets| ==> AssetFrom(assets[i], source, raw, rawRef, n)
  }

  /** The provenance and identity facts the envelope checks, for one page. */
  ghost predicate PackagedFrom(p: PackagedPage, source: Source, raw: RawPage) {
    && p.page.ordinal == raw.ordinal && p.page.sourceKind == raw.sourceKind && p.page.blocks == raw.blocks
    && p.page.backend == source.backend && p.page.version == source.version
    && AssetsFrom(p.assets, source, raw, p.page.rawRef, |raw.blocks|)
  }

  lemma AssetsMore(assets: seq<Asset>, source: Source, page: RawPage, rawRef: string, n: nat)
    requires n < |page.blocks| && AssetsFrom(assets, source, page, rawRef, n)
    ensures AssetsFrom(assets, source, page, rawRef, n + 1)
  {
    forall i | 0 <= i < |assets| ensures AssetFrom(assets[i], source, page, rawRef, n + 1) {
      assert AssetFrom(assets[i], source, page, rawRef, n);
    }
  }

  lemma AssetsPlus(assets: seq<Asset>, asset: Asset, source: Source, page: RawPage, rawRef: string, n: nat)
    requires n < |page.blocks| && ValidRawPage(page) && AssetsFrom(assets, source, page, rawRef, n)
    requires asset.id == AssetId(page.ordinal, page.blocks[n].readingOrder)
      && AssetFrom(asset, source, page, rawRef, n + 1)
    ensures AssetsFrom(assets + [asset], source, page, rawRef, n + 1)
  {
    AssetsMore(assets, source, page, rawRef, n);
    forall i | 0 <= i < |assets| ensures assets[i].id != asset.id {
      assert AssetFrom(assets[i], source, page, rawRef, n);
      var b :| 0 <= b < n && page.blocks[b].readingOrder == assets[i].id.readingOrder;
    }
  }

  lemma {:induction false} AssetsCarry(env: Environment, source: Source, page: RawPage, n: nat, raw: Receipt, log: Log)
    requires n <= |page.blocks| && ValidRawPage(page)
    ensures var out := PackageAssets(env, source, page, n, raw, log);
      out.Done? ==> AssetsFrom(out.value.assets, source, page, raw.artifactRef, n)
    decreases n
  {
    var out := PackageAssets(env, source, page, n, raw, log);
    if n == 0 || out.Stopped? {
    } else {
      AssetsCarry(env, source, page, n - 1, raw, log);
      var before := PackageAssets(env, source, page, n - 1, raw, log);
      AssetsMore(before.value.assets, source, page, raw.artifactRef, n - 1);
      var block := page.blocks[n - 1];
      if HasAsset(block) {
        var receipt := AssetReceipt(env, page, block, raw, before.log).value;
        var asset := MakeAsset(source, page, block, raw.artifactRef, receipt);
        assert out.value.assets == before.value.assets + [asset];
        AssetsPlus(before.value.assets, asset, source, page, raw.artifactRef, n - 1);
      }
    }
  }

  lemma {:induction false} IssueCodeIsErrorCode(code: string)
    requires IsIssueCode(code)
    ensures IsErrorCode(code)
  {
  }

  /** A packaged page carries its provenance, and its ordinal is within the page count. */
  lemma {:induction false} PageCarries(env: Environment, source: Source, page: RawPage, log: Log)
    requires ValidRawPage(page)
    ensures var out := PackagePage(env, source, page, log);
      out.Done? ==> PackagedFrom(out.value, source, page) && page.ordinal <= source.totalPages
  {
    var out := PackagePage(env, source, page, log);
    if out.Done? {
      var raw := Perform(env, log, UploadRaw(source, page));
      AssetsCarry(env, source, page, |page.blocks|, raw.value, raw.log);
    }
  }

  /** The checkpoint of a packaged page is never refused by its validation. */
  lemma {:induction false} CheckpointValid(source: Source, page: RawPage, quality: Quality, receipt: Receipt)
    requires ValidRawPage(page)
    ensures ValidCheckpoint(MakeCheckpoint(source, page, quality, receipt))
    ensures var c := MakeCheckpoint(source, page, quality, receipt);
      && c.ordinal >= 1 && c.outputSize >= 0
      && (c.failed <==> c.errorCode.Some?)
      && (c.failed ==>
            && c.errorCode.value != "" && 'A' <= c.errorCode.value[0] <= 'Z'
            && forall i :: 0 <= i < |c.errorCode.value| ==>
                 || 'A' <= c.errorCode.value[i] <= 'Z' || '0' <= c.errorCode.value[i] <= '9'
                 || c.errorCode.value[i] == '_')
  {
    if quality.failed {
      IssueCodeIsErrorCode(quality.issues[0]);
    }
  }

  // ---------- All packaged pages ----------

  /** The pages were packaged, in order, from these raw pages. */
  ghost predicate AllFrom(packaged: seq<PackagedPage>, source: Source, raws: seq<RawPage>) {
    && |packaged| == |raws|
    && forall i :: 0 <= i < |packaged| ==>
         ValidRawPage(raws[i]) && raws[i].ordinal <= source.totalPages && PackagedFrom(packaged[i], source, raws[i])
  }

  lemma AllFromAppend(packaged: seq<PackagedPage>, source: Source, raws: seq<RawPage>, page: PackagedPage, raw: RawPage)
    requires AllFrom(packaged, source, raws)
    requires ValidRawPage(raw) && raw.ordinal <= source.totalPages && PackagedFrom(page, source, raw)
    ensures AllFrom(packaged + [page], source, raws + [raw])
  {
  }

  function RawPages(env: Environment, ordinals: seq<int>): (pages: seq<RawPage>)
    ensures |pages| == |ordinals|
    ensures forall i :: 0 <= i < |pages| ==> pages[i].ordinal == ordinals[i]
  {
    seq(|ordinals|, i requires 0 <= i < |ordinals| => PageFor(env, ordinals[i]))
  }

  lemma {:induction false} HandledPages(handler: Handler, env: Environment, first: RawDocument, ordinals: seq<int>,
                                        n: nat, log: Log)
    requires 1 <= n <= |ordinals| && env.parse(ordinals[0]) == Parsed(first) && PageOrdinals(first) == [ordinals[0]]
    ensures var out := HandlePages(handler, env, first, ordinals, n, log);
      out.Done? ==> AllFrom(out.value, first.source, RawPages(env, ordinals[..n]))
    decreases n
  {
    hide PackagePage, PackagedFrom;
    var out := HandlePages(handler, env, first, ordinals, n, log);
    if out.Done? {
      assert ordinals[..n] == ordinals[..n - 1] + [ordinals[n - 1]];
      if n == 1 {
        PageCarries(env, first.source, first.pages[0], log);
      } else {
        HandledPages(handler, env, first, ordinals, n - 1, log);
        var before := HandlePages(handler, env, first, ordinals, n - 1, log);
        var doc := ParsePage(handler, env, ordinals[n - 1], Some(first.source)).value;
        PageCarries(env, doc.source, doc.pages[0], before.log);
        AllFromAppend(before.value, first.source, RawPages(env, ordinals[..n - 1]),
                      PackagePage(env, doc.source, doc.pages[0], before.log).value, doc.pages[0]);
        assert RawPages(env, ordinals[..n]) == RawPages(env, ordinals[..n - 1]) + [doc.pages[0]];
      }
    }
  }

  // ---------- The envelope is accepted ----------

  /** The asset belongs to one of the packaged pages. */
  ghost predicate AssetOfSome(asset: Asset, packaged: seq<PackagedPage>, source: Source, raws: seq<RawPage>)
    requires |packaged| == |raws|
  {
    exists k :: 0 <= k < |raws| && AssetFrom(asset, source, raws[k], packaged[k].page.rawRef, |raws[k].blocks|)
  }

  /** No two assets share an identifier, and each belongs to one of the pages. */
  ghost predicate Accepted(assets: seq<Asset>, packaged: seq<PackagedPage>, source: Source, raws: seq<RawPage>)
    requires |packaged| == |raws|
  {
    && (forall i, j :: 0 <= i < j < |assets| ==> assets[i].id != assets[j].id)
    && forall i :: 0 <= i < |assets| ==> AssetOfSome(assets[i], packaged, source, raws)
  }

  lemma AcceptedConcat(before: seq<Asset>, more: seq<Asset>, packaged: seq<PackagedPage>, source: Source,
                       raws: seq<RawPage>, o: int)
    requires |packaged| == |raws| && Accepted(before, packaged, source, raws) && Accepted(more, packaged, source, raws)
    requires forall i :: 0 <= i < |before| ==> before[i].id.ordinal < o
    requires forall i :: 0 <= i < |more| ==> more[i].id.ordinal == o
    ensures Accepted(before + more, packaged, source, raws)
  {
    hide AssetOfSome;
  }

  lemma OfSomeFront(asset: Asset, packaged: seq<PackagedPage>, source: Source, raws: seq<RawPage>)
    requires packaged != [] && AllFrom(packaged, source, raws) && StrictlyIncreasing(OrdinalsOf(packaged))
    requires AssetOfSome(asset, Init(packaged), source, Init(raws))
    ensures AssetOfSome(asset, packaged, source, raws) && asset.id.ordinal < Last(raws).ordinal
  {
    var fronts, pages, last := Init(raws), Init(packaged), |raws| - 1;
    var k :| 0 <= k < |fronts| && AssetFrom(asset, source, fronts[k], pages[k].page.rawRef, |fronts[k].blocks|);
    assert AssetFrom(asset, source, raws[k], packaged[k].page.rawRef, |raws[k].blocks|);
    assert PackagedFrom(packaged[k], source, raws[k]) && PackagedFrom(packaged[last], source, raws[last]);
    assert OrdinalsOf(packaged)[k] < OrdinalsOf(packaged)[last];
  }

  lemma FrontAccepted(before: seq<Asset>, packaged: seq<PackagedPage>, source: Source, raws: seq<RawPage>)
    requires packaged != [] && AllFrom(packaged, source, raws) && StrictlyIncreasing(OrdinalsOf(packaged))
    requires Accepted(before, Init(packaged), source, Init(raws))
    ensures Accepted(before, packaged, source, raws)
    ensures forall i :: 0 <= i < |before| ==> before[i].id.ordinal < Last(raws).ordinal
  {
    hide AssetFrom;
    forall i | 0 <= i < |before|
      ensures AssetOfSome(before[i], packaged, source, raws) && before[i].id.ordinal < Last(raws).ordinal
    {
      assert AssetOfSome(before[i], Init(packaged), source, Init(raws));
      OfSomeFront(before[i], packaged, source, raws);
    }
  }

  lemma LastAccepted(packaged: seq<PackagedPage>, source: Source, raws: seq<RawPage>)
    requires packaged != [] && AllFrom(packaged, source, raws)
    ensures Accepted(Last(packaged).assets, packaged, source, raws)
    ensures forall i :: 0 <= i < |Last(packaged).assets| ==> Last(packaged).assets[i].id.ordinal == Last(raws).ordinal
  {
    var last := |raws| - 1;
    var more, raw, ref := packaged[last].assets, raws[last], packaged[last].page.rawRef;
    assert PackagedFrom(packaged[last], source, raws[last]);
    forall i | 0 <= i < |more|
      ensures AssetOfSome(more[i], packaged, source, raws) && more[i].id.ordinal == raw.ordinal
    {
      assert AssetFrom(more[i], source, raws[last], packaged[last].page.rawRef, |raws[last].blocks|);
    }
  }

  lemma {:induction false} AssetsAccepted(packaged: seq<PackagedPage>, source: Source, raws: seq<RawPage>)
    requires AllFrom(packaged, source, raws) && StrictlyIncreasing(OrdinalsOf(packaged))
    ensures Accepted(AssetsOf(packaged), packaged, source, raws)
    decreases |packaged|
  {
    if packaged == [] {
    } else {
      assert AssetsOf(packaged) == AssetsOf(Init(packaged)) + Last(packaged).assets;
      hide AssetsOf, Accepted;
      assert OrdinalsOf(Init(packaged)) == Init(OrdinalsOf(packaged));
      assert AllFrom(Init(packaged), source, Init(raws));
      AssetsAccepted(Init(packaged), source, Init(raws));
      FrontAccepted(AssetsOf(Init(packaged)), packaged, source, raws);
      LastAccepted(packaged, source, raws);
      AcceptedConcat(AssetsOf(Init(packaged)), Last(packaged).assets, packaged, source, raws, Last(raws).ordinal);
    }
  }

  lemma {:induction false} BlocksAccepted(packaged: seq<PackagedPage>, source: Source, raws: seq<RawPage>)
    requires AllFrom(packaged, source, raws) && StrictlyIncreasing(OrdinalsOf(packaged))
    ensures DistinctBlocks(PagesOf(packaged))
  {
    var pages := PagesOf(packaged);
    forall p | 0 <= p < |pages| ensures pages[p].blocks == raws[p].blocks && ValidRawPage(raws[p]) {
      assert PackagedFrom(packaged[p], source, raws[p]);
    }
    forall p, q | 0 <= p < q < |pages| ensures pages[p].ordinal != pages[q].ordinal {
      assert OrdinalsOf(packaged)[p] < OrdinalsOf(packaged)[q];
    }
  }

  lemma AssetFitsAttempt(asset: Asset, packaged: seq<PackagedPage>, source: Source, raws: seq<RawPage>)
    requires AllFrom(packaged, source, raws) && StrictlyIncreasing(OrdinalsOf(packaged))
    requires AssetOfSome(asset, packaged, source, raws)
    ensures AssetFits(asset, MakeAttempt(source, OrdinalsOf(packaged), packaged))
  {
    var k :| 0 <= k < |raws| && AssetFrom(asset, source, raws[k], packaged[k].page.rawRef, |raws[k].blocks|);
    var ordinals, pages := OrdinalsOf(packaged), PagesOf(packaged);
    assert PackagedFrom(packaged[k], source, raws[k]);
    assert ordinals[k] == asset.ordinal;
    forall i | 0 <= i < |pages| && pages[i].ordinal == asset.ordinal ensures i == k {
      assert ordinals[i] == pages[i].ordinal;
    }
  }

  lemma {:induction false} EnvelopeAccepted(packaged: seq<PackagedPage>, source: Source, raws: seq<RawPage>)
    requires packaged != [] && AllFrom(packaged, source, raws) && StrictlyIncreasing(OrdinalsOf(packaged))
    ensures ValidAttempt(MakeAttempt(source, OrdinalsOf(packaged), packaged))
  {
    var ordinals, attempt := OrdinalsOf(packaged), MakeAttempt(source, OrdinalsOf(packaged), packaged);
    AssetsAccepted(packaged, source, raws);
    BlocksAccepted(packaged, source, raws);
    hide DistinctBlocks, AssetsOf;
    forall i | 0 <= i < |packaged|
      ensures 1 <= ordinals[i] <= source.totalPages
      ensures attempt.pages[i].backend == source.backend && attempt.pages[i].version == source.version
    {
      assert PackagedFrom(packaged[i], source, raws[i]) && ValidRawPage(raws[i]);
    }
    hide AssetOfSome, AssetFits;
    assert attempt.assets == AssetsOf(packaged);
    forall i | 0 <= i < |attempt.assets| ensures AssetFits(attempt.assets[i], attempt) {
      assert AssetOfSome(attempt.assets[i], packaged, source, raws);
      AssetFitsAttempt(attempt.assets[i], packaged, source, raws);
    }
    assert source.totalPages > 0 by { assert 1 <= ordinals[0] <= source.totalPages; }
  }

  // ---------- Failed pages ----------

  lemma {:induction false} FailedAscending(packaged: seq<PackagedPage>)
    requires StrictlyIncreasing(OrdinalsOf(packaged))
    ensures StrictlyIncreasing(FailedOf(packaged))
    ensures forall o :: o in FailedOf(packaged) ==> o in OrdinalsOf(packaged)
    decreases |packaged|
  {
    if packaged == [] {
    } else {
      var front, ordinals := Init(packaged), OrdinalsOf(packaged);
      assert OrdinalsOf(front) == Init(ordinals);
      FailedAscending(front);
      assert ordinals == Init(ordinals) + [Last(packaged).page.ordinal];
      forall i | 0 <= i < |FailedOf(front)| ensures FailedOf(front)[i] < Last(ordinals) {
        assert FailedOf(front)[i] in FailedOf(front);
        assert FailedOf(front)[i] in Init(ordinals);
      }
    }
  }

  /** The ordinals of the pages checkpointed as failed. */
  function FailedIn(log: Log): seq<int> {
    if log == [] then []
    else
      var effect := Last(log).effect;
      FailedIn(Init(log)) +
        if effect.SaveCheckpoint? && effect.checkpoint.failed then [effect.checkpoint.ordinal] else []
  }

  lemma {:induction false} FailedAppend(log: Log, entry: Entry)
    ensures FailedIn(log + [entry]) == FailedIn(log)
      + if entry.effect.SaveCheckpoint? && entry.effect.checkpoint.failed then [entry.effect.checkpoint.ordinal] else []
  {
    assert Init(log + [entry]) == log;
  }

  lemma {:induction false} AssetsSaveNothing(env: Environment, source: Source, page: RawPage, n: nat, raw: Receipt,
                                             log: Log)
    requires n <= |page.blocks|
    ensures FailedIn(PackageAssets(env, source, page, n, raw, log).log) == FailedIn(log)
    decreases n
  {
    hide FailedIn;
    if n == 0 {
    } else {
      AssetsSaveNothing(env, source, page, n - 1, raw, log);
      var before := PackageAssets(env, source, page, n - 1, raw, log);
      var block := page.blocks[n - 1];
      if block.artifactPath.Some? {
        var effect := UploadAsset(page.ordinal, block.readingOrder, block.artifactPath.value);
        FailedAppend(before.log, Entry(effect, env.respond(before.log, effect)));
        assert FailedIn(before.log) + [] == FailedIn(before.log);
      }
    }
  }

  lemma {:induction false} FinishSaves(env: Environment, source: Source, page: RawPage, raw: Receipt,
                                       assets: PackagedAssets, log: Log)
    ensures var out := FinishPage(env, source, page, raw, assets, log);
      out.Done? ==> FailedIn(out.log) == FailedIn(log) + if out.value.failed then [page.ordinal] else []
  {
    hide FailedIn;
    var out := FinishPage(env, source, page, raw, assets, log);
    if out.Done? {
      var quality := env.quality(source.parserProfile, page).value;
      var upload := Perform(env, log, UploadPage(out.value.page));
      var save := SaveCheckpoint(MakeCheckpoint(source, page, quality, upload.value));
      FailedAppend(log, Last(upload.log));
      assert FailedIn(log) + [] == FailedIn(log);
      FailedAppend(upload.log, Last(Perform(env, upload.log, save).log));
    }
  }

  lemma {:induction false} PageSaves(env: Environment, source: Source, page: RawPage, log: Log)
    ensures var out := PackagePage(env, source, page, log);
      out.Done? ==> FailedIn(out.log) == FailedIn(log) + if out.value.failed then [page.ordinal] else []
  {
    hide FailedIn, PackageAssets;
    var out := PackagePage(env, source, page, log);
    if out.Done? {
      var raw := Perform(env, log, UploadRaw(source, page));
      FailedAppend(log, Last(raw.log));
      assert FailedIn(log) + [] == FailedIn(log);
      AssetsSaveNothing(env, source, page, |page.blocks|, raw.value, raw.log);
      var assets := PackageAssets(env, source, page, |page.blocks|, raw.value, raw.log);
      FinishSaves(env, source, page, raw.value, assets.value, assets.log);
    }
  }

  lemma {:induction false} PageOrdinal(env: Environment, source: Source, page: RawPage, log: Log)
    ensures var out := PackagePage(env, source, page, log); out.Done? ==> out.value.page.ordinal == page.ordinal
  {
  }

  lemma {:induction false} HandledSaves(handler: Handler, env: Environment, first: RawDocument, ordinals: seq<int>,
                                        n: nat, log: Log)
    requires 1 <= n <= |ordinals| && PageOrdinals(first) == [ordinals[0]]
    ensures var out := HandlePages(handler, env, first, ordinals, n, log);
      out.Done? ==> FailedIn(out.log) == FailedIn(log) + FailedOf(out.value) && OrdinalsOf(out.value) == ordinals[..n]
    decreases n
  {
    hide FailedIn, PackagePage, MapFault;
    var out := HandlePages(handler, env, first, ordinals, n, log);
    if out.Done? {
      var front, last := Init(out.value), Last(out.value);
      assert ordinals[..n] == ordinals[..n - 1] + [ordinals[n - 1]];
      if n == 1 {
        PageSaves(env, first.source, first.pages[0], log);
        PageOrdinal(env, first.source, first.pages[0], log);
        assert PageOrdinals(first)[0] == first.pages[0].ordinal;
        assert FailedOf(front) == [] && FailedOf(out.value) == [] + if last.failed then [last.page.ordinal] else [];
      } else {
        HandledSaves(handler, env, first, ordinals, n - 1, log);
        var before := HandlePages(handler, env, first, ordinals, n - 1, log);
        var doc := ParsePage(handler, env, ordinals[n - 1], Some(first.source)).value;
        assert PageOrdinals(doc)[0] == doc.pages[0].ordinal;
        PageSaves(env, doc.source, doc.pages[0], before.log);
        PageOrdinal(env, doc.source, doc.pages[0], before.log);
        assert front == before.value;
        assert OrdinalsOf(out.value) == OrdinalsOf(front) + [last.page.ordinal];
      }
    }
  }

  // ---------- Main results ----------

  lemma {:induction false} FailedWithin(packaged: seq<PackagedPage>, source: Source, raws: seq<RawPage>)
    requires packaged != [] && AllFrom(packaged, source, raws) && StrictlyIncreasing(OrdinalsOf(packaged))
    ensures StrictlyIncreasing(FailedOf(packaged)) && source.totalPages >= 0
    ensures forall i :: 0 <= i < |FailedOf(packaged)| ==> 1 <= FailedOf(packaged)[i] <= source.totalPages
  {
    FailedAscending(packaged);
    var failed, ordinals := FailedOf(packaged), OrdinalsOf(packaged);
    forall i | 0 <= i < |ordinals| ensures 1 <= ordinals[i] <= source.totalPages {
      assert PackagedFrom(packaged[i], source, raws[i]) && ValidRawPage(raws[i]);
    }
    forall i | 0 <= i < |failed| ensures 1 <= failed[i] <= source.totalPages {
      assert failed[i] in failed;
      assert failed[i] in ordinals;
    }
    assert 1 <= ordinals[0] <= source.totalPages;
  }

  /** When every page is packaged, only the upload of the envelope can still fail: neither the
      coverage checks nor the validation of the envelope or of the `TaskResult` refuses anything. */
  lemma {:induction false} FinalizeAccepts(env: Environment, source: Source, requested: seq<int>,
                                           packaged: seq<PackagedPage>, raws: seq<RawPage>, log: Log)
    requires requested != [] && StrictlyIncreasing(requested) && requested == OrdinalsOf(packaged)
    requires AllFrom(packaged, source, raws)
    ensures var upload := Perform(env, log, UploadEnvelope(MakeAttempt(source, requested, packaged)));
      Finalize(env, source, requested, packaged, log)
      == if upload.Stopped? then Stopped(upload.fault, upload.log)
         else Done(TaskResult(upload.value.artifactRef, upload.value.sha256, upload.value.sizeBytes, source.totalPages,
                              FailedOf(packaged)), upload.log)
  {
    hide ValidAttempt, SortOrdinals, AllFrom;
    SortSorted(requested);
    EnvelopeAccepted(packaged, source, raws);
    FailedWithin(packaged, source, raws);
  }

  lemma {:induction false} FinalizeSaves(env: Environment, source: Source, requested: seq<int>,
                                         packaged: seq<PackagedPage>, log: Log)
    ensures var out := Finalize(env, source, requested, packaged, log);
      out.Done? ==>
        out.value.failedPages == FailedOf(packaged) && FailedIn(out.log) == FailedIn(log) && ValidTaskResult(out.value)
  {
    hide FailedIn, ValidAttempt, ValidTaskResult, FailedOf, SortOrdinals;
    var attempt := MakeAttempt(source, SortOrdinals(requested), packaged);
    FailedAppend(log, Last(Perform(env, log, UploadEnvelope(attempt)).log));
    assert FailedIn(log) + [] == FailedIn(log);
  }

  /** The parts of a finished run. */
  lemma {:induction false} DoneRun(handler: Handler, env: Environment, lease: Lease, log: Log)
    returns (first: RawDocument, ordinals: seq<int>)
    requires Handle(handler, env, lease, log).Done?
    ensures env.parse(FirstOrdinal(lease)) == Parsed(first) && ordinals == Requested(lease, first.source.totalPages)
    ensures ordinals != [] && ordinals[0] == FirstOrdinal(lease) && PageOrdinals(first) == [ordinals[0]]
    ensures var pages := HandlePages(handler, env, first, ordinals, |ordinals|, log);
      && pages.Done?
      && Finalize(env, first.source, ordinals, pages.value, pages.log) == Handle(handler, env, lease, log)
  {
    hide HandlePages, Finalize, SortOrdinals, Requested, FirstOrdinal;
    first := ParsePage(handler, env, FirstOrdinal(lease), None).value;
    ordinals := Requested(lease, first.source.totalPages);
    FirstIsRequested(lease, first);
  }

  lemma ResultWithin(result: TaskResult)
    requires ValidTaskResult(result)
    ensures forall i :: 0 <= i < |result.failedPages| ==> 1 <= result.failedPages[i] <= result.pageCount
  {
  }

  lemma NothingFailed()
    ensures FailedIn([]) == []
  {
  }

  /** The failed pages of a finished run are exactly the pages checkpointed as failed, in
      ascending order and within the page count; the result passes its own validation. */
  lemma {:induction false} ResultMatchesLog(handler: Handler, env: Environment, lease: Lease)
    requires Handle(handler, env, lease, []).Done?
    ensures var out := Handle(handler, env, lease, []);
      && out.value.failedPages == FailedIn(out.log)
      && StrictlyIncreasing(out.value.failedPages)
      && ValidTaskResult(out.value)
      && forall i :: 0 <= i < |out.value.failedPages| ==> 1 <= out.value.failedPages[i] <= out.value.pageCount
  {
    hide FailedIn, HandlePages, Finalize, FailedOf, Handle, Requested, ValidTaskResult, SortOrdinals;
    var first, ordinals := DoneRun(handler, env, lease, []);
    var pages := HandlePages(handler, env, first, ordinals, |ordinals|, []);
    RequestedAscending(lease, first.source.totalPages);
    assert ordinals[..|ordinals|] == ordinals;
    HandledSaves(handler, env, first, ordinals, |ordinals|, []);
    FailedAscending(pages.value);
    FinalizeSaves(env, first.source, ordinals, pages.value, pages.log);
    ResultWithin(Handle(handler, env, lease, []).value);
    NothingFailed();
  }

  /** Once all requested pages are packaged, the handler can only be stopped by the upload of the
      envelope: no coverage check and no validation refuses what it built. */
  lemma {:induction false} OnlyUploadStopsEnd(handler: Handler, env: Environment, lease: Lease, first: RawDocument,
                                              ordinals: seq<int>, log: Log)
    requires env.parse(FirstOrdinal(lease)) == Parsed(first) && ordinals == Requested(lease, first.source.totalPages)
    requires ordinals != [] && PageOrdinals(first) == [ordinals[0]] && ordinals[0] == FirstOrdinal(lease)
    requires HandlePages(handler, env, first, ordinals, |ordinals|, log).Done?
    ensures var pages := HandlePages(handler, env, first, ordinals, |ordinals|, log);
      var upload := Perform(env, pages.log, UploadEnvelope(MakeAttempt(first.source, ordinals, pages.value)));
      Finalize(env, first.source, ordinals, pages.value, pages.log)
      == if upload.Stopped? then Stopped(upload.fault, upload.log)
         else Done(TaskResult(upload.value.artifactRef, upload.value.sha256, upload.value.sizeBytes,
                              first.source.totalPages, FailedOf(pages.value)), upload.log)
  {
    hide HandlePages, Finalize, FailedOf, Requested, SortOrdinals, FailedIn, AllFrom;
    var pages := HandlePages(handler, env, first, ordinals, |ordinals|, log);
    RequestedAscending(lease, first.source.totalPages);
    assert ordinals[..|ordinals|] == ordinals;
    HandledPages(handler, env, first, ordinals, |ordinals|, log);
    HandledSaves(handler, env, first, ordinals, |ordinals|, log);
    FinalizeAccepts(env, first.source, ordinals, pages.value, RawPages(env, ordinals), pages.log);
  }

  // ---------- Page by page refines all at once ----------

  /** Parsing one page of the document gives that page alone, with the same source. */
  ghost predicate ParsesSlices(env: Environment, doc: RawDocument) {
    forall i :: 0 <= i < |doc.pages| ==>
      env.parse(doc.pages[i].ordinal) == Parsed(DocumentData(doc.source, [doc.pages[i]]))
  }

  /** The slice for a page is parsed, and its ordinal is that of the document. */
  lemma SliceParsed(handler: Handler, env: Environment, doc: RawDocument, i: nat)
    requires ParsesSlices(env, doc) && i < |doc.pages|
    ensures PageOrdinals(doc)[i] == doc.pages[i].ordinal && |PageOrdinals(doc)| == |doc.pages|
    ensures PageOrdinals(DocumentData(doc.source, [doc.pages[i]])) == [doc.pages[i].ordinal]
    ensures ParsePage(handler, env, doc.pages[i].ordinal, Some(doc.source))
         == Success(DocumentData(doc.source, [doc.pages[i]]))
  {
    var slice := DocumentData(doc.source, [doc.pages[i]]);
    assert PageOrdinals(slice) == [doc.pages[i].ordinal];
  }

  lemma {:induction false} SlicesHandled(handler: Handler, env: Environment, doc: RawDocument, first: RawDocument,
                                         n: nat, log: Log)
    requires ParsesSlices(env, doc) && 1 <= n <= |doc.pages| && first == DocumentData(doc.source, [doc.pages[0]])
    ensures PageOrdinals(first) == [doc.pages[0].ordinal] == PageOrdinals(doc)[..1]
    ensures HandlePages(handler, env, first, PageOrdinals(doc), n, log) == MapOutcome(PackagePages(env, doc, n, log))
    decreases n
  {
    hide PackagePage, ParsePage, PageOrdinals, MapFault, ParsesSlices;
    SliceParsed(handler, env, doc, 0);
    if n == 1 {
      assert PackagePages(env, doc, 0, log) == Done([], log);
      assert forall page: PackagedPage :: [] + [page] == [page];
    } else {
      SlicesHandled(handler, env, doc, first, n - 1, log);
      SliceParsed(handler, env, doc, n - 1);
    }
  }

  /** When the parser yields slices of one document that covers the request, the handler does
      exactly what packaging the whole document does: the same effects in the same order, the same
      result, and, when stopped, the same fault under its reported name. */
  lemma {:induction false} HandlerRefinesAttempt(handler: Handler, env: Environment, doc: RawDocument, lease: Lease,
                                                 log: Log)
    requires lease.parserProfile == handler.parserProfile && lease.mediaType in handler.mediaTypes
    requires ParsesSlices(env, doc) && PageOrdinals(doc) == Requested(lease, doc.source.totalPages)
    ensures Handle(handler, env, lease, log) == MapOutcome(PackageAttempt(env, doc, lease, log))
  {
    hide HandlePages, PackagePages, Finalize, SortOrdinals, Requested, FirstOrdinal;
    var ordinals, first := PageOrdinals(doc), DocumentData(doc.source, [doc.pages[0]]);
    FirstIsRequested(lease, doc);
    RequestedAscending(lease, doc.source.totalPages);
    SortSorted(ordinals);
    SlicesHandled(handler, env, doc, first, |doc.pages|, log);
    assert ordinals[0] == doc.pages[0].ordinal == FirstOrdinal(lease);
    assert PageOrdinals(first) == [ordinals[0]];
    assert ParsePage(handler, env, FirstOrdinal(lease), None) == Success(first);
  }
}
