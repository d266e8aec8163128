/** What a finished run puts into its envelope: the normal form and quality of every raw page it
    uploaded, and one asset for every image, table and formula block, with the receipt of that
    block's own upload. */
module ParseEnvelope {

  import opened ParseLinks
  import opened ParseModel
  import opened ParseResults
  import opened Sequences
  import opened Wrappers

  /** The image, table and formula blocks, in order. */
  function AssetBlocksOf(blocks: seq<RawBlock>): seq<RawBlock> {
    if blocks == [] then []
    else
      AssetBlocksOf(Init(blocks))
      + if Last(blocks).kind in {ImageBlock, TableBlock, FormulaBlock} then [Last(blocks)] else []
  }

  /** The receipt is the answer to the upload of the block's binary, or, for a block without one, of
      the raw page. */
  ghost predicate ReceiptOf(log: Log, receipt: Receipt, source: Source, raw: RawPage, block: RawBlock) {
    exists j :: 0 <= j < |log| && log[j].reply == Accepted(receipt)
      && match block.artifactPath
         case None => log[j].effect == UploadRaw(source, raw)
         case Some(path) => log[j].effect == UploadAsset(raw.ordinal, block.readingOrder, path)
  }

  /** The asset of one block. */
  ghost predicate AssetOf(log: Log, asset: Asset, source: Source, raw: RawPage, rawRef: string, block: RawBlock) {
    && asset.id == AssetId(raw.ordinal, block.readingOrder)
    && asset.kind == block.kind && asset.content == block.content
    && asset.ordinal == raw.ordinal && asset.sourceKind == raw.sourceKind
    && asset.backend == source.backend && asset.version == source.version
    && asset.rawRef == rawRef
    && (asset.metadataOnly <==> block.artifactPath == None)
    && ReceiptOf(log, asset.receipt, source, raw, block)
  }

  /** The assets of these blocks, one for each asset block, in order. */
  ghost predicate AssetsMatch(log: Log, assets: seq<Asset>, source: Source, raw: RawPage, rawRef: string,
                              blocks: seq<RawBlock>)
  {
    && |assets| == |AssetBlocksOf(blocks)|
    && forall k :: 0 <= k < |assets| ==> AssetOf(log, assets[k], source, raw, rawRef, AssetBlocksOf(blocks)[k])
  }

  /** The identifiers filed for these blocks: one for each asset block, under its reading order. */
  ghost predicate IdsMatch(ids: map<nat, AssetId>, ordinal: int, blocks: seq<RawBlock>) {
    forall o ::
      && (o in ids <==> exists k :: 0 <= k < |AssetBlocksOf(blocks)| && AssetBlocksOf(blocks)[k].readingOrder == o)
      && (o in ids ==> ids[o] == AssetId(ordinal, o))
  }

  /** Page and assets of one raw page, as the envelope holds them. */
  ghost predicate Holds(env: Environment, log: Log, source: Source, raw: RawPage, page: Page, assets: seq<Asset>) {
    && Normalizes(env, page, source, raw)
    && RawUploaded(log, |log|, source, raw, page.rawRef)
    && AssetsMatch(log, assets, source, raw, page.rawRef, raw.blocks)
    && IdsMatch(page.assetIds, raw.ordinal, raw.blocks)
  }

  // ---------- Growing logs ----------

  lemma AssetStays(log: Log, longer: Log, asset: Asset, source: Source, raw: RawPage, rawRef: string, block: RawBlock)
    requires log <= longer && AssetOf(log, asset, source, raw, rawRef, block)
    ensures AssetOf(longer, asset, source, raw, rawRef, block)
  {
    var j :| 0 <= j < |log| && log[j].reply == Accepted(asset.receipt)
      && match block.artifactPath
         case None => log[j].effect == UploadRaw(source, raw)
         case Some(path) => log[j].effect == UploadAsset(raw.ordinal, block.readingOrder, path);
    assert longer[j] == log[j];
  }

  lemma AssetsStayMatched(log: Log, longer: Log, assets: seq<Asset>, source: Source, raw: RawPage, rawRef: string,
                          blocks: seq<RawBlock>)
    requires log <= longer && AssetsMatch(log, assets, source, raw, rawRef, blocks)
    ensures AssetsMatch(longer, assets, source, raw, rawRef, blocks)
  {
    hide AssetOf;
    forall k | 0 <= k < |assets| ensures AssetOf(longer, assets[k], source, raw, rawRef, AssetBlocksOf(blocks)[k]) {
      AssetStays(log, longer, assets[k], source, raw, rawRef, AssetBlocksOf(blocks)[k]);
    }
  }

  lemma HoldsStays(env: Environment, log: Log, longer: Log, source: Source, raw: RawPage, page: Page,
                   assets: seq<Asset>)
    requires log <= longer && Holds(env, log, source, raw, page, assets)
    ensures Holds(env, longer, source, raw, page, assets)
  {
    hide AssetsMatch, RawUploaded, Normalizes, IdsMatch;
    AssetsStayMatched(log, longer, assets, source, raw, page.rawRef, raw.blocks);
    RawStays(log, longer, |log|, source, raw, page.rawRef);
  }

  // ---------- One page ----------

  lemma BlocksAppend(blocks: seq<RawBlock>, block: RawBlock)
    ensures AssetBlocksOf(blocks + [block])
         == AssetBlocksOf(blocks) + if block.kind in {ImageBlock, TableBlock, FormulaBlock} then [block] else []
  {
    assert Init(blocks + [block]) == blocks;
  }

  lemma AssetsMatchAppend(log: Log, assets: seq<Asset>, asset: Asset, source: Source, raw: RawPage, rawRef: string,
                          blocks: seq<RawBlock>, block: RawBlock)
    requires AssetsMatch(log, assets, source, raw, rawRef, blocks) && AssetOf(log, asset, source, raw, rawRef, block)
    requires block.kind in {ImageBlock, TableBlock, FormulaBlock}
    ensures AssetsMatch(log, assets + [asset], source, raw, rawRef, blocks + [block])
  {
    hide AssetOf;
    BlocksAppend(blocks, block);
  }

  lemma IdsMatchAppend(ids: map<nat, AssetId>, ordinal: int, blocks: seq<RawBlock>, block: RawBlock)
    requires IdsMatch(ids, ordinal, blocks) && block.kind in {ImageBlock, TableBlock, FormulaBlock}
    ensures IdsMatch(ids[block.readingOrder := AssetId(ordinal, block.readingOrder)], ordinal, blocks + [block])
  {
    BlocksAppend(blocks, block);
    var before, after := AssetBlocksOf(blocks), AssetBlocksOf(blocks + [block]);
    assert after == before + [block];
    assert after[|before|] == block && forall k :: 0 <= k < |before| ==> after[k] == before[k];
  }

  lemma NoAssetBlock(log: Log, done: PackagedAssets, source: Source, page: RawPage, rawRef: string,
                     blocks: seq<RawBlock>, block: RawBlock)
    requires AssetsMatch(log, done.assets, source, page, rawRef, blocks) && IdsMatch(done.ids, page.ordinal, blocks)
    requires block.kind !in {ImageBlock, TableBlock, FormulaBlock}
    ensures AssetsMatch(log, done.assets, source, page, rawRef, blocks + [block])
    ensures IdsMatch(done.ids, page.ordinal, blocks + [block])
  {
    BlocksAppend(blocks, block);
    assert AssetBlocksOf(blocks + [block]) == AssetBlocksOf(blocks);
  }

  lemma ReceiptFound(env: Environment, source: Source, page: RawPage, block: RawBlock, raw: Receipt, log: Log)
    requires ReceiptOf(log, raw, source, page, block.(artifactPath := None))
    ensures var receipt := AssetReceipt(env, page, block, raw, log);
      receipt.Done? ==>
        log <= receipt.log
        && AssetOf(receipt.log, MakeAsset(source, page, block, raw.artifactRef, receipt.value), source, page,
                   raw.artifactRef, block)
  {
    var receipt := AssetReceipt(env, page, block, raw, log);
    if receipt.Done? {
      if block.artifactPath.Some? {
        assert receipt.log[|log|].effect == UploadAsset(page.ordinal, block.readingOrder, block.artifactPath.value);
        assert receipt.log[|log|].reply == Accepted(receipt.value);
      } else {
        assert block.(artifactPath := None) == block;
      }
    }
  }

  lemma {:induction false} BlockMatches(env: Environment, source: Source, page: RawPage, block: RawBlock, raw: Receipt,
                                        blocks: seq<RawBlock>, done: PackagedAssets, log: Log)
    requires ReceiptOf(log, raw, source, page, block.(artifactPath := None))
    requires AssetsMatch(log, done.assets, source, page, raw.artifactRef, blocks)
    requires IdsMatch(done.ids, page.ordinal, blocks)
    ensures var out := PackageBlock(env, source, page, block, raw, done, log);
      out.Done? ==>
        && log <= out.log
        && AssetsMatch(out.log, out.value.assets, source, page, raw.artifactRef, blocks + [block])
        && IdsMatch(out.value.ids, page.ordinal, blocks + [block])
  {
    hide AssetsMatch, IdsMatch, AssetBlocksOf;
    var out := PackageBlock(env, source, page, block, raw, done, log);
    if out.Done? {
      if HasAsset(block) {
        var receipt := AssetReceipt(env, page, block, raw, log);
        var asset := MakeAsset(source, page, block, raw.artifactRef, receipt.value);
        ReceiptFound(env, source, page, block, raw, log);
        AssetsStayMatched(log, out.log, done.assets, source, page, raw.artifactRef, blocks);
        AssetsMatchAppend(out.log, done.assets, asset, source, page, raw.artifactRef, blocks, block);
        IdsMatchAppend(done.ids, page.ordinal, blocks, block);
      } else {
        NoAssetBlock(out.log, done, source, page, raw.artifactRef, blocks, block);
      }
    }
  }

  lemma NothingMatches(log: Log, source: Source, page: RawPage, rawRef: string)
    ensures AssetsMatch(log, [], source, page, rawRef, []) && IdsMatch(map[], page.ordinal, [])
  {
  }

  lemma RawReceipt(log: Log, longer: Log, raw: Receipt, source: Source, page: RawPage, block: RawBlock)
    requires log <= longer
    requires exists j :: 0 <= j < |log| && log[j] == Entry(UploadRaw(source, page), Accepted(raw))
    ensures ReceiptOf(longer, raw, source, page, block.(artifactPath := None))
  {
    var j :| 0 <= j < |log| && log[j] == Entry(UploadRaw(source, page), Accepted(raw));
    assert longer[j] == log[j];
  }

  lemma {:induction false} AssetsInLog(env: Environment, source: Source, page: RawPage, n: nat, raw: Receipt, log: Log)
    requires n <= |page.blocks|
    requires exists j :: 0 <= j < |log| && log[j] == Entry(UploadRaw(source, page), Accepted(raw))
    ensures var out := PackageAssets(env, source, page, n, raw, log);
      out.Done? ==>
        && log <= out.log
        && AssetsMatch(out.log, out.value.assets, source, page, raw.artifactRef, page.blocks[..n])
        && IdsMatch(out.value.ids, page.ordinal, page.blocks[..n])
    decreases n
  {
    hide AssetsMatch, IdsMatch, PackageBlock;
    if n == 0 {
      NothingMatches(log, source, page, raw.artifactRef);
      assert page.blocks[..0] == [];
    } else {
      AssetsInLog(env, source, page, n - 1, raw, log);
      var before, block := PackageAssets(env, source, page, n - 1, raw, log), page.blocks[n - 1];
      if before.Done? {
        RawReceipt(log, before.log, raw, source, page, block);
        BlockMatches(env, source, page, block, raw, page.blocks[..n - 1], before.value, before.log);
        assert page.blocks[..n] == page.blocks[..n - 1] + [block];
      }
    }
  }

  /** A packaged page stands in the log with its assets. */
  lemma {:induction false} PageHolds(env: Environment, source: Source, page: RawPage, log: Log)
    ensures var out := PackagePage(env, source, page, log);
      out.Done? ==>
        && log <= out.log
        && Holds(env, out.log, source, page, out.value.page, out.value.assets)
  {
    hide PackageAssets, AssetsMatch, IdsMatch;
    var out := PackagePage(env, source, page, log);
    if out.Done? {
      var raw := Perform(env, log, UploadRaw(source, page));
      assert raw.log[|log|] == Entry(UploadRaw(source, page), Accepted(raw.value));
      AssetsInLog(env, source, page, |page.blocks|, raw.value, raw.log);
      assert page.blocks[..|page.blocks|] == page.blocks;
      var assets := PackageAssets(env, source, page, |page.blocks|, raw.value, raw.log);
      AssetsStayMatched(assets.log, out.log, assets.value.assets, source, page, raw.value.artifactRef, page.blocks);
      assert out.log[|log|] == raw.log[|log|];
    }
  }

  // ---------- The whole run ----------

  /** Every packaged page stands in the log, with the raw page it comes from. */
  ghost predicate AllHold(env: Environment, log: Log, source: Source, raws: seq<RawPage>, packaged: seq<PackagedPage>) {
    && |raws| == |packaged|
    && forall k :: 0 <= k < |packaged| ==> Holds(env, log, source, raws[k], packaged[k].page, packaged[k].assets)
  }

  lemma AllHoldAppend(env: Environment, log: Log, longer: Log, source: Source, raws: seq<RawPage>,
                      packaged: seq<PackagedPage>, raw: RawPage, page: PackagedPage)
    requires log <= longer && AllHold(env, log, source, raws, packaged)
    requires Holds(env, longer, source, raw, page.page, page.assets)
    ensures AllHold(env, longer, source, raws + [raw], packaged + [page])
  {
    hide Holds;
    forall k | 0 <= k < |packaged| ensures Holds(env, longer, source, raws[k], packaged[k].page, packaged[k].assets) {
      HoldsStays(env, log, longer, source, raws[k], packaged[k].page, packaged[k].assets);
    }
  }

  lemma {:induction false} HandledHold(handler: Handler, env: Environment, first: RawDocument, ordinals: seq<int>,
                                       n: nat, log: Log)
    returns (raws: seq<RawPage>)
    requires 1 <= n <= |ordinals| && PageOrdinals(first) == [ordinals[0]]
    ensures var out := HandlePages(handler, env, first, ordinals, n, log);
      out.Done? ==> AllHold(env, out.log, first.source, raws, out.value)
    decreases n
  {
    hide Holds, PackagePage, MapFault;
    var out := HandlePages(handler, env, first, ordinals, n, log);
    raws := [];
    if out.Done? {
      if n == 1 {
        raws := [first.pages[0]];
        PageHolds(env, first.source, first.pages[0], log);
      } else {
        var before := HandlePages(handler, env, first, ordinals, n - 1, log);
        var doc := ParsePage(handler, env, ordinals[n - 1], Some(first.source)).value;
        var page := PackagePage(env, doc.source, doc.pages[0], before.log);
        raws := HandledHold(handler, env, first, ordinals, n - 1, log);
        PageHolds(env, doc.source, doc.pages[0], before.log);
        AllHoldAppend(env, before.log, page.log, first.source, raws, before.value, doc.pages[0], page.value);
        raws := raws + [doc.pages[0]];
      }
    }
  }

  function AssetParts(packaged: seq<PackagedPage>): seq<seq<Asset>> {
    seq(|packaged|, i requires 0 <= i < |packaged| => packaged[i].assets)
  }

  lemma {:induction false} AssetsConcat(packaged: seq<PackagedPage>)
    ensures AssetsOf(packaged) == Flatten(AssetParts(packaged))
    decreases |packaged|
  {
    if packaged == [] {
    } else {
      AssetsConcat(Init(packaged));
      assert Init(AssetParts(packaged)) == AssetParts(Init(packaged));
      assert Init(packaged) == packaged[..|packaged| - 1];
    }
  }

  lemma FinalizeEnvelope(env: Environment, source: Source, requested: seq<int>, packaged: seq<PackagedPage>, log: Log)
    ensures var out := Finalize(env, source, requested, packaged, log);
      out.Done? ==>
        && log <= out.log && |out.log| == |log| + 1
        && Last(out.log).effect == UploadEnvelope(MakeAttempt(source, SortOrdinals(requested), packaged))
        && Last(out.log).reply.Accepted?
  {
    hide ValidAttempt, ValidTaskResult, SortOrdinals, FailedOf;
  }

  /** A finished run ends with the accepted envelope of its source: for every raw page its normal form
      and quality and the assets of its blocks, page after page. */
  lemma {:induction false} EnvelopeContents(handler: Handler, env: Environment, lease: Lease)
    returns (raws: seq<RawPage>, parts: seq<seq<Asset>>)
    requires Handle(handler, env, lease, []).Done?
    ensures var log := Handle(handler, env, lease, []).log;
      && log != [] && Last(log).effect.UploadEnvelope? && Last(log).reply.Accepted?
      && var attempt := Last(log).effect.attempt;
         && |raws| == |parts| == |attempt.pages|
         && attempt.assets == Flatten(parts)
         && forall k :: 0 <= k < |raws| ==> Holds(env, log, attempt.source, raws[k], attempt.pages[k], parts[k])
  {
    hide Holds, HandlePages, Finalize, Handle, SortOrdinals, Requested, FirstOrdinal, AssetsOf;
    var first, ordinals := DoneRun(handler, env, lease, []);
    var pages := HandlePages(handler, env, first, ordinals, |ordinals|, []);
    raws := HandledHold(handler, env, first, ordinals, |ordinals|, []);
    parts := AssetParts(pages.value);
    AssetsConcat(pages.value);
    FinalizeEnvelope(env, first.source, ordinals, pages.value, pages.log);
    var log := Handle(handler, env, lease, []).log;
    forall k | 0 <= k < |raws| ensures Holds(env, log, first.source, raws[k], pages.value[k].page, parts[k]) {
      HoldsStays(env, pages.log, log, first.source, raws[k], pages.value[k].page, pages.value[k].assets);
    }
  }
}
