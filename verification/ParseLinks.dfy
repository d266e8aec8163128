/** How the effects of a run refer to each other: pages name the receipt of their raw upload,
    checkpoints that of their page upload, the envelope holds the uploaded pages, and every block
    with an asset type has its asset. */
module ParseLinks {

  import opened ParseModel
  import opened Sequences
  import opened Wrappers

  /** The page was uploaded and accepted before position `i`. */
  ghost predicate Uploaded(log: Log, i: int, page: Page) {
    exists j :: 0 <= j < i && j < |log| && log[j].effect == UploadPage(page) && log[j].reply.Accepted?
  }

  /** The page repeats its raw page and has its quality; `rawRef` is the reference the raw upload got. */
  ghost predicate Normalizes(env: Environment, page: Page, source: Source, raw: RawPage) {
    && page.ordinal == raw.ordinal && page.sourceKind == raw.sourceKind && page.blocks == raw.blocks
    && page.backend == source.backend && page.version == source.version
    && env.quality(source.parserProfile, raw) == Success(page.quality)
  }

  /** The raw page was uploaded before position `i` and got this reference. */
  ghost predicate RawUploaded(log: Log, i: int, source: Source, raw: RawPage, rawRef: string) {
    exists j :: 0 <= j < i && j < |log| && log[j].effect == UploadRaw(source, raw)
      && log[j].reply.Accepted? && log[j].reply.receipt.artifactRef == rawRef
  }

  /** A checkpoint directly follows the accepted upload of its page and carries its receipt; a failed
      page is saved with the code of its first issue. */
  ghost predicate CheckpointLinked(log: Log, i: int)
    requires 0 <= i < |log| && log[i].effect.SaveCheckpoint?
  {
    i > 0 && log[i - 1].effect.UploadPage? && log[i - 1].reply.Accepted?
    && var c, page, receipt := log[i].effect.checkpoint, log[i - 1].effect.page, log[i - 1].reply.receipt;
       && c.ordinal == page.ordinal && c.failed == page.quality.failed
       && c.outputRef == receipt.artifactRef && c.outputSha256 == receipt.sha256 && c.outputSize == receipt.sizeBytes
       && c.backend == page.backend && c.version == page.version
       && c.errorCode == if page.quality.failed then Some(page.quality.issues[0]) else None
  }

  /** A page is the normal form of a raw page uploaded before; an envelope holds pages uploaded
      before, under the ordinals it lists as requested and as covered. */
  ghost predicate EntryLinked(env: Environment, log: Log, i: int)
    requires 0 <= i < |log|
  {
    match log[i].effect
    case SaveCheckpoint(_) => CheckpointLinked(log, i)
    case UploadPage(page) =>
      exists source, raw :: Normalizes(env, page, source, raw) && RawUploaded(log, i, source, raw, page.rawRef)
    case UploadEnvelope(attempt) =>
      && attempt.requested == attempt.covered && |attempt.pages| == |attempt.covered|
      && forall k :: 0 <= k < |attempt.pages| ==>
           attempt.covered[k] == attempt.pages[k].ordinal && Uploaded(log, i, attempt.pages[k])
    case _ => true
  }

  ghost predicate Linked(env: Environment, log: Log) {
    forall i :: 0 <= i < |log| ==> EntryLinked(env, log, i)
  }

  // ---------- Growing logs ----------

  lemma RawStays(log: Log, longer: Log, i: int, source: Source, raw: RawPage, rawRef: string)
    requires log <= longer && RawUploaded(log, i, source, raw, rawRef)
    ensures forall k :: k >= i ==> RawUploaded(longer, k, source, raw, rawRef)
  {
    var j :| 0 <= j < i && j < |log| && log[j].effect == UploadRaw(source, raw)
      && log[j].reply.Accepted? && log[j].reply.receipt.artifactRef == rawRef;
    assert longer[j] == log[j];
  }

  lemma UploadStays(log: Log, longer: Log, i: int, page: Page)
    requires log <= longer && Uploaded(log, i, page)
    ensures forall k :: k >= i ==> Uploaded(longer, k, page)
  {
    var j :| 0 <= j < i && j < |log| && log[j].effect == UploadPage(page) && log[j].reply.Accepted?;
    assert longer[j] == log[j];
  }

  lemma EntryStays(env: Environment, log: Log, longer: Log, i: int)
    requires log <= longer && 0 <= i < |log|
    ensures EntryLinked(env, log, i) ==> EntryLinked(env, longer, i)
  {
    if EntryLinked(env, log, i) {
      match log[i].effect {
        case UploadPage(page) =>
          var source, raw :| Normalizes(env, page, source, raw) && RawUploaded(log, i, source, raw, page.rawRef);
          RawStays(log, longer, i, source, raw, page.rawRef);
        case UploadEnvelope(attempt) =>
          forall k | 0 <= k < |attempt.pages| ensures Uploaded(longer, i, attempt.pages[k]) {
            UploadStays(log, longer, i, attempt.pages[k]);
          }
        case _ =>
      }
    }
  }

  lemma LinkedAppend(env: Environment, log: Log, entry: Entry)
    requires Linked(env, log) && EntryLinked(env, log + [entry], |log|)
    ensures Linked(env, log + [entry])
  {
    hide EntryLinked;
    forall i | 0 <= i < |log| ensures EntryLinked(env, log + [entry], i) {
      EntryStays(env, log, log + [entry], i);
    }
  }

  lemma PerformLinked(env: Environment, log: Log, effect: Effect)
    requires Linked(env, log) && EntryLinked(env, log + [Entry(effect, env.respond(log, effect))], |log|)
    ensures Linked(env, Perform(env, log, effect).log) && log <= Perform(env, log, effect).log
  {
    hide EntryLinked, Linked;
    LinkedAppend(env, log, Entry(effect, env.respond(log, effect)));
  }

  // ---------- One page ----------

  lemma {:induction false} AssetsLinked(env: Environment, source: Source, page: RawPage, n: nat, raw: Receipt, log: Log)
    requires n <= |page.blocks| && Linked(env, log)
    ensures var out := PackageAssets(env, source, page, n, raw, log); Linked(env, out.log) && log <= out.log
    decreases n
  {
    hide Linked;
    if n == 0 {
    } else {
      AssetsLinked(env, source, page, n - 1, raw, log);
      var before := PackageAssets(env, source, page, n - 1, raw, log);
      var block := page.blocks[n - 1];
      if block.artifactPath.Some? {
        PerformLinked(env, before.log, UploadAsset(page.ordinal, block.readingOrder, block.artifactPath.value));
      }
    }
  }

  lemma {:induction false} FinishLinked(env: Environment, source: Source, page: RawPage, raw: Receipt,
                                        assets: PackagedAssets, log: Log)
    requires Linked(env, log) && RawUploaded(log, |log|, source, page, raw.artifactRef)
    ensures var out := FinishPage(env, source, page, raw, assets, log);
      Linked(env, out.log) && log <= out.log && (out.Done? ==> Uploaded(out.log, |out.log|, out.value.page))
  {
    hide Linked, RawUploaded;
    var out := FinishPage(env, source, page, raw, assets, log);
    if out.log != log {
      var quality := env.quality(source.parserProfile, page).value;
      var normalized := Page(page.ordinal, page.sourceKind, source.backend, source.version, raw.artifactRef,
                             page.blocks, assets.ids, quality);
      var entry := Entry(UploadPage(normalized), env.respond(log, UploadPage(normalized)));
      RawStays(log, log + [entry], |log|, source, page, raw.artifactRef);
      assert Normalizes(env, normalized, source, page);
      PerformLinked(env, log, UploadPage(normalized));
      var upload := Perform(env, log, UploadPage(normalized));
      if upload.Done? {
        var save := SaveCheckpoint(MakeCheckpoint(source, page, quality, upload.value));
        assert upload.log[|log|] == entry;
        assert CheckpointLinked(upload.log + [Entry(save, env.respond(upload.log, save))], |upload.log|);
        PerformLinked(env, upload.log, save);
        assert out.Done? ==> out.log[|log|] == entry;
      }
    }
  }

  lemma {:induction false} PageLinked(env: Environment, source: Source, page: RawPage, log: Log)
    requires Linked(env, log)
    ensures var out := PackagePage(env, source, page, log);
      Linked(env, out.log) && log <= out.log && (out.Done? ==> Uploaded(out.log, |out.log|, out.value.page))
  {
    hide Linked, PackageAssets, FinishPage;
    PerformLinked(env, log, UploadRaw(source, page));
    var raw := Perform(env, log, UploadRaw(source, page));
    if page.ordinal <= source.totalPages && raw.Done? {
      assert raw.log[|log|].effect == UploadRaw(source, page);
      assert RawUploaded(raw.log, |raw.log|, source, page, raw.value.artifactRef);
      AssetsLinked(env, source, page, |page.blocks|, raw.value, raw.log);
      var assets := PackageAssets(env, source, page, |page.blocks|, raw.value, raw.log);
      if assets.Done? {
        RawStays(raw.log, assets.log, |raw.log|, source, page, raw.value.artifactRef);
        FinishLinked(env, source, page, raw.value, assets.value, assets.log);
      }
    }
  }

  // ---------- The whole run ----------

  ghost predicate AllUploaded(log: Log, packaged: seq<PackagedPage>) {
    forall k :: 0 <= k < |packaged| ==> Uploaded(log, |log|, packaged[k].page)
  }

  lemma AllUploadedAppend(log: Log, longer: Log, packaged: seq<PackagedPage>, page: PackagedPage)
    requires log <= longer && AllUploaded(log, packaged) && Uploaded(longer, |longer|, page.page)
    ensures AllUploaded(longer, packaged + [page])
  {
    hide Uploaded;
    forall k | 0 <= k < |packaged| ensures Uploaded(longer, |longer|, packaged[k].page) {
      UploadStays(log, longer, |log|, packaged[k].page);
    }
  }

  lemma {:induction false} HandledLinked(handler: Handler, env: Environment, first: RawDocument, ordinals: seq<int>,
                                         n: nat, log: Log)
    requires 1 <= n <= |ordinals| && PageOrdinals(first) == [ordinals[0]] && Linked(env, log)
    ensures var out := HandlePages(handler, env, first, ordinals, n, log);
      Linked(env, out.log) && (out.Done? ==> AllUploaded(out.log, out.value))
    decreases n
  {
    hide Linked, Uploaded, PackagePage, MapFault;
    if n == 1 {
      PageLinked(env, first.source, first.pages[0], log);
    } else {
      HandledLinked(handler, env, first, ordinals, n - 1, log);
      var before := HandlePages(handler, env, first, ordinals, n - 1, log);
      var parsed := ParsePage(handler, env, ordinals[n - 1], Some(first.source));
      if before.Done? && parsed.Success? {
        PageLinked(env, parsed.value.source, parsed.value.pages[0], before.log);
        var page := PackagePage(env, parsed.value.source, parsed.value.pages[0], before.log);
        if page.Done? {
          AllUploadedAppend(before.log, page.log, before.value, page.value);
        }
      }
    }
  }

  /** The last effect is the accepted envelope; the `TaskResult` carries its receipt and the page
      count of its source. */
  ghost predicate EndsWithEnvelope(result: TaskResult, log: Log) {
    log != [] && Last(log).effect.UploadEnvelope? && Last(log).reply.Accepted?
    && var attempt, receipt := Last(log).effect.attempt, Last(log).reply.receipt;
       && result.manifestRef == receipt.artifactRef && result.sha256 == receipt.sha256
       && result.sizeBytes == receipt.sizeBytes && result.pageCount == attempt.source.totalPages
  }

  lemma {:induction false} FinalizeLinked(env: Environment, source: Source, requested: seq<int>,
                                          packaged: seq<PackagedPage>, log: Log)
    requires Linked(env, log) && AllUploaded(log, packaged)
    ensures var out := Finalize(env, source, requested, packaged, log);
      Linked(env, out.log) && (out.Done? ==> EndsWithEnvelope(out.value, out.log))
  {
    hide Linked, Uploaded, ValidAttempt, ValidTaskResult, SortOrdinals, FailedOf;
    var attempt := MakeAttempt(source, SortOrdinals(requested), packaged);
    var effect := UploadEnvelope(attempt);
    var longer := log + [Entry(effect, env.respond(log, effect))];
    forall k | 0 <= k < |attempt.pages| ensures Uploaded(longer, |log|, attempt.pages[k]) {
      assert attempt.pages[k] == packaged[k].page;
      UploadStays(log, longer, |log|, packaged[k].page);
    }
    if Finalize(env, source, requested, packaged, log).log != log {
      assert attempt.requested == attempt.covered;
      PerformLinked(env, log, effect);
    }
  }

  lemma NothingLinked(env: Environment)
    ensures Linked(env, [])
  {
  }

  /** In every run the log is linked, and a finished run returns the receipt of its last effect,
      the envelope of the pages it uploaded. */
  lemma {:induction false} HandleLinked(handler: Handler, env: Environment, lease: Lease)
    ensures var out := Handle(handler, env, lease, []);
      Linked(env, out.log) && (out.Done? ==> EndsWithEnvelope(out.value, out.log))
  {
    hide Linked, HandlePages, Finalize, EndsWithEnvelope, SortOrdinals, Requested, FirstOrdinal, AllUploaded;
    NothingLinked(env);
    var parsed := ParsePage(handler, env, FirstOrdinal(lease), None);
    if parsed.Success? {
      FirstIsRequested(lease, parsed.value);
      var ordinals := Requested(lease, parsed.value.source.totalPages);
      HandledLinked(handler, env, parsed.value, ordinals, |ordinals|, []);
      var pages := HandlePages(handler, env, parsed.value, ordinals, |ordinals|, []);
      if pages.Done? {
        FinalizeLinked(env, parsed.value.source, ordinals, pages.value, pages.log);
      }
    }
  }

  // ---------- Assets ----------

  /** The blocks among the first `n` that have an asset type, in order. */
  function AssetBlocks(page: RawPage, n: nat): seq<RawBlock>
    requires n <= |page.blocks|
  {
    if n == 0 then [] else AssetBlocks(page, n - 1) + if HasAsset(page.blocks[n - 1]) then [page.blocks[n - 1]] else []
  }

  /** The asset describes the block; without a binary it points at the raw page. */
  ghost predicate Describes(asset: Asset, page: RawPage, block: RawBlock, raw: Receipt) {
    && asset.id == AssetId(page.ordinal, block.readingOrder)
    && asset.kind == block.kind && asset.content == block.content
    && asset.rawRef == raw.artifactRef
    && (asset.metadataOnly <==> block.artifactPath.None?)
    && (asset.metadataOnly ==> asset.receipt == raw)
  }

  lemma AssetDescribes(source: Source, page: RawPage, block: RawBlock, raw: Receipt, receipt: Receipt)
    requires block.artifactPath.None? ==> receipt == raw
    ensures Describes(MakeAsset(source, page, block, raw.artifactRef, receipt), page, block, raw)
  {
  }

  /** Every block with an asset type gets exactly one asset, in order, and its identifier is filed
      under its reading order. */
  lemma {:induction false} AssetsComplete(env: Environment, source: Source, page: RawPage, n: nat, raw: Receipt,
                                          log: Log)
    requires n <= |page.blocks|
    ensures var out, blocks := PackageAssets(env, source, page, n, raw, log), AssetBlocks(page, n);
      out.Done? ==>
        && |out.value.assets| == |blocks|
        && (forall i :: 0 <= i < |blocks| ==> Describes(out.value.assets[i], page, blocks[i], raw))
        && (forall i :: 0 <= i < |blocks| ==> blocks[i].readingOrder in out.value.ids)
        && (forall o :: o in out.value.ids ==> out.value.ids[o] == AssetId(page.ordinal, o))
    decreases n
  {
    hide Describes;
    if n == 0 {
    } else {
      AssetsComplete(env, source, page, n - 1, raw, log);
      var before := PackageAssets(env, source, page, n - 1, raw, log);
      if before.Done? && HasAsset(page.blocks[n - 1]) {
        var receipt := AssetReceipt(env, page, page.blocks[n - 1], raw, before.log);
        if receipt.Done? {
          AssetDescribes(source, page, page.blocks[n - 1], raw, receipt.value);
        }
      }
    }
  }
}
