# Verified models of the study agent's evaluation, parsing and host logic

This project models the parts of the repository that compute or coordinate something, and proves
what they are for. `dafny verify dfyconfig.toml` checks all of it. Code that works by changing
state is modelled by methods with loops, arrays of nodes or classes, each proved equal to a
specification function or predicate; the lemmas then say what that specification means.

- **OCR scoring** (`EditDistance`, `ReadingOrder`, `Boxes`, `BlockMatching`, `OrderTags`,
  `PerfectOrder`). The two rolling-row tables are shown to hold the Levenshtein distance and the
  longest common subsequence, and these to be optimal: an edit script of that length exists and none is shorter,
  a common subsequence of that length exists and none is longer. The greedy block matching is
  independent of set iteration order, injective, maximal, and at least half as large as any other
  matching, a factor that is attained. The reading-order tags are proved unique exactly when no two
  pages leave a block of the same rank unmatched, and a prediction that repeats the gold pages in
  their reading order scores 1.
- **The parse worker** (`ParseModel`, `ParseTrace`, `ParsePages`, `ParseLinks`, `ParseEnvelope`,
  `ParseResults`, `ParseFaults`, `ParseWorker`). A run is a log of reporter effects, each
  with the answer it got; any answer may be a refusal, and the parser may break with any exception.
  `ParseModel` gives each step as a function of the environment, `ParseWorker` the loops that
  issue the effects. The lemmas cover every run, stopped anywhere or not.
- **The note section tree** (`NoteSections`, `NoteTree`). The in-place tree of linked nodes shows
  what plain filtering of the notes by path shows, and nothing else.
- **Shared output budget** (`OutputBudget`). A state machine over every interleaving of two readers,
  with cancellation, and the loop under an arbitrary scheduler.
- **Process trees** (`ProcessTree`). Both changed-flag loops, on any parent map, cycles included.
- **Evaluation reports** (`NearestRank`, `ResourceReport`, `Rankings`, `RagMetrics`, `SeedMetrics`).
  Percentiles by counting, conservation under aggregation by component, rankings and their fusion
  independent of file and set order, and the agreement of two independent metric programs, also from
  one seed file to the reported numbers.
- **Seed files** (`SeedFormat`). What the checker passes, the loader accepts, with what content.
- **Host names** (`HostNames`). The normaliser is idempotent, what it accepts is characterised on
  every input, and the textual wildcard test is a label-wise one.

`Wrappers`, `Sequences` and `Sorting` hold shared vocabulary.

Three places where the code is not what its documentation or a first reading suggests are proved as
such.

- The tag `unmatched:{index}` does not name its page, so the reading-order score of a valid document
  with several pages can raise instead of returning a number. `OrderTags.EvaluateOrder` gives the
  exact condition on the gold document and the predictions, `OrderTags.TwoPagesCollide` an input, and
  `OrderTags.QualifiedOrderDistinct` shows that naming the page would remove the problem.
- The page handler turns the exceptions of packaging into task errors, but guards a parse against
  `ParserExecutionError` only, and `TaskExecutionError` itself validates its code and summary. A bare
  ValueError or OSError can therefore leave the handler: `ParseFaults.BareFaultOrigin` says exactly
  when, `ParseFaults.BareFaultExamples` gives inputs, and `ParseFaults.NoBareFault` a condition on the
  parser that rules it out.
- The ablation refuses queries without relevant chunks unless they are marked as unanswerable, while
  the report just skips them: `RagMetrics.ProgramsAgree` says exactly when both give numbers,
  `RagMetrics.UnmarkedIsRefused` gives an input, and `SeedMetrics.CheckedIsMarked` shows that a seed
  without findings never runs into it.

## Model

| member | source | states |
|---|---|---|
| EditDistance.NextRow | evals/ocr/metrics.py:19-29 | the inner loop turns the row of distances of a prefix into the row of the prefix one character longer |
| EditDistance.CharacterErrorRate | evals/ocr/metrics.py:11-30 | the loops return the distance of the normalised texts over the reference length; an empty reference gives 0 or 1 |
| EditDistance.ShortestScript | evals/ocr/metrics.py:18-30 | a script of inserts, deletes and substitutions of exactly that length turns one text into the other |
| EditDistance.NoShorterScript | evals/ocr/metrics.py:18-30 | any script between two texts is at least that long, wherever and in whatever order its edits fall |
| EditDistance.DistanceIsOptimal | evals/ocr/metrics.py:18-30 | the tabulated value is the length of a shortest edit script, for all strings |
| EditDistance.DistanceZero | evals/ocr/metrics.py:18-30 | the distance is zero exactly for equal texts |
| EditDistance.DistanceSymmetric | evals/ocr/metrics.py:18-30 | the distance is symmetric |
| EditDistance.DistanceTriangle | evals/ocr/metrics.py:18-30 | the distance satisfies the triangle inequality |
| EditDistance.DistanceBounds | evals/ocr/metrics.py:18-30 | the distance lies between the difference of the lengths and the longer length |
| ReadingOrder.NextRow | evals/ocr/metrics.py:41-49 | the inner loop extends the row of common lengths by one expected identifier |
| ReadingOrder.Score | evals/ocr/metrics.py:33-50 | duplicates in either list, and nothing else, are an error; otherwise the loops return the common length over the expected length |
| ReadingOrder.CommonIsLongest | evals/ocr/metrics.py:41-50 | the greedy diagonal step is exact: the value is the length of a longest common subsequence |
| ReadingOrder.CommonIsFull | evals/ocr/metrics.py:41-50 | the common length reaches the expected length exactly when the expected list is a subsequence of the prediction |
| ReadingOrder.ScoreMeaning | evals/ocr/metrics.py:33-50 | the score lies in [0, 1] and is 1 exactly when a non-empty expectation is a subsequence of the prediction, or both are empty |
| ReadingOrder.ScoreValue | evals/ocr/metrics.py:33-50 | the score times the number of expected identifiers is the length of some longest common subsequence |
| ReadingOrder.CommonIsLongestRun | evals/ocr/metrics.py:33-50 | on duplicate-free predictions the numerator is the length of a longest increasing run of matched positions |
| Boxes.IouMeaning | evals/ocr/metrics.py:53-103 | boxes off the page, and only these, are refused; otherwise the value is a fraction, positive exactly when some point lies strictly inside both |
| Boxes.IouValue | evals/ocr/metrics.py:53-103 | for boxes that overlap, the value is the area of the box of their common points over the area of both together |
| Boxes.IouOne | evals/ocr/metrics.py:53-67 | the value is 1 exactly for the same box with an area |
| Boxes.IouSymmetric | evals/ocr/metrics.py:53-67 | the value does not depend on the order of the boxes |
| BlockMatching.Best | evals/ocr/run_benchmark.py:304-322 | the maximum over the free gold blocks, by score and then by index, in whatever order the set yields them |
| BlockMatching.MatchBlocks | evals/ocr/run_benchmark.py:291-328 | in reading order each predicted block takes its best free gold block if they overlap, and none otherwise; the result is a function of the page |
| BlockMatching.GreedyIsGreedy | evals/ocr/run_benchmark.py:295-328 | scanning the gold blocks upwards, the later one winning a tie, makes exactly these choices |
| BlockMatching.GreedyUnique | evals/ocr/run_benchmark.py:295-328 | the matches are determined by the page, so set iteration order is irrelevant |
| BlockMatching.GreedyInjective | evals/ocr/run_benchmark.py:295-328 | no gold block is matched twice, and with distinct identifiers no identifier is |
| BlockMatching.GreedyMaximal | evals/ocr/run_benchmark.py:317-327 | no left-over predicted block overlaps a left-over gold block |
| BlockMatching.GreedyIsMatching | evals/ocr/run_benchmark.py:291-328 | the pairs made are themselves a matching of overlapping blocks |
| BlockMatching.GreedyHalfOptimal | evals/ocr/run_benchmark.py:291-328 | no matching of overlapping blocks has more than twice as many pairs |
| BlockMatching.HalfIsTight | evals/ocr/run_benchmark.py:291-328 | the factor two is attained by a page of two columns |
| OrderTags.BuildOrders | evals/ocr/run_benchmark.py:259-272 | the loop builds the gold tags of all pages and the predicted tags of the predicted pages, in order |
| OrderTags.EvaluateOrder | evals/ocr/run_benchmark.py:250-288 | on a valid gold document the reading-order score is refused exactly when the greedy matchings of two predicted pages leave over the same rank, and is otherwise the score of the tags |
| OrderTags.DecimalInjective | evals/ocr/run_benchmark.py:264-271 | different numbers print differently |
| OrderTags.DecimalMeaning | evals/ocr/run_benchmark.py:264-271 | a printed number consists of decimal digits, without a leading zero, that denote it |
| OrderTags.TagFormats | evals/ocr/run_benchmark.py:264-271 | a matched block is tagged with the page in decimal, a colon and its identifier, a left-over one with `unmatched:` and its rank |
| OrderTags.PairTagInjective | evals/ocr/run_benchmark.py:264-270 | a tag `{page}:{id}` determines the page and the identifier, even if identifiers contain colons |
| OrderTags.TagEquality | evals/ocr/run_benchmark.py:269-272 | two predicted tags are equal exactly for the same gold block, or for two left-over blocks of the same rank on any pages |
| OrderTags.PredictedTagsUnique | evals/ocr/run_benchmark.py:262-272 | the predicted tags of a valid document are unique exactly when no two predicted pages leave over the same rank |
| OrderTags.ExpectedOrderDistinct | evals/ocr/run_benchmark.py:263-264 | the gold tags of a valid document are unique |
| OrderTags.OnePageNeverCollides | evals/ocr/run_benchmark.py:262-272 | a document of one page is never refused: its tags are unique on both sides |
| OrderTags.TwoPagesCollide | evals/ocr/run_benchmark.py:269-272 | two gold pages without blocks and one predicted block on each are always refused |
| OrderTags.QualifiedOrderDistinct | evals/ocr/run_benchmark.py:269-272 | with the page in the tag of left-over blocks every valid document has unique predicted tags |
| PerfectOrder.GoldAscends | evals/ocr/run_benchmark.py:263-264 | the gold blocks of a page come in ascending reading order, blocks of the same order as they are listed |
| PerfectOrder.PredictedAscends | evals/ocr/run_benchmark.py:297 | so do the predicted blocks |
| PerfectOrder.PerfectScore | evals/ocr/run_benchmark.py:250-288 | when the blocks of each gold page share no point and have an area, and the prediction lists the same boxes in any order under the same reading order, the score is 1 |
| ParseTrace.PageFollows | services/worker/src/study_worker/artifacts.py:81-144 | packaging a page performs raw upload, one upload per asset binary, page upload, checkpoint, or a beginning of it whose last effect alone may be refused |
| ParseTrace.HandleFollows | services/worker/src/study_worker/runtime.py:60-149 | every run performs all requested pages in ascending order and then the envelope, or a beginning of that |
| ParseTrace.ScriptSafety | services/worker/src/study_worker/artifacts.py:81-196 | in every beginning of the script checkpoints are a prefix of the requested pages, follow their uploads, and all precede the envelope |
| ParseTrace.HandleSafety | services/worker/src/study_worker/runtime.py:87-149 | in every run, stopped anywhere, checkpoints are a prefix of the sorted requested pages, each after its own raw and page upload; the envelope is last and after all checkpoints |
| ParsePages.RequestedMeaning | services/worker/src/study_worker/artifacts.py:55-57 | the requested pages are those the lease lists, or all pages from 1 to the page count when it lists none, ascending |
| ParsePages.CheckpointsMeaning | services/worker/src/study_worker/artifacts.py:136-144 | the checkpointed pages are the ordinals of the checkpoints among the effects |
| ParsePages.CheckpointedPages | services/worker/src/study_worker/runtime.py:79-128 | in every run, stopped anywhere, the checkpointed pages are ascending: 1, 2, ... for a lease that lists none, otherwise listed pages, none of them before all smaller listed ones |
| ParsePages.FinishedPages | services/worker/src/study_worker/runtime.py:79-149 | a finished run has checkpointed exactly the pages of the lease, or exactly those up to the page count it returns, in ascending order |
| ParseLinks.PageLinked | services/worker/src/study_worker/artifacts.py:92-144 | an uploaded page is the normal form of a raw page uploaded before and names its receipt; the checkpoint directly follows, carries the receipt of the page upload, the failure flag and the code of the first issue |
| ParseLinks.HandleLinked | services/worker/src/study_worker/runtime.py:60-149 | in every run these references hold; the envelope contains only uploaded pages, under the ordinals it lists, and a result carries the envelope's receipt and page count |
| ParseLinks.AssetsComplete | services/worker/src/study_worker/artifacts.py:221-268 | every image, table and formula block gets exactly one asset, in order, describing it; its identifier is filed under its reading order |
| ParseEnvelope.PageHolds | services/worker/src/study_worker/artifacts.py:81-144 | a packaged page repeats its raw page with its quality and names the raw receipt; it has one asset for every image, table and formula block, in order, each with the receipt of its own upload, or of the raw page without a binary |
| ParseEnvelope.EnvelopeContents | services/worker/src/study_worker/artifacts.py:147-196 | a finished run ends with an accepted envelope that holds exactly such pages and their assets, page after page |
| ParseResults.CheckpointValid | services/worker/src/study_worker/dispatcher.py:48-58 | the checkpoint of a packaged page is never refused by its validation |
| ParseResults.RequestedAscending | services/worker/src/study_worker/artifacts.py:55-57 | the requested pages of a lease are positive and strictly ascending once sorted, also when they default to all pages |
| ParseResults.EnvelopeAccepted | packages/contracts/python/src/study_contracts/documents.py:295-359 | the envelope of packaged pages passes all coverage, provenance and uniqueness validation |
| ParseResults.FinalizeAccepts | services/worker/src/study_worker/artifacts.py:147-196 | with all pages packaged, finalisation yields the result unless the envelope upload itself is refused |
| ParseResults.OnlyUploadStopsEnd | services/worker/src/study_worker/runtime.py:130-149 | once the handler has packaged the requested pages only the envelope upload can stop it |
| ParseResults.ResultMatchesLog | services/worker/src/study_worker/dispatcher.py:61-78 | the failed pages of a result are exactly those checkpointed as failed, ascending, and the result passes its validation |
| ParseResults.HandlerRefinesAttempt | services/worker/src/study_worker/runtime.py:60-149 | when page parses are slices of one covering document, the handler has the same effects, answers and result as whole-document packaging, faults included under their reported names |
| ParseFaults.BareFaultOrigin | services/worker/src/study_worker/runtime.py:60-231 | a bare ValueError or OSError leaves the handler exactly when a parse that was reached broke with it, or refused with a code or summary that the task error does not accept; packaging and finalisation never let one through |
| ParseFaults.BareFaultExamples | services/worker/src/study_worker/runtime.py:167-178 | a parser that breaks on the first page, and one that refuses it with a code that is no identifier, make the handler raise OSError and ValueError |
| ParseFaults.NoBareFault | services/worker/src/study_worker/runtime.py:151-178 | a parser that never breaks bare and refuses only with what the task error accepts never makes the handler raise a bare exception |
| ParseFaults.AcceptedCodes | services/worker/src/study_worker/dispatcher.py:29-33 | among ASCII codes exactly the upper-case letters, digits and underscores after a letter are accepted |
| ParseFaults.RoutingRefusals | services/worker/src/study_worker/runtime.py:66-77 | another profile or media type is refused under its code, in this order, without any effect |
| ParseFaults.ReachedParse | services/worker/src/study_worker/runtime.py:151-204 | a run that reaches a page goes on only if the parse yields that page alone, of the document of the first page; otherwise it stops with the code and flag of the refusal, with what broke, or with an invalid or inconsistent result |
| ParseFaults.RefusedEffect | services/worker/src/study_worker/runtime.py:130-231 | a run that ends with a refused effect is stopped by it: a ValueError as an invalid result, an OSError as a failed write that may be retried, anything else as it is |
| ParseWorker.JobReporter.Perform | services/worker/src/study_worker/artifacts.py:271-285 | an effect is recorded with its answer, and a refusal stops the caller |
| ParseWorker.PackageAssetsOf | services/worker/src/study_worker/artifacts.py:221-268 | the loop over blocks, with its early failures, is the specified packaging of assets |
| ParseWorker.FinishParsePage | services/worker/src/study_worker/artifacts.py:105-144 | quality, page upload and checkpoint are the specified end of a page |
| ParseWorker.PackageParsePage | services/worker/src/study_worker/artifacts.py:81-144 | the packaging of one page is the specified one |
| ParseWorker.FinalizeParseAttempt | services/worker/src/study_worker/artifacts.py:147-196 | finalisation is the specified one, in the same order of checks and effects |
| ParseWorker.PackageParseAttempt | services/worker/src/study_worker/artifacts.py:48-78 | the whole-document loop is the specified run |
| ParseWorker.NativeTaskHandler.PackageAll | services/worker/src/study_worker/runtime.py:104-128 | the loop over requested pages, each packaged before the next is parsed, is the specified run |
| ParseWorker.NativeTaskHandler.Call | services/worker/src/study_worker/runtime.py:60-149 | the handler is the specified run, parser exceptions of every kind included, and reports progress before and after the first page is parsed |
| NoteSections.ChildLabelsMeaning | apps/web/src/features/notes/NotesPage.tsx:301-325 | a label continues a path exactly when some note lies at or below the longer path |
| NoteSections.ChildLabelsDistinct | apps/web/src/features/notes/NotesPage.tsx:312-316 | sibling labels are distinct |
| NoteSections.NotesAtOccurrences | apps/web/src/features/notes/NotesPage.tsx:317-319 | every note appears at its own path as often as in the input and nowhere else |
| NoteSections.NotePlaces | apps/web/src/features/notes/NotesPage.tsx:301-325 | at a path lie exactly the notes of the input whose whole section path it is, and at the label for unfiled notes those without one |
| NoteSections.BranchHasNotes | apps/web/src/features/notes/NotesPage.tsx:305-325 | below every path in use some path holds a note |
| NoteSections.EveryNoteShownOnce | apps/web/src/features/notes/NotesPage.tsx:305-325 | walking the index of the notes from the roots shows every note exactly once |
| NoteTree.Find | apps/web/src/features/notes/NotesPage.tsx:312 | the search finds a sibling with the label exactly when there is one |
| NoteTree.Attach | apps/web/src/features/notes/NotesPage.tsx:314-315 | a new node is appended to its level with an empty list of its own; nothing else in the tree changes |
| NoteTree.Descend | apps/web/src/features/notes/NotesPage.tsx:312-316 | after the step the tree holds one more label of the note's path, and was otherwise kept |
| NoteTree.Turn | apps/web/src/features/notes/NotesPage.tsx:310-321 | a turn of the inner loop moves to the child level, and the last one files the note |
| NoteTree.AddNote | apps/web/src/features/notes/NotesPage.tsx:307-322 | filing a note turns the tree of the notes before into the tree of the notes with it |
| NoteTree.BuildNoteSectionTree | apps/web/src/features/notes/NotesPage.tsx:305-325 | every walk down the built tree reaches a node with the walked path, exactly the notes of that path in input order and the labels that continue it; every path in use can be walked; every note lies at the end of its whole section path, or at the label for unfiled notes, and nowhere else; all nodes together hold every note exactly once |
| NoteTree.WalkMeaning | apps/web/src/features/notes/NotesPage.tsx:305-325 | the node at the end of a walk displays the labels walked along |
| NoteTree.ChildrenShow | apps/web/src/features/notes/NotesPage.tsx:305-325 | the linked nodes below any path hold, level by level, what the list of notes prescribes |
| NoteTree.WalkExists | apps/web/src/features/notes/NotesPage.tsx:305-325 | every path in use can be walked from the roots |
| OutputBudget.StepKeepsInv | services/worker/src/study_worker/sandbox.py:252-259 | every step of either reader, cancellation included, keeps the accounting between streams, buffers and the shared total |
| OutputBudget.NothingAfterOverflow | services/worker/src/study_worker/sandbox.py:256-258 | after the first overflow no step appends to either buffer |
| OutputBudget.RunKeepsBudget | services/worker/src/study_worker/sandbox.py:232-260 | in every state of every interleaving the buffers are prefixes of the streams within the limit, frozen once overflowed |
| OutputBudget.CompleteRun | services/worker/src/study_worker/sandbox.py:232-260 | without timeout or cancellation from outside, the limit error occurs exactly when the streams together exceed the limit; otherwise both outputs are whole |
| OutputBudget.FinishedMeansWhole | services/worker/src/study_worker/sandbox.py:232-260 | whatever happens outside, two finished readers hold both streams in full and within the limit |
| OutputBudget.RunsAreBounded | services/worker/src/study_worker/sandbox.py:254-260 | no run is longer than the bytes to read and two ends of stream |
| OutputBudget.SomeStepEnabled | services/worker/src/study_worker/sandbox.py:254-260 | a state with a reader still reading has a next step |
| OutputBudget.OutputCollector.ReadBlock | services/worker/src/study_worker/sandbox.py:254-259 | a turn of the reading loop is the specified step on the shared counter |
| OutputBudget.OutputCollector.Collect | services/worker/src/study_worker/sandbox.py:232-250 | under any scheduler the collection fails exactly when the streams exceed the limit and returns both otherwise |
| ProcessTree.Tree | scripts/collect_resource_observations.py:56-63 | the changed-flag loop ends on every parent map with exactly the processes reachable downward from the root |
| ProcessTree.TreeAnyOrder | scripts/collect_resource_observations.py:56-63 | two runs of the loop that see the rows in different orders find the same processes |
| ProcessTree.SumPick | scripts/collect_resource_observations.py:64 | the sum over a set counts each process once, whichever is taken first |
| ProcessTree.SumOver | scripts/collect_resource_observations.py:64 | the summing loop computes that sum |
| ProcessTree.RssBytes | scripts/collect_resource_observations.py:54-64 | a missing root, and only that, is an error; otherwise the bytes of its process tree are returned |
| ProcessTree.ProcessTreeRss | scripts/run_live_ocr_benchmark.py:209-217 | the bytes of the tree of any root; a missing one counts nothing itself |
| ProcessTree.CopiesAgree | scripts/run_live_ocr_benchmark.py:209-217 | both copies return the same on a present root, even if they see the rows in different orders |
| NearestRank.PercentileCounts | evals/resources/preflight.py:151-152 | fewer than p times n values lie below the percentile, and at least that many do not exceed it |
| NearestRank.PercentileUnique | evals/resources/preflight.py:151-152 | no other value has that rank |
| NearestRank.PercentileMonotone | evals/ocr/metrics.py:106-108 | a higher percentile is never a smaller value |
| ResourceReport.BuildResourceReport | evals/resources/preflight.py:87-130 | refused, in this order, exactly without observations, when some component has none, and when two observations are the same sample of one component; otherwise the specified report |
| ResourceReport.BuildSummaries | evals/resources/preflight.py:103-114 | the loop over required components yields the summary of each one's observations |
| ResourceReport.Conservation | evals/resources/preflight.py:103-114 | any weight summed per component and then over components is its sum over all observations |
| ResourceReport.ReportConserves | evals/resources/preflight.py:103-130 | sample counts add up to the observations, component failures to the failure counts, and the overall mean is the sample-weighted mean of the component means |
| ResourceReport.PeakOfPeaks | evals/resources/preflight.py:112-127 | the overall peak is the largest component peak |
| ResourceReport.PassedMeansNoFailure | evals/resources/preflight.py:113-123 | the report passes exactly when no component has a failure |
| ResourceReport.PercentileBetween | evals/resources/preflight.py:103-126 | for any split into non-empty parts and any percentile the overall value lies between two parts' values |
| ResourceReport.ReportPercentilesBetween | evals/resources/preflight.py:110-126 | the report's p50 and p95 lie between component values of the same percentile |
| ResourceReport.PercentilesOrdered | evals/resources/preflight.py:110-126 | the median never exceeds the 95th percentile, overall and per component |
| ResourceReport.ComponentValues | evals/resources/preflight.py:103-114 | each component has its own number of samples and failures, its mean, the two values of nearest rank and its highest memory among the observations |
| ResourceReport.ReportValues | evals/resources/preflight.py:115-130 | so have all observations together, and every outcome other than success that occurs is counted under its own name |
| ResourceReport.MeanOfOne | evals/resources/preflight.py:109 | the mean of one value is that value |
| ResourceReport.MeanConcat | evals/resources/preflight.py:109 | the mean of two lists together is the mean of their means, weighted by their lengths |
| RagMetrics.ReportMetrics | evals/rag/report.py:168-223 | the loop's recall and reciprocal-rank means are the means over the queries with something to find |
| Rankings.Ranked | evals/rag/ablation.py:32-47 | the loop stops at the first item that is no candidate; otherwise the candidates are sorted by rank and identifier |
| Rankings.StringLeMeaning | evals/rag/ablation.py:46 | identifiers are compared at their first difference, a beginning before what it begins |
| Rankings.CandidateMeaning | evals/rag/ablation.py:36-45 | an item becomes a candidate with its own fields, its position for a missing rank, or is refused for a reason that is listed |
| Rankings.RankedMeaning | evals/rag/ablation.py:32-47 | the ranking is a permutation of the candidates, lower ranks first and then smaller identifiers |
| Rankings.RerankedMeaning | evals/rag/ablation.py:50-55 | the reranking is a permutation of the candidates, higher scores first, then lower ranks, then smaller identifiers |
| Rankings.RanklessKeepsOrder | evals/rag/ablation.py:36-46 | without explicit ranks a ranking keeps the order of the file |
| Rankings.RankedAnyOrder | evals/rag/ablation.py:32-55 | with explicit ranks neither the ranking nor the reranking depends on the order of the file |
| Rankings.ByChunk | services/api/src/study_agent/modules/retrieval/rrf.py:34-40 | repeated chunks, and nothing else, are refused; otherwise every chunk finds its candidate |
| Rankings.FusionIsFusion | services/api/src/study_agent/modules/retrieval/rrf.py:56-84 | the fusion holds one candidate for every chunk of either route, with its score, sorted by score, best rank and identifier |
| Rankings.FusionUnique | services/api/src/study_agent/modules/retrieval/rrf.py:56-85 | these properties determine the fusion, ties included |
| Rankings.FusedFields | services/api/src/study_agent/modules/retrieval/rrf.py:59-76 | a fused candidate carries the candidates of its chunk, and its score adds one over the constant plus the rank for each |
| Rankings.FusionAscends | services/api/src/study_agent/modules/retrieval/rrf.py:78-84 | higher scores come first, then the better rank in whichever route, then the smaller identifier |
| Rankings.Fuse | services/api/src/study_agent/modules/retrieval/rrf.py:43-85 | a non-positive constant or limit and a repeated chunk, and nothing else, are refused in this order; otherwise the result is that fusion, cut to the limit, in whatever order the set of chunks is visited |
| Rankings.FusionRespectsDominance | services/api/src/study_agent/modules/retrieval/rrf.py:62-84 | a chunk that is nowhere worse and somewhere better placed than another comes before it |
| Rankings.FusionSymmetric | services/api/src/study_agent/modules/retrieval/rrf.py:56-85 | exchanging the routes changes neither scores nor order |
| RagMetrics.EvaluateAblation | evals/rag/ablation.py:58-103 | the first refused row stops it with its fault; without one it gives, for each of the four modes, the metrics of the queries under that ranking, chunk rows and unanswerable queries passed over |
| RagMetrics.MetricsPermuted | evals/rag/report.py:176-190 | the metrics do not depend on the order of the queries |
| RagMetrics.ProgramsAgree | evals/rag/ablation.py:58-103 | for each mode, on the same queries and rankings in any order, both programs give the same numbers whenever the ablation accepts its rows, which it does exactly when no row has a fault |
| RagMetrics.UnmarkedIsRefused | evals/rag/ablation.py:70-74 | a query without relevant chunks that is not marked as unanswerable is refused |
| SeedMetrics.RecordQuery | evals/rag/ablation.py:67-86 | a query record that the loader accepts is the same query for the ablation |
| SeedMetrics.RouteFields | evals/rag/ablation.py:76-86 | a route that the record does not have ranks nothing, and one that is no list is refused |
| SeedMetrics.RelevantField | evals/rag/ablation.py:67-74 | a query whose relevant chunks are missing or no list is refused, even if it is marked as unanswerable |
| SeedMetrics.RoutesByName | evals/rag/ablation.py:76-86 | each mode reads the field of its own name |
| SeedMetrics.SameQueries | evals/rag/report.py:153-190 | for one loadable seed of chunks and queries under distinct identifiers, the queries of the report are a permutation of those of the ablation |
| SeedMetrics.SeedProgramsAgree | evals/rag/report.py:141-223 | from the lines of that seed, the report given the rankings of a mode and the ablation give the same numbers whenever the ablation accepts the rows |
| SeedMetrics.CheckedIsWellTyped | scripts/check_private_data.py:189-283 | a seed without findings is such a seed |
| SeedMetrics.CheckedIsMarked | scripts/check_private_data.py:253-263 | the ablation never refuses a query of a seed without findings for missing relevant chunks |
| RagMetrics.FirstRankMeaning | evals/rag/report.py:184-188 | a positive rank points at a relevant chunk with none before it; zero means none at all |
| RagMetrics.FirstRankCut | evals/rag/ablation.py:88-93 | cutting the ranking keeps the first rank within the limit and loses it otherwise |
| RagMetrics.MetricsMonotone | evals/rag/report.py:221-223 | both numbers lie in [0, 1] and never fall as the limit grows |
| RagMetrics.RecallMeaning | evals/rag/report.py:176-183 | recall times the number of distinct relevant chunks is the number of these found within the limit |
| RagMetrics.ReciprocalMeaning | evals/rag/report.py:184-188 | the reciprocal rank is one over the position of the first relevant chunk within the limit, and zero without one |
| RagMetrics.MetricsOfOne | evals/rag/report.py:221-223 | the metrics of one query with something to find are its own recall and reciprocal rank |
| RagMetrics.MetricsConcat | evals/rag/report.py:221-223 | the metrics of two lists of queries together are the means of theirs, weighted by the queries that count |
| RagMetrics.RankingsMeaning | evals/rag/ablation.py:76-86 | the modes are measured on the dense ranking, the lexical one, their fusion and the reranking |
| HostNames.NormalizeIdempotent | services/api/src/study_agent/config.py:402-466 | normalising an accepted host again changes nothing, with or without wildcards |
| HostNames.StripMeaning | services/api/src/study_agent/config.py:403 | white space is removed at both ends and nowhere else |
| HostNames.NameOrAddress | services/api/src/study_agent/config.py:418-466 | a result is the name itself, with its wildcard prefix, or a printed address |
| HostNames.DotsMeanLabels | services/api/src/study_agent/config.py:419 | the checks on dots hold exactly when no label is empty |
| HostNames.DnsAccepted | services/api/src/study_agent/config.py:418-466 | a candidate that is no address is accepted, unchanged, exactly when it is a DNS name of bounded non-empty labels |
| HostNames.NormalizeMeaning | services/api/src/study_agent/config.py:402-466 | on every input: blank stays, `*` where allowed, addresses are printed, version 6 also from brackets, DNS names stay, `*.` before a DNS name where allowed, and everything else is refused |
| HostNames.NormalizeAllowedHosts | services/api/src/study_agent/config.py:183-191 | the loop is the specified list, stopped by the first invalid entry |
| HostNames.AllNormal | services/api/src/study_agent/config.py:183-191 | the configured list holds distinct, non-empty, normalised hosts |
| HostNames.NormalizeAllIdempotent | services/api/src/study_agent/config.py:183-191 | normalising the configured list again changes nothing |
| HostNames.SuffixIsLabelwise | services/api/src/study_agent/main.py:199 | ending with a dot and a domain is having its labels as a proper ending |
| HostNames.AllowedMeaning | services/api/src/study_agent/main.py:190-218 | a host is allowed exactly when some entry is `*`, the host, or, for hosts not like an address, a wildcard whose labels the host properly extends |
| HostNames.AddressAllowed | services/api/src/study_agent/main.py:190-218 | a host that parses as an address, or whose labels are all decimal digits or `0x` before hexadecimal ones, is allowed exactly when it or `*` is listed |
| HostNames.OrdinaryAllowed | services/api/src/study_agent/main.py:190-218 | any other host is allowed exactly when it or `*` is listed, or its labels properly extend those of a domain listed after `*.` |
| HostNames.AllowedAnyOrder | services/api/src/study_agent/main.py:190-201 | the answer does not depend on the order or repetition of entries, early returns notwithstanding |
| SeedFormat.CheckLines | scripts/check_private_data.py:196-209 | reading yields the records in order, with a finding exactly if some line holds no object |
| SeedFormat.CheckIds | scripts/check_private_data.py:210-214 | no finding exactly for distinct non-empty textual identifiers; a duplicate is found exactly when two are equal, true and 1 included; an unhashable one raises |
| SeedFormat.CheckRecord | scripts/check_private_data.py:218-242 | a record adds no finding exactly if its head and, for a chunk, its fields are in order and its content is new; a forbidden field and a known content have their own kind of finding; it raises exactly when the text of a valid chunk cannot be encoded |
| SeedFormat.CheckChunks | scripts/check_private_data.py:216-242 | the loop collects exactly the valid chunks, with no finding exactly if heads, chunks and contents are all in order; a forbidden field and a repeated content are found exactly when there are some; it raises exactly when the text of a valid chunk cannot be encoded |
| SeedFormat.CheckRoute | scripts/check_private_data.py:265-278 | a route has no finding and only known chunks exactly if it is well formed |
| SeedFormat.CheckReferences | scripts/check_private_data.py:264-280 | a well-formed query has no finding exactly if all it refers to are chunks |
| SeedFormat.IsBadQuery | scripts/check_private_data.py:250-263 | the tests on the fields of a query hold exactly for those that are not in order, and raise exactly when they look up a split that is a list or an object |
| SeedFormat.CheckQueries | scripts/check_private_data.py:244-280 | no finding exactly if every other record is a query in order; it raises exactly when a split it looks up is a list or an object |
| SeedFormat.VerifyRagSeed | scripts/check_private_data.py:196-283 | once the lines are decoded: no findings exactly for a clean seed; forbidden fields, repeated contents and repeated identifiers are each found exactly where there are some; raises exactly when an identifier or a split it looks up cannot be hashed or the text of a valid chunk cannot be encoded |
| SeedFormat.ReadRecords | evals/rag/report.py:268-279 | the first loop accepts exactly loadable lines and collects records and chunk identifiers |
| SeedFormat.ReadQuery | evals/rag/report.py:283-301 | one record is read as its query exactly when it has a textual identifier, a list of known chunk identifiers, a boolean for abstention and one of the three splits |
| SeedFormat.ReadQueries | evals/rag/report.py:280-301 | the second loop accepts exactly loadable queries and builds their dictionary |
| SeedFormat.LoadSeedQueries | evals/rag/report.py:267-304 | the loader accepts exactly loadable seeds with a query |
| SeedFormat.QueriesExact | evals/rag/report.py:280-301 | with distinct identifiers the dictionary holds exactly the query records |
| SeedFormat.CheckedSeedLoads | evals/rag/report.py:267-304 | a seed without findings loads exactly when it has a query, and yields exactly its query records, with relevant ids that are chunks and abstention expected exactly when there are none |

## Left out

- Floating point: scores, percentiles and means are exact reals, with 1/2 and 19/20 for the two percentiles; rounding is not modelled.
- Unicode NFC, case folding, SHA-256, `str.lower` and `ip_address` are parameters. `HostNames.Sound` lists what is assumed of the last two; nothing is assumed of the others. `isdigit`, `isalnum` and `isupper` are modelled on ASCII; whether a parser's error code with other characters is accepted is a parameter.
- Normalising a page (block order, titles, section paths, box scaling) is not part of this model: a page is the record of what it is computed from, and the environment says whether normalisation and each asset are accepted.
- A local file write and the upload that follows it are one effect with one answer, so a refused effect may be a failed write; artifact names and canonical hashes are not modelled.
- `update_progress` cannot fail: it stores its argument. Exceptions other than ValueError, OSError and TaskExecutionError are told apart by a name only. What the parser returns for a page depends on that page only, since each page is parsed once.
- ParseTrace.ScriptSafety, ParseTrace.HandleSafety: speak of the kinds and pages of effects; ParseLinks says what the effects contain.
- In the output budget, receiving a block and counting it is one step because a reader is suspended only while it waits for a block; process exit, killing the group and the timeout itself appear only as cancellation from outside.
- The text parsing of `ps` output is not part of this model, nor is decoding a file or a line of JSON and what that may raise; rows and lines are given parsed.
- SeedFormat.VerifyRagSeed: findings are a list of codes; their final sorting and removal of repetitions is left out, and Python's `True == 1` is modelled only where it decides about duplicates.
- Predictions with the same page twice: the map of predictions by page is given.
- SeedMetrics.SeedProgramsAgree: the sorted identifiers of the report are any list of the loader's keys without repetition; `str`, `int` and `float` on JSON values other than texts are parameters.
- Rankings.Ranked: the conversions `str`, `int` and `float` of a candidate's fields are given with the item, as the converted value or as unusable; which exception an unusable field raises is not told apart.
- Citation, abstention and latency fields of the RAG report, the observation validators, `_count_f1`, `_gold_kind_count` and the mean of matched scores are flat counts and checks.
- `normalize_allowed_origins`, the parsing of request headers and all settings validation beyond hosts.
- React components, database, HTTP and process management.
