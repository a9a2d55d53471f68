# FlavoRAG verification

Machine-checked models, in Dafny 4.11, of the algorithmic cores of the FlavoRAG platform: query clustering, retrieval
metrics and quality gates, the embedding query cache, document chunking, the ingestion pipeline and its generation
switch, the event stream between server and web client, citation checking, merged pagination, and mock interviews.

`dafny verify dfyconfig.toml` checks everything. Paths below are relative to the root of the FlavoRAG repository.

## How the model is built

Code that works step by step is modelled by methods with loops, by arrays it overwrites (labels, time buckets) and by
classes whose methods update fields (the cycle search, the stream reader, the query cache, the structured chunker, the
ingestion pipeline, the interview API). Each such method is proved against a specification function or predicate, and
what the code is for is proved of that specification as lemmas over all inputs or all runs. Code made of expressions is
modelled by functions.

- Floating point is `real`. Square root and binary logarithm are arbitrary functions of which only what a lemma states in
  its `requires` is used (`IsLog2`: positive and increasing from 2 on; `IsRoot`: not negative; `IsSquareRoot`: exact).
- Regular expressions over lines, term extraction, similarity, white space and text normalisation are
  arbitrary predicates or functions. Citation markers and sentence ends are searched for
  character by character.
- Calls to the model provider, Milvus, Elasticsearch, Neo4j, S3 and SQL are parameters that say how each call ends; a
  database transaction is a value that a rollback restores. Ids that the code makes up are parameters that must be new.
- Ingestion runs of a document may overlap, but its row is updated and flushed before the live rows are read
  (`flavorag-server/app/services/ingestion_jobs.py:257`, `flavorag-server/app/api/knowledge.py:1099`,
  `flavorag-server/app/ingestion/pipeline.py:119`), and the lock on it is held to the end of the transaction. So they
  change the tables one after the other, and only the generation that a request reads at its start can be out of date
  (`LateRequest`).
- The requests of `Interview` and `InterviewRuns` happen one after the other. In `InterviewRaces` and
  `InterviewSchedules` requests overlap: each reads committed rows at one time and commits at another, on top of whatever
  others committed in between, as READ COMMITTED allows (`flavorag-server/app/database/session.py:28-38` sets no
  other isolation level, and no row is read for update). Row locks only delay commits.
- `decode` of network bytes is left out: the reader's input is text that arrives in arbitrary pieces.

| files | repository code |
|---|---|
| `Cosine`, `Clustering`, `ClusterSplits` | the cosine distance, worklist DBSCAN of failed queries, and when it separates adjacent cores |
| `CaseMetrics`, `CaseHits`, `NdcgExactly`, `QualityReport`, `RunMetrics` | metrics of a case, of a run, and the quality gates |
| `LruSpec`, `QueryCache` | the query cache: least-recently-used entries and one provider call per key |
| `FixedWindow`, `BlockParser`, `RangePacker`, `ChunkPacker`, `ParagraphSplitter`, `StructuredChunker`, `StructuredChunks` | the chunkers |
| `PipelineGraph`, `PipelineOrder` | pipeline validation, the run queue and its order, node retries |
| `Generations`, `GenerationRuns` | ingestion of a document and the switch between generations |
| `EventStream`, `AnswerReplay` | the event stream, replayed answers, conversation budget |
| `Markers`, `Nesting`, `Citations`, `CitationReview` | citation markers, what removing them uncovers, and their validation |
| `Joining` | the markers of a rewritten answer as its reader finds them |
| `Monitoring` | one page over two sources, counts per time bucket |
| `Interview`, `InterviewEffects`, `InterviewRuns` | the interview life cycle, one request after the other |
| `InterviewRaces`, `InterviewSchedules` | interview requests that overlap |
| `Finite`, `Fractions`, `Options` | counting facts about finite sets and sequences; quotients; optional values |

## Where the code does not do what one expects

Each of these is proved, with the exact condition under which the code does keep the promise.

- Two adjacent core points can end in different clusters, because starting a cluster counts the point itself and growing
  one does not. Adjacent cores always share a cluster exactly for `min_samples <= 2`; from 3 on there are embeddings that
  separate two of them (`ClusterSplits.AdjacentCoresTogetherExactly`).
- NDCG can leave [0, 1]. It stays there for every case and result exactly when the relevance table has no grade for `""`
  and either no negative grade or only equal ones (`NdcgExactly.NdcgUnitExactly`).
- Merged pagination is exact only for pages within the first 1000 rows (`Monitoring.PagingExactly`).
- The event stream is read back as printed exactly when names and payloads are single lines without space at their ends
  (`EventStream.RoundTripExactly`).
- A replayed answer loses text when a cut falls just before the characters `__THINK__`
  (`AnswerReplay.ReplayIsFaithfulExactly`).
- Removing a citation marker can uncover another that nobody judged (`Citations.RemovalCanUncoverAMarker`). It does so
  exactly if somewhere in the sentence a `[` is followed only by digits and markers, with at least one of each, up to a
  `]` that no `(` follows (`Nesting.UncoveredExactly`). Just then a rewritten claim does not show exactly its settled
  sources (`Citations.SentenceReadsBack`).
- A second review of a rewritten sentence can change it or its counts, also where it uncovers no marker: in
  `word [1[2]3](link)` the number 13 is a term of the claim at first and not any more the second time
  (`Citations.LinkLosesItsNumber`). For all sources and all ways to extract terms it is without effect exactly if nowhere
  a `[` is followed only by digits and markers, with at least one of each, up to a `]` (`Citations.ReviewOnceExactly`).
- A marker can become a link when sentences are put side by side again: from `so it is.(see below)` the reader gets
  `so it is.[1](see below)`, while source 1 is reported as cited (`Joining.MarkerBecomesLink`). The reader finds all
  markers that were given exactly if no supported sentence stands in front of one that starts with `(`
  (`Joining.AnswerReadsBack`), and then every source that is reported (`Joining.CitedIsShown`).
- The run queue can run a node before one of its predecessors: of a to d, b to c and c to d it runs d before c
  (`PipelineOrder.DetourRunsTooEarly`). Whatever the order of the node list, every node runs after all its predecessors
  exactly if all predecessors of any node are equally far from their nearest sources (`PipelineOrder.InOrderExactly`).
- A request that ingests at once takes over the generation of a queued job; when the job runs, old and new chunks are
  live side by side (`GenerationRuns.RequestThenJobDoubles`, `GenerationRuns.ExactlyTheNewChunks`). A run that yields no
  chunks sets the chunk count to 0 and leaves the old chunks live (`GenerationRuns.CountIsTrueExactly`). Two requests that
  overlap can share a pending generation, with the same effect (`GenerationRuns.OverlappingRequestsDouble`,
  `GenerationRuns.LateRequestExactly`).
- After a failed query embedding a retry meets the failed call until its deferred discard has run
  (`QueryCache.RetryMeetsFailureExactly`, met in a run by `QueryCache.FailureIsMet`).
- Interview requests that overlap can break what they keep when they come one after the other. Giving up during scoring
  overwrites the completion, which stays in the count (`InterviewSchedules.AbandonOverwrites`); an interview submitted
  twice is counted twice (`InterviewSchedules.SubmitCountsTwice`); an answer saved during scoring changes a completed
  interview (`InterviewSchedules.AnswerChangesLate`). The refusal for a session in scoring is no help, because no
  request ever reads that status (`InterviewSchedules.ScoringNeverSeen`). Invariant and ended interviews survive exactly
  if every commit that writes something new finds its session still open and the count it read still right, or, when it
  clears the history, read every session that is completed (`InterviewSchedules.SchedulesExactly`). For that it is enough
  that nobody else wrote to them since it read (`InterviewSchedules.NobodyElseWrote`).

## Model

| member | source | states |
|---|---|---|
| Cosine.CosineDistanceSymmetric | flavorag-server/app/evaluation/query_clusters.py:28-37 | The distance is symmetric, whatever the square root returns, also for vectors of different or zero length. |
| Cosine.CosineDistanceExactly | flavorag-server/app/evaluation/query_clusters.py:28-37 | For an exact square root, one minus the distance has the sign of the dot product, and its square times the squared lengths is the squared dot product; without lengths to compare the distance is 1; it always is in [0, 2]. |
| Cosine.DotBounded | flavorag-server/app/evaluation/query_clusters.py:28-37 | The inequality of Cauchy and Schwarz, from which the range follows. |
| Cosine.DirectionDecides | flavorag-server/app/evaluation/query_clusters.py:28-37 | Scaling a vector does not change its distances. |
| Cosine.OneDirection | flavorag-server/app/evaluation/query_clusters.py:28-37 | Vectors of one direction have distance 0. |
| Clustering.RegionQuery | flavorag-server/app/evaluation/query_clusters.py:104-111 | The list holds every other point within eps once. |
| Clustering.ExtendWork | flavorag-server/app/evaluation/query_clusters.py:75-77 | The worklist gains the new neighbours and never holds an index twice. |
| Clustering.Walk | flavorag-server/app/evaluation/query_clusters.py:67-78 | One worklist entry: noise and unvisited points get the label, and only an unvisited point with min_samples other neighbours puts them on the list; all else is unchanged. |
| Clustering.Expand | flavorag-server/app/evaluation/query_clusters.py:64-78 | Expansion ends, closes the youngest cluster under its expanding points, and touches no other cluster. |
| Clustering.Process | flavorag-server/app/evaluation/query_clusters.py:53-78 | One turn of the outer loop leaves all clusters so far closed, linked to their seeds and in index order. |
| Clustering.ClusterLabels | flavorag-server/app/evaluation/query_clusters.py:47-78 | For every input the labels form a clustering: no -1 remains, clusters are closed, every member has a chain of near steps through expanding points from its seed, noise is not core, seeds are the cores that no older cluster took. |
| Clustering.StrongCoresTogether | flavorag-server/app/evaluation/query_clusters.py:74-77 | Adjacent points with min_samples other neighbours each are in the same cluster. |
| Clustering.NoiseExactly | flavorag-server/app/evaluation/query_clusters.py:60-69 | A point is noise if and only if it is no core and no neighbour expanded a cluster; so no strong core is near noise. |
| Clustering.ClusterConnected | flavorag-server/app/evaluation/query_clusters.py:62-78 | Any two members of a cluster reach each other through its seed by near steps through expanding points. |
| Clustering.ClusteringUnique | flavorag-server/app/evaluation/query_clusters.py:59-78 | The clustering contract fixes the labels: two clusterings of one input are equal, so that what is said of labels is said of the input. |
| ClusterSplits.AdjacentCoresTogetherExactly | flavorag-server/app/evaluation/query_clusters.py:28-77 | The usual promise for adjacent cores holds for all embeddings and radii if and only if min_samples is at most 2; from 3 on there are embeddings of which every clustering separates two adjacent cores, whatever square root is exact. |
| CaseMetrics.BuildHashTable | flavorag-server/app/evaluation/runner.py:268-272 | The table has exactly the non-empty hashes in front of the shorter list, each with the id that stands with its last occurrence. |
| CaseMetrics.LastHashWins | flavorag-server/app/evaluation/runner.py:268-272 | A hash resolves to the id at its last position. |
| CaseMetrics.ResolveHits | flavorag-server/app/evaluation/runner.py:276-292 | The loop marks as hits the ranks that are the first to hit their expected chunk, by id or by hash. |
| CaseMetrics.ResolvedNew | flavorag-server/app/evaluation/runner.py:276-292 | Credited chunks are expected ones, and no chunk is credited twice, even if a backend repeats results. |
| CaseHits.CreditedExactly | flavorag-server/app/evaluation/runner.py:276-292 | A rank is credited with a chunk if and only if it is the first to name it: by its id, or, if that is not expected, by a hash of which the chunk is the last expected entry. |
| CaseHits.HitExactly | flavorag-server/app/evaluation/runner.py:276-292 | The chunks that are hit are exactly those that some rank among the first top_k names. |
| CaseMetrics.HitsBounded | flavorag-server/app/evaluation/runner.py:294-296 | There are at most as many hits as expected chunks, and as ranks, so precision and recall do not exceed 1. |
| CaseMetrics.SumPrecisions | flavorag-server/app/evaluation/runner.py:298-303 | The running sum is the sum of the precisions at the hit ranks. |
| CaseMetrics.AveragePrecisionBounded | flavorag-server/app/evaluation/runner.py:298-306 | Average precision is in [0, 1], and 1 if and only if something is expected and the first min(expected, k) ranks are all new hits. |
| CaseMetrics.DiscountedGain | flavorag-server/app/evaluation/runner.py:308-311 | The loop computes the discounted sum of the grades of the credited chunks. |
| CaseMetrics.TopSumBound | flavorag-server/app/evaluation/runner.py:308-313 | Any n distinct chunks together have at most the n highest grades. |
| CaseMetrics.Dominated | flavorag-server/app/evaluation/runner.py:311-313 | Sequences with dominated prefix sums stay dominated after discounting by rank, with equality only if all prefix sums agree. |
| CaseMetrics.NdcgBounded | flavorag-server/app/evaluation/runner.py:307-330 | Over a well-graded table NDCG is in [0, 1] for every returned list, and 1 if and only if there is something to gain and the ranks carry the grades of the ideal ranking one by one. |
| NdcgExactly.NdcgUnitExactly | flavorag-server/app/evaluation/runner.py:307-330 | NDCG is in [0, 1] for all cases and results over a table if and only if "" has no grade and no grade is negative or all are equal. |
| NdcgExactly.UnequalNegative | flavorag-server/app/evaluation/runner.py:307-330 | A negative grade among unequal ones always allows a result whose NDCG leaves [0, 1]. |
| NdcgExactly.GradedMiss | flavorag-server/app/evaluation/runner.py:307-311 | A grade for "" is credited to a rank that hits nothing, and pushes NDCG above 1. |
| CaseMetrics.CalculateCaseMetrics | flavorag-server/app/evaluation/runner.py:254-334 | The loops together compute every score of a case as it is defined. |
| CaseMetrics.ScoresBounded | flavorag-server/app/evaluation/runner.py:294-334 | Whatever the grades, precision, recall, hit, reciprocal rank, average precision and document recall are in [0, 1]; recall, hit and reciprocal rank are positive together. |
| CaseHits.ScoresByRanks | flavorag-server/app/evaluation/runner.py:294-334 | Precision, recall, hit, reciprocal rank and the verdict of a case, by the chunks that its ranks name. |
| CaseHits.DocRecallExactly | flavorag-server/app/evaluation/runner.py:314-316 | Document recall is the share of expected documents among the first top_k returned ones. |
| CaseHits.RankWeight | flavorag-server/app/evaluation/runner.py:308-311 | A grade counts in full at the first rank, half at the third, a third at the seventh, and so on. |
| CaseHits.HitAdds | flavorag-server/app/evaluation/runner.py:298-303 | Each hit adds the share of hits up to its rank, wherever the others are. |
| QualityReport.JaccardUnit | flavorag-server/app/evaluation/runner.py:659-661 | The overlap of two lists is symmetric, in [0, 1], and 1 if and only if they have the same elements. |
| RunMetrics.JaccardExactly | flavorag-server/app/evaluation/runner.py:659-661 | The overlap is the share of common elements among all. |
| QualityReport.StabilityUnit | flavorag-server/app/evaluation/runner.py:216-221 | The mean overlap of all runs with the first is in [0, 1]. |
| QualityReport.QualityScoreUnit | flavorag-server/app/evaluation/runner.py:337-397 | The quality score of a run is in [0, 1], if stabilities are and the tables of the cases that are ranked are among those NDCG can take. |
| RunMetrics.SelectionsExactly | flavorag-server/app/evaluation/runner.py:337-397 | Which cases the means are over: the last active case of each id that has a result; ranked ones are answerable and expect chunks, refusals are not answerable and not adversarial. |
| RunMetrics.ByIdExactly | flavorag-server/app/evaluation/runner.py:344 | The last result of a case is the one that is looked at. |
| RunMetrics.QualityPoints | flavorag-server/app/evaluation/runner.py:390-397 | Of a hundred points recall gives 30, NDCG 20, reciprocal rank and refusals 15 each, stability and passes 10 each. |
| QualityReport.CiAroundMean | flavorag-server/app/evaluation/runner.py:671-682 | The mean of values in [0, 1] lies between the two bounds, and these in [0, 1]. |
| RunMetrics.CiExactly | flavorag-server/app/evaluation/runner.py:671-682 | The interval lies around the mean by the margin of the normal approximation, whose square is 1.96 squared times the sample variance over the number of values, clipped to [0, 1]. |
| RunMetrics.DeviationsExactly | flavorag-server/app/evaluation/runner.py:678-680 | The squared deviations by the sum of squares and the sum of the values. |
| QualityReport.LowerBoundSound | flavorag-server/app/evaluation/runner.py:671-682 | A positive lower bound is below the mean, of any values and not only of those in [0, 1]. |
| QualityReport.AssessQualityGates | flavorag-server/app/evaluation/runner.py:519-569 | Every gate is reported with its value and compared with the lower bound where there is one; the status is passed if and only if all pass; if positive lower bounds are below their values, a gate that passes is met by the value itself. |
| QualityReport.GatesSound | flavorag-server/app/evaluation/runner.py:428-440 | In the report of any run, whatever its tables, no gate passes by a lower bound while the mean fails it. |
| QualityReport.PercentileRank | flavorag-server/app/evaluation/runner.py:664-668 | The percentile is one of the sorted values, at least that share of the values is at or below it, and it grows with the share. |
| LruSpec.RecentDistinct | flavorag-server/app/llm/embedding.py:70-74 | The keys by last touch are the distinct keys of the log. |
| LruSpec.BehindKey | flavorag-server/app/llm/embedding.py:88-92 | Behind a key in recency order are exactly the keys that were touched after its last touch. |
| LruSpec.HeldExactly | flavorag-server/app/llm/embedding.py:88-92 | A key is among the last n if and only if it was touched and fewer than n other keys were touched since. |
| LruSpec.TouchHeld | flavorag-server/app/llm/embedding.py:88-92 | Moving a key to the end and dropping the oldest keeps the holdings equal to the last n distinct keys of the longer log. |
| QueryCache.EmbeddingQueries.LookUp | flavorag-server/app/llm/embedding.py:68-83 | The first lock section: a held vector becomes the most recent, a registered call is joined, otherwise one call is started and registered. |
| QueryCache.EmbeddingQueries.Save | flavorag-server/app/llm/embedding.py:88-92 | The second lock section: the vector becomes the most recent entry and only the oldest are evicted, down to 256. |
| QueryCache.EmbeddingQueries.DiscardInflight | flavorag-server/app/llm/embedding.py:168-174 | The deferred discard unregisters its own call if that is still the registered one. |
| QueryCache.InvKept | flavorag-server/app/llm/embedding.py:68-93 | Every enabled step of any interleaving (lookup, end of a call, discard, wake-up, store, cancellation) keeps the invariant of the protocol. |
| QueryCache.ReachableInv | flavorag-server/app/llm/embedding.py:68-93 | The invariant holds in every reachable world. |
| QueryCache.OneCallPerKey | flavorag-server/app/llm/embedding.py:75-83 | At most one provider call per key runs, under all interleavings and cancellations. |
| QueryCache.CallStartsExactly | flavorag-server/app/llm/embedding.py:71-83 | A lookup starts a call if and only if the key is neither held nor registered, and then no call for it is running. |
| QueryCache.DiscardTakesOnlyItsOwn | flavorag-server/app/llm/embedding.py:168-174 | A discard that is due never removes a newer call. |
| QueryCache.NothingLeaks | flavorag-server/app/llm/embedding.py:79-83 | When no call runs and no discard is due, nothing is registered, after failures too. |
| QueryCache.VectorsAreProduced | flavorag-server/app/llm/embedding.py:87-93 | Every returned and every cached vector is the result of a call for that key; failures are never cached. |
| QueryCache.HeldInRuns | flavorag-server/app/llm/embedding.py:70-92 | In every run the cache holds at most 256 keys, and a key if and only if fewer than 256 other keys were hit or stored since its last touch. |
| QueryCache.RetryMeetsFailureExactly | flavorag-server/app/llm/embedding.py:75-87 | A lookup joins a failed call if and only if the discard of that call is still due. |
| QueryCache.FailureIsMet | flavorag-server/app/llm/embedding.py:75-87 | Such a world is reachable for every key: one call that failed, and the next lookup joins it. |
| QueryCache.EmbedDocuments | flavorag-server/app/llm/embedding.py:103-111 | The loop asks batch by batch and joins what the provider returns, however many vectors that are, up to the first failure. |
| QueryCache.BatchesFit | flavorag-server/app/llm/embedding.py:103-107 | The batches are the texts in order, all but the last full, none empty. |
| QueryCache.BatchingIsInvisible | flavorag-server/app/llm/embedding.py:103-111 | If every batch gets one vector for each text, the result has the vector of every text in order, as if asked at once. |
| QueryCache.FailsExactly | flavorag-server/app/llm/embedding.py:103-111 | The whole fails if and only if some batch fails. |
| FixedWindow.LastBreakExactly | flavorag-server/app/ingestion/chunker.py:358-384 | The break that is searched for is the last one of its kind in reach and past the start, if there is one. |
| FixedWindow.BreaksInOrder | flavorag-server/app/ingestion/chunker.py:358-384 | Newlines come first, then the ends of Chinese sentences, then those of English ones, which white space or nothing follows. |
| FixedWindow.AdjustToBoundary | flavorag-server/app/ingestion/chunker.py:349-386 | The three look-back loops find the last newline, else the last Chinese, else the last English sentence end within reach, else the target. |
| FixedWindow.AdjustedEndBounds | flavorag-server/app/ingestion/chunker.py:349-386 | The adjusted end stays past the start, and less than the overlap before the target. |
| FixedWindow.AdjustedEndExactly | flavorag-server/app/ingestion/chunker.py:349-386 | The end lies behind the last newline in reach; without one, behind the last Chinese, then English, sentence end in reach; without any, at the target. |
| FixedWindow.WindowEndsRight | flavorag-server/app/ingestion/chunker.py:320-328 | Every window ends there for its target, or at the target if that is not past the end of the window before. |
| FixedWindow.OptionsAreKept | flavorag-server/app/ingestion/chunker.py:311-316 | Options that make sense are taken as they are, others are moved to the nearest that does. |
| FixedWindow.EmittedInOrder | flavorag-server/app/ingestion/chunker.py:330-333 | Chunks come in the order of the windows. |
| FixedWindow.Slide | flavorag-server/app/ingestion/chunker.py:320-344 | The loop ends and its windows tile the text: each has 1 to chunk_size characters, starts and ends both grow, neighbours share exactly `overlap` characters, or none if the first one is no longer than that, the last one ends with the text; the chunks are the windows that are not blank, numbered in order. |
| FixedWindow.ChunkText | flavorag-server/app/ingestion/chunker.py:304-344 | The same for every text and option as given: blank text has no chunks, -1 asks for one chunk, sizes are clamped, and dropping the overlaps rebuilds the normalised text. |
| FixedWindow.RebuildsText | flavorag-server/app/ingestion/chunker.py:320-344 | Windows without what they share with the one before give back the text up to the last end. |
| FixedWindow.NothingVisibleLost | flavorag-server/app/ingestion/chunker.py:330-333 | Every character that is not white space is in an emitted chunk. |
| BlockParser.ParseBlocks | flavorag-server/app/ingestion/chunker.py:874-1006 | The parser ends on every text and every set of line rules; blocks are in order, disjoint, on line boundaries, of the kind that their first line opens, and end exactly where their kind ends; every line that opens a block is in one. |
| BlockParser.TakeList | flavorag-server/app/ingestion/chunker.py:969-990 | A list takes items and single blank lines between them (only its last line may be blank with no item behind it), and ends with the text, behind such a blank line, or in front of a line that is neither item nor blank. |
| BlockParser.TakeFree | flavorag-server/app/ingestion/chunker.py:928-996 | A line outside code and tables closes or continues the paragraph, or becomes a block of its own kind, and the parse moves on. |
| BlockParser.OpensWhatClaims | flavorag-server/app/ingestion/chunker.py:897-996 | A line opens a block of a kind that claims it, and if only one kind does, of that; a line that no rule claims belongs to a paragraph. |
| BlockParser.ExactlyOneBlock | flavorag-server/app/ingestion/chunker.py:874-1006 | Every line that is not blank is wholly in exactly one block. |
| BlockParser.ParseUnique | flavorag-server/app/ingestion/chunker.py:874-1006 | All this leaves no choice: there is one parse of a text. |
| BlockParser.NeverTouch | flavorag-server/app/ingestion/chunker.py:918-936 | Two paragraphs never touch, and two tables only at a separator that is no row. |
| RangePacker.TakeRange | flavorag-server/app/ingestion/chunker.py:686-707 | A range takes as many blocks as fit, and one more exactly if there is one and the range would be too small. |
| RangePacker.RangeUnique | flavorag-server/app/ingestion/chunker.py:686-707 | There is one such range. |
| RangePacker.PackBlocks | flavorag-server/app/ingestion/chunker.py:680-719 | The ranges cover all blocks in order, and each is filled greedily; the last is merged into the one before if and only if it is smaller than min_chars and half the target and both fit twice max_chars, and nothing else is merged. |
| RangePacker.BlockInOneRange | flavorag-server/app/ingestion/chunker.py:680-719 | Every block is wholly in exactly one range. |
| ChunkPacker.MergeBuffer | flavorag-server/app/ingestion/chunker.py:1252-1286 | A merged chunk joins contents and embedding texts in order, keeps a kind that all share, and the common outline. |
| ChunkPacker.OutlineIsGreatest | flavorag-server/app/ingestion/chunker.py:1269-1276 | The merged outline is the greatest common prefix of its members. |
| ChunkPacker.PackChunks | flavorag-server/app/ingestion/chunker.py:1212-1250 | Groups, flattened, are the input: nothing is lost, repeated or reordered; atomic and large chunks pass unchanged and are never merged across; small ones are merged until they are enough, and no longer. |
| ChunkPacker.GroupTotal | flavorag-server/app/ingestion/chunker.py:1231-1236 | A merged group totals less than twice min_chars. |
| ChunkPacker.JoinSplits | flavorag-server/app/ingestion/chunker.py:1258 | The join of two lists of texts is the join of the one, a blank line, and the join of the other. |
| ChunkPacker.MergedKind | flavorag-server/app/ingestion/chunker.py:1277-1278 | A merge is of the kind that all members with one share, and a paragraph otherwise. |
| ChunkPacker.MergedEmbedding | flavorag-server/app/ingestion/chunker.py:1260-1266 | Explicit texts are embedded, contents where there is none; without any, nothing is. |
| ChunkPacker.JoinLength | flavorag-server/app/ingestion/chunker.py:1258 | Merging adds exactly the separators to the contents. |
| ParagraphSplitter.FindSentenceBoundary | flavorag-server/app/ingestion/chunker.py:1181-1203 | The cut is the first sentence end from the target on within reach; only without one, the place behind the first newline; only without either, the target. |
| ParagraphSplitter.BoundaryUnique | flavorag-server/app/ingestion/chunker.py:1181-1203 | This leaves no choice: there is one right cut. |
| ParagraphSplitter.CutParagraph | flavorag-server/app/ingestion/chunker.py:1151-1179 | The cuts cover the text, and each is the right one for the cut before it; a text within the limit is not cut. |
| ParagraphSplitter.PieceLengths | flavorag-server/app/ingestion/chunker.py:1151-1179 | No piece but the last is shorter than the target, and none longer than both limits. |
| ParagraphSplitter.GroupParagraphs | flavorag-server/app/ingestion/chunker.py:258-276 | Semantic grouping keeps all paragraphs in order; a new group starts exactly where the one before would become too large, or is large enough and the paragraph not similar to the one before. |
| ParagraphSplitter.GroupsFit | flavorag-server/app/ingestion/chunker.py:258-276 | A group is one paragraph or within the limit, which only the first group may exceed, by one separator. |
| ParagraphSplitter.SizesAsAsked | flavorag-server/app/ingestion/chunker.py:261-262 | Sizes from 128 on are taken as they are, and groups may be half as large again. |
| StructuredChunker.GenericStructuredChunker.FlushText | flavorag-server/app/ingestion/structured.py:705-727 | Flushing turns the waiting blocks into one text chunk under the outline in force, and changes nothing else. |
| StructuredChunker.GenericStructuredChunker.AddTable | flavorag-server/app/ingestion/structured.py:736-763 | A table becomes its pieces of at most table_max_rows rows; a table without rows becomes one empty piece. |
| StructuredChunker.GenericStructuredChunker.AddBlock | flavorag-server/app/ingestion/structured.py:729-787 | A heading only sets the outline; any other block is taken next, with the outline in force where it stands. |
| StructuredChunker.ChunkDocument | flavorag-server/app/ingestion/structured.py:696-789 | The chunks come from groups of blocks that together are the document without its headings, in order and each with its outline; a group is one block, or text of at most target_chars; text of one section is only cut where the next block does not fit. |
| StructuredChunks.ChunksUnique | flavorag-server/app/ingestion/structured.py:696-789 | This leaves no choice: there is one way to chunk a document. |
| StructuredChunks.ContentsStand | flavorag-server/app/ingestion/structured.py:709 | The contents of the blocks of a text chunk stand in it in order, with a blank line between each two that are not empty. |
| StructuredChunks.JoinedLengthExactly | flavorag-server/app/ingestion/structured.py:709 | A text chunk has the characters of its blocks and two more for each gap, and no others. |
| StructuredChunks.TextIsKept | flavorag-server/app/ingestion/structured.py:705-727 | The content of every paragraph and list is in a text chunk that names its id, under the outline of its section. |
| StructuredChunks.SingleIsKept | flavorag-server/app/ingestion/structured.py:764-783 | Every code block and image is a chunk of its own, with its content, and its own outline if it has one. |
| StructuredChunks.PieceIsKept | flavorag-server/app/ingestion/structured.py:736-763 | Every piece of a table is a chunk that names it, with its own outline if it has one. |
| StructuredChunks.OutlineIsOfHeading | flavorag-server/app/ingestion/structured.py:730-733 | The outline in force is that of the last heading: its own, or else its text. |
| StructuredChunker.EveryBlockOnce | flavorag-server/app/ingestion/structured.py:700-812 | The source ids of the chunks, a table's repeats collapsed, list all blocks that are not headings once and in order; the index of every chunk is its position. |
| StructuredChunker.TableIsTiled | flavorag-server/app/ingestion/structured.py:736-763 | The pieces of a table hold all its rows once and in order; row numbers follow on from 1 to the number of rows, and every piece but the last is full. |
| StructuredChunker.TextChunksFit | flavorag-server/app/ingestion/structured.py:784-788 | A text chunk has one source block, or at most target_chars characters beside its separators. |
| PipelineGraph.CycleSearch.Visit | flavorag-server/app/ingestion/pipeline_engine.py:77-87 | The search ends; it fails only on a node that lies on a cycle, and otherwise leaves the call path as it was and the node visited, with a walk that ends. |
| PipelineGraph.ValidatePipelineGraph | flavorag-server/app/ingestion/pipeline_engine.py:55-90 | Accepted are exactly the non-empty pipelines with unique ids, known types, known successors and no cycle; each error is raised exactly when it is the first fault. |
| PipelineGraph.Sources | flavorag-server/app/ingestion/pipeline_engine.py:211-215 | The queue starts with exactly the nodes nothing points to. |
| PipelineGraph.AllReached | flavorag-server/app/ingestion/pipeline_engine.py:211-301 | In a graph without cycles whatever holds all sources and the successors of its members holds all nodes. |
| PipelineGraph.RunQueue | flavorag-server/app/ingestion/pipeline_engine.py:245-301 | Over an accepted graph the nodes run in queue order, none twice and none before some predecessor of it; unless a failure stops the run all nodes run; success means that no node failed. |
| PipelineGraph.RunOrderIsComplete | flavorag-server/app/ingestion/pipeline_engine.py:245-301 | In queue order every node has its turn once, and some predecessor of it before. |
| PipelineOrder.InOrderExactly | flavorag-server/app/ingestion/pipeline_engine.py:211-301 | Whatever the order of its nodes, an accepted pipeline runs every node after all its predecessors if and only if all predecessors of any node are equally far from their nearest sources. |
| PipelineOrder.DetourRunsTooEarly | flavorag-server/app/ingestion/pipeline_engine.py:55-90 | Four nodes that the validator accepts, and of which the last runs before one that leads to it. |
| PipelineGraph.Execute | flavorag-server/app/ingestion/pipeline_engine.py:209-301 | Validation and run together never report unreachable nodes; they succeed if and only if the pipeline is valid and no node fails, and then every node ran exactly once. |
| PipelineGraph.RunNode | flavorag-server/app/ingestion/pipeline_engine.py:343-403 | A node is tried until the first attempt that works, at most six times; it fails only if all attempts fail. |
| PipelineGraph.FirstFailureEnds | flavorag-server/app/ingestion/pipeline_engine.py:290-295 | If no node carries the `stop_on_error` setting, a run ends at its first failing node. |
| PipelineGraph.LatestSetting | flavorag-server/app/ingestion/pipeline_engine.py:256-259 | The latest node that carries the setting decides. |
| PipelineGraph.RetriesAsAsked | flavorag-server/app/ingestion/pipeline_engine.py:343-365 | A setting from 0 to 5 retries is kept, any other is moved to the nearest; without one the kind of the node decides. |
| Generations.IngestionPipeline.RetireOlder | flavorag-server/app/ingestion/pipeline.py:217-231 | Exactly the live rows of the document under another generation are superseded and deleted. |
| Generations.IngestionPipeline.SaveAndInsert | flavorag-server/app/ingestion/pipeline.py:129-192 | Rows are saved as pending and vectors inserted, up to the first failure; a failed asset store is fatal only if assets are required. |
| Generations.IngestionPipeline.IndexChannels | flavorag-server/app/ingestion/pipeline.py:202-214 | Only a required channel that fails is an exception. |
| Generations.IngestionPipeline.Run | flavorag-server/app/ingestion/pipeline.py:35-316 | A run ends well exactly when all it needs does, and then leaves the switched tables, or unchanged ones if there is no chunk; vectors stay whatever happens. |
| Generations.IngestionPipeline.Ingest | flavorag-server/app/services/ingestion_executor.py:87-102 | A run in its transaction: any failure restores the tables and keeps the vectors. |
| Generations.IngestionPipeline.IngestNow | flavorag-server/app/api/knowledge.py:980-995 | A request runs under the pending generation of the document, or else a new one, and leaves that pending only if the run found no chunks. |
| GenerationRuns.LiveAfterSwitch | flavorag-server/app/ingestion/pipeline.py:217-233 | After a switch the live chunks of the document are the new ones and those that were live under the same generation. |
| GenerationRuns.SwitchKeepsContent | flavorag-server/app/ingestion/pipeline.py:149-233 | The new rows carry the contents in order, and rows of other documents are untouched. |
| GenerationRuns.ExactlyTheNewChunks | flavorag-server/app/ingestion/pipeline.py:217-233 | Success makes exactly the new chunks live if and only if no live chunk of the document had the generation before. |
| GenerationRuns.LiveAssetsAfterSwitch | flavorag-server/app/ingestion/pipeline.py:234-262 | Under an unused generation the live assets of the document are those this run saved; other documents keep theirs. |
| GenerationRuns.RepairsQueued | flavorag-server/app/ingestion/pipeline.py:202-281 | Each channel that failed, and no other, gets one repair job, and only optional channels can. |
| GenerationRuns.SucceedsExactly | flavorag-server/app/ingestion/pipeline.py:35-316 | A run succeeds exactly if all works that it needs: everything but optional channels and optional assets. |
| GenerationRuns.SavedIsNotLive | flavorag-server/app/ingestion/pipeline.py:149-175 | Saving new rows makes none of them live. |
| GenerationRuns.CountIsTrueExactly | flavorag-server/app/services/ingestion_executor.py:90-102 | After a success the stored count is the number of live chunks if and only if an empty run found none live, or no live chunk had the generation. |
| GenerationRuns.StepKeeps | flavorag-server/app/ingestion/pipeline.py:149-282 | Queueing a job, running it, and ingesting at once, also after reading a generation that is out of date, with any failure, keep the invariant: what is live carries the active generation, has a vector, and a pending generation has no rows. |
| GenerationRuns.RunsKeepConsistent | flavorag-server/app/database/session.py:31-38 | The invariant holds after every sequence of such steps. |
| GenerationRuns.RequestSwitchesOrNothing | flavorag-server/app/api/knowledge.py:980-995 | In every run a request that nothing overtakes leaves the tables alone, or makes exactly its own chunks and assets live with a true count. |
| GenerationRuns.RequestThenJobDoubles | flavorag-server/app/services/ingestion_jobs.py:100-123 | A queued job whose generation a request has used in the meantime leaves both sets of chunks live, more than the stored count. |
| GenerationRuns.LateRequestExactly | flavorag-server/app/api/knowledge.py:980-995 | A request that others overtake makes exactly its own chunks live if and only if none is live under the generation that it read as pending or made up. |
| GenerationRuns.OverlappingRequestsDouble | flavorag-server/app/api/knowledge.py:980-995 | Two requests that read the same pending generation leave the chunks of both live, more than the stored count. |
| EventStream.SplitAppend | flavorag-frontend/src/hooks/useStreamResponse.ts:143-145 | Splitting text that arrives in two parts only depends on the unfinished line of the first, also between CR and LF. |
| EventStream.StreamReader.Read | flavorag-frontend/src/hooks/useStreamResponse.ts:137-158 | After each read the buffer, the event under construction and the dispatched events are those of the whole text so far. |
| EventStream.StreamReader.Close | flavorag-frontend/src/hooks/useStreamResponse.ts:139-142 | At the end pending data are dispatched and an unfinished line is dropped. |
| EventStream.ReadStream | flavorag-frontend/src/hooks/useStreamResponse.ts:137-158 | However the text is cut into reads, the events are those of one read of the whole. |
| EventStream.ReadPrinted | flavorag-server/app/api/chat.py:469-477 | Frames whose parts are single lines are read back trimmed, in order, and nothing else. |
| EventStream.ReadWeight | flavorag-frontend/src/hooks/useStreamResponse.ts:85-159 | Reading conserves payload: dispatched data are what the data lines carry. |
| EventStream.DataLinesJoin | flavorag-frontend/src/hooks/useStreamResponse.ts:85-125 | Data lines that follow each other are one event, their values trimmed and joined by newlines. |
| EventStream.RoundTripExactly | flavorag-server/app/api/chat.py:609-615 | Printed frames are read back exactly if and only if every name and payload is a single line without white space at its ends. |
| AnswerReplay.AgenticReplayTokens | flavorag-server/app/api/chat.py:133-145 | Each token is cut into pieces of the clamped size, the mark of a thought on every piece. |
| AnswerReplay.Listen | flavorag-server/app/api/chat.py:881-889 | The reading loop collects thoughts and answer of the tokens in order. |
| AnswerReplay.ReplayIsFaithfulExactly | flavorag-server/app/api/chat.py:133-145 | Replaying gives the same thoughts and the same answer if and only if no token is cut just before what reads as the mark. |
| AnswerReplay.ShortPiecesAreFaithful | flavorag-server/app/config/settings.py:255 | With pieces of up to eight characters, as by default, it always does. |
| AnswerReplay.AnAnswerCanBeTorn | flavorag-server/app/api/chat.py:138-144 | At nine characters an answer that mentions the mark loses it. |
| AnswerReplay.TruncateHistory | flavorag-server/app/api/chat.py:83-98 | The result is the longest end of the conversation that fits the budget, in order. |
| Markers.MarksAreRead | flavorag-server/app/api/chat.py:326-328 | Markers written one after the other are found again, with their numbers, and removing them leaves nothing. |
| Markers.RefsAppend | flavorag-server/app/api/chat.py:299-311 | Text that cannot run into a marker before it adds its own markers and changes none. |
| Nesting.UncoveredExactly | flavorag-server/app/api/chat.py:311 | Removing the markers leaves a text that reads as a citation if and only if somewhere a bracketed number around at least one marker has no `(` behind it. |
| Nesting.UnbracketedLoses | flavorag-server/app/api/chat.py:293-311 | Removing the markers first never leaves more text outside bracketed numbers, and less if a bracketed number stood around a marker. |
| Citations.SupportsExactly | flavorag-server/app/api/chat.py:230-237 | The support threshold in whole numbers of common terms. |
| Citations.JudgeRefs | flavorag-server/app/api/chat.py:298-310 | The loop keeps exactly the references in range whose source supports the claim, and counts the others as invalid. |
| Citations.SettledIsSupported | flavorag-server/app/api/chat.py:298-325 | A claim keeps its references that hold, gets none that does not, and stays without one if and only if no source supports it. |
| Citations.BestHasMost | flavorag-server/app/api/chat.py:312-319 | A claim is given the source that has most of its terms. |
| Citations.AscendingIsSorted | flavorag-server/app/api/chat.py:323-328 | The appended markers are ascending, without repeats, and exactly the settled sources. |
| Citations.ReviewClaim | flavorag-server/app/api/chat.py:297-329 | One claim: text, counters and cited sources come out as specified. |
| Citations.SentenceReadsBack | flavorag-server/app/api/chat.py:311-329 | Read on its own, a rewritten claim shows the markers that cleaning uncovered and then its settled sources; the latter alone if and only if no bracketed number around a marker, with no `(` behind it, stood in the sentence. |
| Citations.SentenceKeepsItsWords | flavorag-server/app/api/chat.py:311 | Beside its markers a rewritten claim is the old one without its markers and without space at its end. |
| Citations.RemovalCanUncoverAMarker | flavorag-server/app/api/chat.py:311 | `[[a]b]` loses `[a]` and then reads as a citation of b that was never judged, for all numbers a and b. |
| Citations.ReviewOnceIsEnough | flavorag-server/app/api/chat.py:297-329 | In that case it writes the same text, finds every marker valid, adds none, and counts the same. |
| Citations.ReviewOnceExactly | flavorag-server/app/api/chat.py:297-329 | A second review of the rewritten sentence, with the terms of its new text, is without effect for all sources and term extractions if and only if no bracketed number around a marker stood in it. |
| Citations.LinkLosesItsNumber | flavorag-server/app/api/chat.py:293-329 | A family of links whose number a marker interrupts: no marker is uncovered, and yet the claim is unsupported at first and gets a source the second time. |
| Citations.EnsuredOnce | flavorag-server/app/api/chat.py:172-210 | Without evidence: every reported citation names a source and is in the text, markers are added if and only if the answer names none, and a second pass changes nothing. |
| Citations.EnsuredKeepsAnswer | flavorag-server/app/api/chat.py:172-210 | The answer stays what it was, but for white space at its end and the markers behind it. |
| CitationReview.TableLines | flavorag-server/app/api/chat.py:257-269 | The marked lines are exactly heads, delimiters and rows of tables. |
| CitationReview.InFenceExactly | flavorag-server/app/api/chat.py:273-287 | A line lies in a fence exactly if the number of fence lines before it is odd. |
| CitationReview.TableShape | flavorag-server/app/api/chat.py:257-269 | A row of dashes below a line with a pipe makes a table of both and of all lines with a pipe that follow. |
| CitationReview.ValidateCitations | flavorag-server/app/api/chat.py:238-338 | The loop over lines, with its fence flag, computes the specified text and report. |
| CitationReview.CheckAnswer | flavorag-server/app/api/chat.py:213-216 | The answer is checked if and only if some source has content; otherwise citations are only made sure of. |
| CitationReview.LinesKeptVerbatim | flavorag-server/app/api/chat.py:275-296 | Lines of fences and tables, and lines that claim nothing, come out as they went in, in their place. |
| CitationReview.ReviewAddsUp | flavorag-server/app/api/chat.py:297-325 | In every review covered and unsupported claims add up to the claims, and every cited number names a source. |
| CitationReview.StatsAreSound | flavorag-server/app/api/chat.py:331-338 | Reported citations are sorted, unrepeated and in range; coverage is in [0, 1], and 1 if and only if no claim is unsupported. |
| CitationReview.AppendedExactly | flavorag-server/app/api/chat.py:312-336 | The report says that a source was added exactly if some claim is supported, but names no source that holds. |
| CitationReview.CitedIsJustified | flavorag-server/app/api/chat.py:276-325 | Every reported source is named on a protected line or supports a claim of a rewritten one. |
| CitationReview.MarkersBalance | flavorag-server/app/api/chat.py:276-325 | Every marker that is judged is cited or counted invalid; further citations are the added ones. |
| Joining.SentencesAreCut | flavorag-server/app/api/chat.py:288-292 | Cutting a line loses nothing; every sentence but the last ends in punctuation, and none but the first starts with a bracketed number. |
| Joining.SideBySide | flavorag-server/app/api/chat.py:311-332 | Of two texts side by side the reader finds all markers of both, but for the last of the first one if a `(` follows it. |
| Joining.LineReadsBack | flavorag-server/app/api/chat.py:290-331 | The rewritten sentences of a line, side by side, show the markers of each if and only if no supported claim stands in front of a sentence that starts with `(`. |
| Joining.AnswerReadsBack | flavorag-server/app/api/chat.py:274-332 | The same for a whole answer with its protected lines and line ends. |
| Joining.CitedIsShown | flavorag-server/app/api/chat.py:326-334 | In that case every source that is reported as cited is one whose marker the reader finds. |
| Joining.MarkerBecomesLink | flavorag-server/app/api/chat.py:290-331 | A family of lines on which the appended marker is a link to the reader, while its source is reported as cited. |
| Monitoring.StableSortSorts | flavorag-server/app/api/monitoring.py:574 | The sort is a permutation, latest first, and keeps the order of rows of one instant. |
| Monitoring.SortUnion | flavorag-server/app/api/monitoring.py:489-574 | Sorting the union of two sorted sources is their stable merge. |
| Monitoring.MergeFront | flavorag-server/app/api/monitoring.py:489-509 | The first n merged rows only need the first n rows of each source. |
| Monitoring.PagingExactly | flavorag-server/app/api/monitoring.py:489-579 | Every page over any two tables, with distinct ids, is that of the full merge if and only if page * limit is at most 1000. |
| Monitoring.PagesTile | flavorag-server/app/api/monitoring.py:574-579 | The pages of a list, one after the other, are its first rows. |
| Monitoring.ListedTile | flavorag-server/app/api/monitoring.py:489-579 | Who reads pages 1 to p within the first 1000 rows gets the first rows of the merge, each once and in order. |
| Monitoring.CountBuckets | flavorag-server/app/api/monitoring.py:411-421 | Every bucket counts its rows, and all buckets together count every row in the window once. |
| Monitoring.BucketExactly | flavorag-server/app/api/monitoring.py:411-415 | A bucket holds the instants from its start up to the next one's; the last one holds all later ones, too. |
| Interview.InterviewApi.StartInterview | flavorag-server/app/api/interview.py:358-388 | A new session in progress with its questions, numbered from 1. |
| Interview.InterviewApi.SaveOne | flavorag-server/app/api/interview.py:679-723 | Only the owner of a session in progress can answer one of its questions; the answer replaces an earlier one. |
| Interview.InterviewApi.WriteReviews | flavorag-server/app/api/interview.py:792-799 | The loop writes a review to every answer of the session, and fails if and only if one is missing. |
| Interview.InterviewApi.SubmitInterview | flavorag-server/app/api/interview.py:736-813 | The replies of every case, and the new state of a session that is scored. |
| Interview.InterviewApi.UpdateProfile | flavorag-server/app/api/interview.py:855-879 | The interview count grows by one, from 0 for a new profile. |
| Interview.InterviewApi.AbandonInterview | flavorag-server/app/api/interview.py:817-835 | A session that is neither completed nor being scored can be given up, again and again. |
| Interview.InterviewApi.ClearInterviewHistory | flavorag-server/app/api/interview.py:615-651 | Ended sessions of the user go with their questions and answers, and the profile with them. |
| Interview.InterviewApi.Handle | flavorag-server/app/database/session.py:31-38 | Only a request that is answered and committed leaves anything behind. |
| InterviewEffects.StartedExactly | flavorag-server/app/api/interview.py:358-388 | A new session is open, has these questions only, and nothing else changes. |
| InterviewEffects.QuestionsAreNumbered | flavorag-server/app/api/interview.py:374-388 | The questions are numbered from 1 in the order in which they were made. |
| InterviewEffects.SavedExactly | flavorag-server/app/api/interview.py:679-723 | Saving sets text, skip mark and, for an algorithm only, language of the one answer to the question, keeps its review, and changes no other. |
| InterviewEffects.ScoredExactly | flavorag-server/app/api/interview.py:792-813 | Scoring gives every answer of the session the review of its question, and changes no other session. |
| InterviewEffects.ClearedExactly | flavorag-server/app/api/interview.py:615-651 | Clearing takes away exactly the ended sessions of the user, with their questions and answers, and the profile. |
| InterviewRuns.CountsForceAll | flavorag-server/app/api/interview.py:756-762 | A session with as many answers as questions has an answer to every question. |
| InterviewRuns.StepKeeps | flavorag-server/app/api/interview.py:614-879 | Every request that is handled on its own keeps the invariant: well-formed rows, no session left in scoring, completed sessions fully reviewed, profile counts true. |
| InterviewRuns.RunsKeepInv | flavorag-server/app/api/interview.py:855-879 | When requests are handled one after the other, a profile counts exactly the completed sessions of its user at all times. |
| InterviewRuns.OneAnswerPerQuestion | flavorag-server/app/api/interview.py:756-799 | A completed session has exactly one answer to every question, with a review. |
| InterviewRuns.EndedStaysFrozen | flavorag-server/app/api/interview.py:679-835 | When requests are handled one after the other, a session that ended keeps its status, questions and answers until its user clears the history. |
| InterviewRaces.LawfulExactly | flavorag-server/app/api/interview.py:614-879 | A commit on top of what others committed since it read keeps the invariant and every ended interview if and only if what it finds makes it write nothing new, or the session is still open and the count it read is right (for a clearing: it read every completed session). |
| InterviewRaces.WritesNothingExactly | flavorag-server/app/api/interview.py:614-879 | A commit changes nothing exactly if the request was refused, another answer or profile came first, a row is gone, or the same values are there already. |
| InterviewSchedules.SchedulesExactly | flavorag-server/app/database/session.py:28-38 | Over every schedule of reads and commits all commits keep invariant and ended interviews if and only if each of them meets that condition. |
| InterviewSchedules.UndisturbedKeepsInv | flavorag-server/app/api/interview.py:855-879 | In a schedule without disturbance a profile counts exactly the completed sessions of its user at all times. |
| InterviewSchedules.UndisturbedKeepsEnded | flavorag-server/app/api/interview.py:679-835 | In a schedule without disturbance a session that ended stays as it is until its user clears the history. |
| InterviewSchedules.AbandonOverwrites | flavorag-server/app/api/interview.py:782-828 | From every consistent state with a session that can be submitted: giving it up while it is scored leaves it abandoned, and the count one too high. |
| InterviewSchedules.SubmitCountsTwice | flavorag-server/app/api/interview.py:747-879 | From every such state: submitting twice at a time counts the session twice. |
| InterviewSchedules.AnswerChangesLate | flavorag-server/app/api/interview.py:687-722 | From every such state: another answer that is saved during the scoring changes the completed interview. |
| InterviewSchedules.ScoringNeverSeen | flavorag-server/app/api/interview.py:825-826 | In no schedule a request reads a session in scoring, so that none meets the refusal meant for it. |
| InterviewSchedules.NobodyElseWrote | flavorag-server/app/database/session.py:28-38 | A commit is undisturbed if nobody else wrote to its session or to the count since it read. |
| InterviewSchedules.RequestsCanOverlap | flavorag-server/app/api/interview.py:736-835 | One open session with one answered question is a state in which these requests can overlap. |

## Left out

- `_normalize_text` of the fixed-size chunker, which can re-emit characters and has a branch that does not advance; windows are over any text.
- `_coalesce_trailing_blanks` of the structure-aware chunker, which can drop a block; the packer takes any ordered blocks, and no coverage of the whole text is claimed.
- Overlap between materialised ranges, and the sub-chunkers for tables, lists, code and images of the block-aware chunker: easy batches.
- ParagraphSplitter.CutParagraph: needs a target of at least 1, as the API asks (`flavorag-server/app/api/knowledge.py:1081`); called directly with 0 the loop of the code need not end and with less it steps backwards. Pieces are shown before they are stripped and blank ones dropped.
- QualityReport.AssessQualityGates: the fields of a report that no gate reads, latency percentiles of a run and duplicate rates are not modelled.
- Clustering.ClusterLabels: the records built from the labels (representative query, sorted knowledge bases, order by size) are not modelled.
- QueryCache.EmbedDocuments: HTTP retries and back-off are one result per batch; vectors are values, so that sharing one list between waiters is not modelled.
- PipelineGraph.RunQueue: node handlers are an outcome per node, so that changes they make to the shared settings, other than `stop_on_error`, are not modelled.
- PipelineGraph.RunNode: timeouts, back-off times and error texts.
- Generations.IngestionPipeline.Run: parsing, chunking, embedding and cross-references are outcomes; stored files, log rows, tenant columns and the worker that takes up queued jobs are not modelled; columns are written even if they keep the value that was read.
- Generations.IngestionPipeline.Ingest: the run through a configured pipeline, whose indexer activates in a transaction of its own, is not modelled.
- EventStream.StreamReader.Read: JSON, the dispatch to handlers, HTTP errors and reconnecting. The WHATWG HTML Standard, sections 9.2.5 and 9.2.6, differs: it does not trim fields, takes a lone CR as a line end, drops pending data at the end, and clears the event name on a blank line without data; the model follows the code.
- InterviewRaces.LawfulExactly: all writes of a request see the rows that are there at its commit; SQLite, which locks more, is not modelled. Rows that were deleted meanwhile end a request, as do a unique answer or profile that others made; foreign keys are not modelled.
- Citations.SentenceReadsBack: one sentence on its own; whole answers are in Joining.AnswerReadsBack.
- CitationReview.ValidateCitations: what makes a fence, a delimiter row or a term is left open, and so are the sentences, which Joining.Sentences cuts; digits are ASCII, white space is space, tab, CR and LF, and lines end with CR or LF only.
- Monitoring.PagingExactly: sorts by the instant; the code sorts by its ISO text, which orders the same for equal formats.
- Monitoring.CountBuckets: failed runs, durations and job counters, which follow the same loop.
- Interview.InterviewApi.SubmitInterview: scores, trends and profile dimensions; the scoring agent is a map of reviews.
- Interview.InterviewApi.SaveOne: the text is taken as already trimmed; times are not modelled.
- Interview.InterviewApi.ClearInterviewHistory: tenants; a user has one tenant throughout.
- Interview.InterviewApi.StartInterview: retrieval of sources, question generation and refused difficulties.
- StructuredChunker.ChunkDocument: the rendered text of table rows, the texts that are embedded, and locations of blocks are not modelled.
- Parsers of structured documents and nested outlines, which do not nest when heading levels are skipped.
- Query rewriting, retrieval channels, fusion, reranking, governance, agents, authentication, settings, pages and stores.
