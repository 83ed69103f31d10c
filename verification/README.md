# Summa broker and sparse layouts: a verified model

This project models two parts of the Summa search engine in Dafny and proves
what they promise.

**The broker's partitioned indexes.** The broker spreads one logical index over
several shards and must look like one index. The model follows a request through
it:

- placement rules: their syntax, their globs, and their weights
  (`Text.dfy`, `RuleSyntax.dfy`, `RuleRouting.dfy`, `Glob.dfy`, `Weights.dfy`,
  `Placement.dfy`);
- hash routing and the write path: which partition a key belongs to, splitting a
  batch, folding the answers back, batching a stream
  (`PartitionRouting.dfy`, `BatchRouter.dfy`, `StreamBatcher.dfy`);
- the learned topology: polls, health, snapshots and backend selection
  (`BackendHealth.dfy`, `Poller.dfy`, `Topology.dfy`, `Selection.dfy`);
- reads: route resolution, the straggler cut-off, the rounds of a partial read,
  statistics, the global page and global fusion
  (`Routes.dfy`, `Gathering.dfy`, `ReadProtocol.dfy`, `PartitionedSearch.dfy`,
  `CoordinatedSearch.dfy`, `TextStatistics.dfy`, `SearchMerge.dfy`,
  `Fusion.dfy`).

**Sparse scoring layouts.** The document-major and inverted block layouts with
their three scorers, the exact top-k baseline, and when that baseline is exact
(`BlockScoring.dfy`, `FlatScoring.dfy`, `SparseBaseline.dfy`,
`SparseExactness.dfy`).

`Sorting.dfy` holds stable merging and sorting and permutation facts, and
`Outcomes.dfy` the result types all modules share.

`dafny verify dfyconfig.toml` checks everything.

## How the source is read

- Loops of the source are methods with invariants, and objects whose methods
  update their fields are classes. Each is proved against a specification
  function or predicate that lemmas then explain.
- What the broker cannot control is a parameter: which calls complete, when and
  with what answer, poll answers, the outcome of a write, whether a deadline is
  spent, the size of a document, a rotation counter. A theorem about such a
  parameter holds for every value of it. When the straggler cut-off fires is not
  one: the loop computes it.
- Scores are integers, statistics are exact reals. Fixed-width counters are
  written out: `u32` and `u64` saturation, `u32` wrap-around, `as u32` casts.
- Endpoint ids are distinct, as discovery keys them by pod name.

Where the code and its documentation differ, the model follows the code. The
glob matcher is documented as plain `*` globbing, but it compares literally
before it looks for a star, so a name that contains `*` before its last
character can be missed by a pattern that means it. `Glob.GlobExact` proves that
these names are exactly the exception. The sparse baseline is called exact, but
it lists a document once more whenever a product finds its score back at zero;
`SparseExactness.ListedTwice` is an input, and `SparseExactness.ExactIffOrderly`
and `SparseExactness.ExactIffPositiveFirst` say for which queries this cannot
happen.

## Model

| member | source | states |
|---|---|---|
| `Glob.GlobMatch` | summa-broker/src/placement_rules.rs:199-224 | The last-star loop computes the walk the other lemmas are about, in fewer than (pattern + 1) * (name + 1) iterations, a rejecting one included. |
| `Glob.WalkSound` | summa-broker/src/placement_rules.rs:199-224 | From every state the loop can reach, acceptance means that the rest of the pattern, or the last star retried, matches the rest of the name. |
| `Glob.WalkComplete` | summa-broker/src/placement_rules.rs:199-224 | From every state the loop can reach on a name without an interior star, a remaining match is found although only the last star is retried. |
| `Glob.GlobExact` | summa-broker/src/placement_rules.rs:197-224 | For a name, the matcher agrees with "star matches any run" on every pattern if and only if no `*` stands before the name's last character; it never accepts wrongly. |
| `Weights.GcdDivides` | summa-broker/src/placement_rules.rs:193-195 | The recursive gcd divides both numbers. |
| `Weights.ReducedIsExact` | summa-broker/src/placement_rules.rs:182-191 | The common divisor is the greatest, the division is exact, and what is left has gcd 1. |
| `Weights.ReducedScale` | summa-broker/src/placement_rules.rs:182-191 | Scaling all weights does not change the reduced weights. |
| `Weights.ReducedIdempotent` | summa-broker/src/placement_rules.rs:182-191 | Reducing twice is reducing once. |
| `Weights.ReducedEqualIffProportional` | summa-broker/src/placement_rules.rs:182-191 | Two lists of one length reduce to the same list if and only if all cross products agree. |
| `PartitionRouting.New` | summa-broker/src/partition.rs:57-71 | The bounds of positive weights are strictly increasing and give partition i its reduced weight of the reduced total. |
| `PartitionRouting.SlotIff` | summa-broker/src/partition.rs:98-102 | A hash belongs to partition i if and only if its remainder lies in i's slice, so every hash has exactly one partition. |
| `PartitionRouting.InterchangeableIffEqual` | summa-broker/src/partition.rs:57-102 | With totals below 2^64, two labelled weight lists send every 64-bit hash to the same label if and only if labels and reduced weights are equal. |
| `PartitionRouting.RoutingsInterchangeable` | summa-broker/src/placement_rules.rs:26-33 | Two routings are equal if and only if they route every 64-bit hash to the same shard. |
| `PartitionRouting.UniformIffModulo` | summa-broker/src/partition.rs:78-81 | Weights are uniform if and only if routing is the unweighted `hash % n`. |
| `PartitionRouting.SharePerPeriod` | summa-broker/src/partition.rs:89-96 | Of every period of hash points partition i receives exactly its share. |
| `PartitionRouting.Fnv1a64` | summa-broker/src/partition.rs:23-30 | The hash loop computes the left fold of the FNV-1a step modulo 2^64. |
| `Placement.FirstMatchWins` | summa-broker/src/placement.rs:45-52 | For every name the rule found is the first whose pattern the matcher accepts, and none is found if and only if it accepts no pattern. |
| `Placement.FirstMeantWins` | summa-broker/src/placement.rs:45-52 | For a name without a `*` before its last character it is the first whose pattern means the name. |
| `Placement.LaterRulesOnlyAdd` | summa-broker/src/placement.rs:45-52 | Rules appended later never change the rule of a name that had one. |
| `RuleSyntax.Validate` | summa-broker/src/placement_rules.rs:59-90 | The loop reports the first fault in the order the source tests them. |
| `RuleSyntax.ValidIff` | summa-broker/src/placement_rules.rs:59-90 | A rule has no fault if and only if it is valid: writable, distinct shard ids, positive weights, no lone weight. |
| `RuleSyntax.Parse` | summa-broker/src/placement_rules.rs:129-175 | The reading loop agrees with the reading function on every string, faults included. |
| `RuleSyntax.ReadIffWritten` | summa-broker/src/placement_rules.rs:129-175 | A string reads as a rule if and only if the rule is valid and the string spells it, up to blanks and leading zeros. |
| `RuleSyntax.RuleRoundTrip` | summa-broker/src/placement_rules.rs:108-122 | Every valid rule reads back from its rendering. |
| `RuleSyntax.ParsedRoundTrip` | summa-broker/src/placement_rules.rs:108-163 | Every string that reads yields a valid rule whose rendering reads as the same rule. |
| `RuleSyntax.ReadingFaults` | summa-broker/src/placement_rules.rs:129-163 | Of validation's eight faults a string can only meet four; splitting and trimming rule the others out. |
| `RuleRouting.WrittenRulesInterchange` | summa-broker/src/placement_rules.rs:26-33 | Two strings that read as rules of at most 2^32 partitions have equal routings if and only if every 64-bit hash reaches the same shard under both. |
| `RuleRouting.RoutingReadsBack` | summa-broker/src/placement_rules.rs:35-54 | A valid rule's routing, written after any pattern, reads as a rule with the same routing. |
| `Topology.Assemble` | summa-broker/src/topology.rs:186-235 | A snapshot holds exactly the discovered backends, their sorted groups, and a route to exactly the shards on which a routable backend lists the index. |
| `Topology.CollectRoutes` | summa-broker/src/topology.rs:213-228 | Collecting routes backend by backend, in any order, gives exactly those routes. |
| `Selection.ReadOnShard` | summa-broker/src/topology.rs:307-346 | A read on a shard finds a replica if and only if one hosts the index; it is routable, on that shard, and healthy whenever one is. |
| `Selection.ReadSucceedsIffPresent` | summa-broker/src/topology.rs:259-272 | For any rotation an unpartitioned read succeeds if and only if the index is in the snapshot. |
| `Selection.PartitionMissingIffUnreadable` | summa-broker/src/topology.rs:291-304 | A partition counts as missing if and only if no read on its shard could succeed. |
| `Selection.MasterIff` | summa-broker/src/topology.rs:402-440 | A shard's master is the only member labelled master, or the only, unlabelled member. |
| `Selection.WriteShardIsReadShard` | summa-broker/src/topology.rs:442-465 | A write is refused exactly when the read shard is ambiguous, and otherwise goes to the master of the shard reads use. |
| `Selection.WriteAcceptedIff` | summa-broker/src/topology.rs:442-465 | A write is accepted if and only if the index has one writable shard with a routable sole master. |
| `Selection.LeastLoadedShard` | summa-broker/src/topology.rs:492-511 | Default placement picks the shard hosting the fewest indexes, the first by name on a tie. |
| `BackendHealth.PollState.ApplyPollOutcome` | summa-broker/src/poller.rs:54-117 | One poll changes the state as the step function does, and nothing else. |
| `BackendHealth.RunAccounts` | summa-broker/src/poller.rs:43-117 | After every history the health, counters, suspect time and index list are functions of the history alone: trailing failures, last listing sorted, evicted since a long enough failing streak not followed by two successes. |
| `BackendHealth.EvictionNeedsGrace` | summa-broker/src/poller.rs:88-117 | Eviction only happens to a suspect on a failed poll, when all polls since it became suspect failed and the grace period has passed. |
| `BackendHealth.RecoveryNeedsTwoSuccesses` | summa-broker/src/poller.rs:61-87 | Leaving eviction takes two consecutive successes and leads to healthy. |
| `Poller.PollLoop.DueEndpoints` | summa-broker/src/poller.rs:210-232 | The polled endpoints are exactly the due ones. |
| `Poller.PollLoop.Refresh` | summa-broker/src/poller.rs:188-247 | A round appends one poll to exactly the due endpoints' histories and forgets vanished ones. |
| `Poller.PollLoop.Round` | summa-broker/src/poller.rs:183-256 | Every published snapshot routes an index to a shard if and only if a discovered, ready, non-evicted backend there listed it in its latest success since it was last discovered. |
| `Gathering.Gather` | summa-broker/src/search_service.rs:46-86 | For every history of completions there is one result per call in call order: what completed before the loop stopped, or the straggler's substitute. The loop stops at the budget after the first success, and after the last completion if there is no budget or no success. |
| `Gathering.InTimeIsKept` | summa-broker/src/search_service.rs:64-80 | A result up to the first success, or earlier than the budget after it, is kept. |
| `Gathering.LateIsReplaced` | summa-broker/src/search_service.rs:64-86 | A call that completes later than the budget after the first success, or never, is replaced. |
| `Gathering.StragglerImpliesSuccess` | summa-broker/src/search_service.rs:64-86 | Every result is the call's own unless a budget is set and some gathered result is a success. |
| `Routes.ReadRoute` | summa-broker/src/routes.rs:105-172 | A read resolves to one serving replica per readable partition in rule order; unreadable ones fail a strict read and are the missing ones of a partial read, which fails only if nothing is readable. |
| `Routes.ReadRouteCovers` | summa-broker/src/routes.rs:105-153 | The targets and missing partitions of a resolved read are the rule's partitions, each once. |
| `Routes.WriteRoute` | summa-broker/src/routes.rs:174-208 | A write resolves if and only if every partition is present and each shard has a routable sole master, and goes to these masters. |
| `ReadProtocol.ForwardRead` | summa-broker/src/search_service.rs:96-177 | A round returns every answer in order and the shards that were dropped; it fails with the first refusal that may not be dropped, or as unavailable if all were dropped; a substitute only occurs beside an answer, so stragglers alone never fail it. |
| `ReadProtocol.RoundNarrows` | summa-broker/src/routes.rs:56-70 | Narrowing a route by a round's losses leaves exactly the targets that answered and keeps every partition accounted for. |
| `ReadProtocol.AttachTextStats` | summa-broker/src/search_service.rs:221-255 | The narrowed route holds exactly the partitions whose statistics were collected, one statistics each; a failure is the round's failure or a partition without statistics. |
| `PartitionedSearch.SearchPartitioned` | summa-broker/src/search_service.rs:408-451 | Over every run each partition is counted once as answered or missing, at least one answered, the search asked exactly the partitions that supplied statistics, and the page is the page of all answers. A window above the limit is refused; any other failure is that of the statistics round, of the search round over the asked partitions, or of the merge, with its code. |
| `PartitionedSearch.OneIndexPage` | summa-broker/src/search_service.rs:423-449 | If every partition answers with the first offset + limit hits of its own ranking, the page is that of one index over what the answering partitions hold. |
| `PartitionedSearch.SearchIndex` | summa-broker/src/search_service.rs:456-499 | From the snapshot to the page: an unknown index is not found, an unpartitioned one is answered by one serving replica, a partitioned one is unavailable exactly when its partitions are unreadable and otherwise behaves as the partitioned search over its serving replicas, every ruled partition counted once. |
| `CoordinatedSearch.SearchCoordinated` | summa-broker/src/search_service.rs:257-406 | Every failure is a refused plan, a failed round, a spent deadline before the search or before ranking, a ranking timeout or crash, or a ranking error, with its code; so losing shards never exhausts the plan and the plan expects exactly the responses at hand. A result ranks all answers, counts every partition once, and decode limits are positive and fit the budget. |
| `CoordinatedSearch.CoordinatorPlan.LoseShards` | summa-broker/src/ranking.rs:402-409 | The plan shrinks by the lost shards if and only if one is left, and is untouched otherwise. |
| `CoordinatedSearch.NewPlan` | summa-broker/src/ranking.rs:117-133 | A plan needs a byte of budget per shard, a shard and a window that fits; given these it exists if and only if the rest of the request is well formed. |
| `CoordinatedSearch.DecodeLimit` | summa-broker/src/search_service.rs:291-293 | The per-shard limit is at least 1 and the limits together fit the budget. |
| `SearchMerge.DistributedTopKExact` | summa-broker/src/partition.rs:280-352 | Cutting ranked shard lists to offset + limit before the stable merge changes no page. |
| `SearchMerge.PartitionedLooksLikeOneIndex` | summa-broker/src/partition.rs:280-352 | For any split of any hits over shards the page is that of one index holding all of them. |
| `SearchMerge.ResponseOrderIrrelevant` | summa-broker/src/partition.rs:333-341 | If no segment lives on two shards, the merged ranking does not depend on the order of the responses. |
| `SearchMerge.MergeSearchResponses` | summa-broker/src/partition.rs:280-374 | The merge is refused exactly for mixed ranking methods or a cut export; otherwise it is the page of the stable sort, an export keeps every hit, hit counts add up with saturation, the time is the longest, and it is truncated if and only if some response was. |
| `BatchRouter.RouteDocuments` | summa-broker/src/partition.rs:156-187 | Group g is exactly the documents hashed to g with their request positions in order; the rest is refused at its positions. |
| `BatchRouter.SplitConserves` | summa-broker/src/partition.rs:156-187 | The groups and the unroutable list hold every position exactly once. |
| `BatchRouter.EqualKeysStayInOrder` | summa-broker/src/partition.rs:156-187 | Documents with equal keys share a group and keep their order. |
| `BatchRouter.MergeBatchResponses` | summa-broker/src/partition.rs:248-273 | The merge sums the counts with saturation and lists all errors at their request positions, stably sorted. |
| `BatchRouter.WriteBatch` | summa-broker/src/index_service.rs:129-176 | A partitioned write merges the answers of the non-empty groups in partition order, or fails with the first failure. |
| `BatchRouter.SplitProcessMergeIsOnePass` | summa-broker/src/partition.rs:156-273 | Splitting, processing each group with an independent per-document outcome and merging gives, for a batch a 32-bit count can hold, the counts and sorted error positions of one pass over the batch. |
| `BatchRouter.OnePassIffCounted` | summa-broker/src/partition.rs:248-273 | This holds of every batch of n documents if and only if n is below 2^32: as many documents without a key are reported as fewer errors. |
| `StreamBatcher.Flush` | summa-broker/src/index_service.rs:295-324 | A flush forwards a non-empty run in time and counts its answer, or says why the stream fails. |
| `StreamBatcher.IndexDocuments` | summa-broker/src/index_service.rs:278-378 | Forwarded batches cut the stream: non-empty, one index, below both thresholds before the last document, closed only by a threshold, an index switch or the end; success forwards everything and sums all answers, and a failure has one of three causes. |
| `StreamBatcher.CutsConcatenate` | summa-broker/src/index_service.rs:325-372 | Batches that cut a stream concatenate to the messages they cover. |
| `StreamBatcher.CutsAgree` | summa-broker/src/index_service.rs:325-372 | Of two cuts of a stream one is a prefix of the other, so a failed stream forwarded a prefix of what a complete one forwards. |
| `StreamBatcher.BatchingUnique` | summa-broker/src/index_service.rs:325-372 | There is exactly one way to batch a stream. |
| `TextStatistics.MergeTextStats` | summa-broker/src/partition.rs:385-423 | The nested loops compute the fold over all entries with saturating counts. |
| `TextStatistics.FoldedCounts` | summa-broker/src/partition.rs:390-401 | For every field and term the fold holds the saturated sums, and lists exactly the fields and terms that occur. |
| `TextStatistics.PartOrderIrrelevant` | summa-broker/src/partition.rs:385-423 | Any order of the parts merges to the same statistics. |
| `TextStatistics.MergedIsWhole` | summa-broker/src/partition.rs:385-423 | However a corpus is split, merging the parts' statistics gives the statistics of the whole. |
| `TextStatistics.WholeStatistics` | summa-broker/src/partition.rs:385-423 | Below 2^64 documents these are its document count and, per requested field and term, corpus size, mean length and document frequency. |
| `Fusion.Assemble` | summa-broker/src/ranking.rs:640-694 | Shard responses are accepted if and only if no address is hydrated twice and every response names every branch once with distinct, finite candidates it hydrated; then lists and hits are exactly theirs. |
| `Fusion.EveryBranchNamed` | summa-broker/src/ranking.rs:652-691 | An accepted response has exactly one list for every branch. |
| `Fusion.GlobalListDisjoint` | summa-broker/src/ranking.rs:653-688 | A global branch list is the disjoint union of the shards' lists, without a repeated address. |
| `Fusion.RankedStrictly` | summa-broker/src/ranking.rs:711-720 | Ranked, it is strictly ordered by score, segment and document, with the same entries. |
| `Fusion.ResponseOrderIrrelevant` | summa-broker/src/ranking.rs:639-734 | Responses in any order are accepted alike and rank to the same lists. |
| `Fusion.UnionOrderIrrelevant` | summa-broker/src/ranking.rs:641-651 | The union of hydrated hits does not depend on the order of the responses. |
| `Fusion.PickHits` | summa-broker/src/ranking.rs:749-769 | Hydrating a page succeeds if and only if its addresses are distinct and in the union, and yields their hits rescored in page order. |
| `Fusion.FusedPageIsHydrated` | summa-broker/src/ranking.rs:735-769 | Every page of distinct addresses drawn from the ranked lists finds all its hits. |
| `Fusion.Fuse` | summa-broker/src/ranking.rs:639-780 | The whole fusion: refused exchanges, core errors, and the hydrated page otherwise. |
| `BlockScoring.Dedup` | summa-core/benches/bmp_payload_layout.rs:139-147 | Merging a document sorted by dimension leaves ascending dimensions with the largest impact of each. |
| `BlockScoring.MaxForPermuted` | summa-core/benches/bmp_payload_layout.rs:139-147 | How an unstable sort orders equal dimensions does not matter. |
| `BlockScoring.BuildForward` | summa-core/benches/bmp_payload_layout.rs:151-166 | Every document is stored contiguously between its starts. |
| `BlockScoring.JoinDocument` | summa-core/benches/bmp_payload_layout.rs:278-291 | The merge-join computes the dot product modulo 2^32 and overflows if and only if it does not fit. |
| `BlockScoring.ScoreForward` | summa-core/benches/bmp_payload_layout.rs:273-293 | Every slot gets its document's dot product. |
| `BlockScoring.DotGrow` | summa-core/benches/bmp_payload_layout.rs:296-313 | Summing over the document's features is summing over the query's terms. |
| `BlockScoring.BuildLookup` | summa-core/benches/bmp_payload_layout.rs:389-392 | The table holds every dimension's query weight, zero elsewhere. |
| `BlockScoring.ScoreForwardLookup` | summa-core/benches/bmp_payload_layout.rs:296-313 | The table scorer gives every slot its document's dot product. |
| `BlockScoring.NoOverflowIff` | summa-core/benches/bmp_payload_layout.rs:225-293 | No accumulator overflows on any document and query of n dimensions if and only if n is at most 257. |
| `FlatScoring.Invert` | summa-core/benches/bmp_payload_layout.rs:177-203 | The cursor loops cut sorted entries into one run per dimension with its maximum impact. |
| `FlatScoring.BuildFlat` | summa-core/benches/bmp_payload_layout.rs:168-203 | The inverted form indexes exactly the block's entries. |
| `FlatScoring.SortedInverts` | summa-core/benches/bmp_payload_layout.rs:168-176 | The sorted entries give every slot exactly its document's impacts. |
| `FlatScoring.ScoreFlat` | summa-core/benches/bmp_payload_layout.rs:225-237 | The inverted scorer gives every slot its document's dot product. |
| `FlatScoring.MaximaBoundScores` | summa-core/benches/bmp_payload_layout.rs:186-203 | No slot scores more than the stored maxima allow. |
| `FlatScoring.ScoreThreeWays` | summa-core/benches/bmp_payload_layout.rs:225-313 | For every block and query the three scorers give identical scores, the dot products modulo 2^32; overflow is reported if and only if one does not fit, which needs more than 257 dimensions. |
| `SparseBaseline.BuildPostings` | summa-core/benches/bmp_vs_maxscore.rs:234-252 | Every posting list holds exactly the documents' components in that dimension, by document. |
| `SparseBaseline.SelectTop` | summa-core/benches/bmp_vs_maxscore.rs:267-288 | Offering touched documents one by one keeps the k best of them. |
| `SparseBaseline.ExactSparseBaseline.constructor` | summa-core/benches/bmp_vs_maxscore.rs:234-252 | A new baseline is ready: index built, scores zero, nothing touched. |
| `SparseBaseline.ExactSparseBaseline.TopK` | summa-core/benches/bmp_vs_maxscore.rs:254-292 | For all weights, k and any sequence of calls the result is the first k touched documents with a positive score, by score, then id, and the buffers end zero and empty. |
| `SparseExactness.ScoresAndTouches` | summa-core/benches/bmp_vs_maxscore.rs:255-266 | For all weights each score is the dot product, and a document is touched once per product that finds its score at zero. |
| `SparseExactness.ExactIffStartsOnce` | summa-core/benches/bmp_vs_maxscore.rs:254-292 | For every corpus and query the result is the first k matching documents for every k if and only if no matching document's score returns to zero. |
| `SparseExactness.ExactIffOrderly` | summa-core/benches/bmp_vs_maxscore.rs:222-266 | A query of distinct dimensions gets the exact result on every corpus of positive vectors naming each dimension once if and only if no positive query weight follows a zero one or both a positive and a negative one. |
| `SparseExactness.ExactIffPositiveFirst` | summa-core/benches/bmp_vs_maxscore.rs:222-266 | If vectors may repeat a dimension, if and only if a positive query weight follows positive ones only. |
| `SparseExactness.OrderlyExact` | summa-core/benches/bmp_vs_maxscore.rs:254-292 | On positive vectors the result is exact for every query, repeated dimensions included, whose positive weights all come first, so for positive queries in particular. |
| `SparseExactness.ListedTwice` | summa-core/benches/bmp_vs_maxscore.rs:259-265 | A document in two dimensions and the query weights 0 and 1 give the list of that document twice. |

## Left out

- gRPC transport, channels, client pools, metrics, logging, tracing, CLI and admin inspection: plumbing around the modelled code.
- Backend address resolution in routes and the pool's connection errors: a target is its shard and backend id.
- The branch of the read route that gives up when selecting a present partition fails: it is proved unreachable, so the model asserts success there.
- Float rounding, NaN, infinities and the bit-equality check of shard and broker formula scores: scores are integers and averages exact reals; a candidate only records whether its scores are finite.
- CoordinatedSearch.NewPlan: the rest of the request validation and rewriting is one boolean parameter; formula ranking in `finish` is a parameter of the coordinated search.
- Executor scheduling: a completion is seen by the gathering loop when it happens, or after a timer due at the same instant.
- Admission permits and request forwarding around a search.
- The core's fusion of ranked lists: a parameter, with the contract that it draws distinct addresses from the lists.
- Fusion.Fuse: returns the page's hits only; the folded metadata, score diagnostics and transfer-size checks around it are not modelled.
- SearchMerge.MergeSearchResponses: stage timings, traces and candidate lists of the response are not part of the model.
- BatchRouter.SplitProcessMergeIsOnePass: for batches of at most 2^32 - 1 documents; `BatchRouter.OnePassIffCounted` proves that the source breaks the law for every larger size, first by truncating the count of unroutable documents.
- Key extraction: a field value is given with the bytes it hashes as; number formatting in `key_bytes` is not modelled.
- Parsing hexadecimal segment ids: an address is given as parsed, or as missing.
- A map iterated in key order is modelled as the map, and the baseline's binary heap as the ordered sequence it stands for.
- The generators of documents and queries, and the adaptive wire encoding of inverted blocks, whose encoder is not part of this model.
- `text_stats_query`, `merge_index_info`, `primary_key_field`, upserts, deletes and index creation beyond the default shard: they would only add easy members.
