# unchain: a verified model of its deterministic cores

Unchain compiles an event journal into a bounded conversation for a model, accounts for what every run used, guards
each execution with a fenced lease, and fails closed when persistence breaks. This project models those cores in
Dafny and proves what they promise, for every input, every run and every interleaving.

| part | modules |
|---|---|
| context compiler | `Journal`, `JournalProjection`, `JournalTheorems`, `JournalSpec`, `JournalMerge`, `MergeTheorems`, `Checkpoints`, `Assembly`, `ContextReduce`, `ReductionTheorems`, `ReductionSpec`, `OrphanExample`, `Handshake`, `EventRanges` |
| exception graph traversal | `Durability` |
| run accounting | `Usage`, `RunTopology`, `RunBundle`, `RunReducer`, `BundleFacts`, `BundleAcceptance`, `CompactTotals`, `CompactDetails` |
| execution lease | `ExecutionGuard`, `BorrowedGuard`, `GuardSteps`, `Fencing`, `BorrowedFencing` |
| exact integer and byte algorithms | `Composition`, `ContentPaging` |
| shared | `Wrappers`, `Sorting`, `ContextTypes` |

Code that changes state step by step is modelled by methods with loops or by classes with fields, each proved equal to
a specification function or against a stated property; the theorems are about those specifications. For the main operations
the specification function is in turn shown to give exactly what the inputs call for, in terms of the messages, events,
receipts or leases themselves (`ReductionSpec`, `JournalSpec`, `BundleFacts`, `BundleAcceptance`, `GuardSteps`). `dafny verify
dfyconfig.toml` checks everything.

**Main results.** A complete reduction fits its budget, keeps a suffix of turns with every unfinished tool call, cuts at the
first admissible turn, and leaves out exactly what the bound checkpoint covers; the two-pass checkpoint handshake
converges; tool pairs are never split; which of its answers a reduction gives, compaction and every failure included, is
determined by the messages alone. A journal's transcript shows exactly the events that belong to it; it is ordered, free of failed text, has at most one final
message per turn, each committed by a later terminal event; merging it into a request is lossless and idempotent, and
any part of the result can be checkpointed. A "nothing found" answer of the traversal is sound on every graph, and within
its budgets a durable failure is found exactly when there is one. The run reducer is a function of sets, counts each
provider call once through any nesting, and its bundle says exactly what its receipts used, cost and lack. Usage sums are closed and
compositional. A guard is safe against any store and any interleaving, and fencing excludes a takeover behind an
unchanged token. Apportionment is exact, monotone and within one token of the exact share. Paged reading reassembles
the source. The compact encoding is binding.

**Where a promise does not hold as one might expect.** In each case the exact condition is proved.

- The usage constructor fills in the cache-write total after checking the limit, so a constructed usage can exceed it
  (`Usage.ConstructorExceedsLimit`, exactly when: `Usage.ConstructHolds`), and then not even its own sum is accepted
  (`Usage.SumOfOne`).
- Sums over parts: an empty part is not neutral (`Usage.EmptyPartIsNotNeutral`). Parts add up exactly when none is empty
  or no counter is known throughout the whole (`Usage.SumOfSums`). A part can exceed the limit although the whole does not
  (`Usage.PartLimitIsStricter`), exactly in counters the whole does not know (`Usage.PartOverflows`).
- The guard against orphaned tool pairs in a reduction can fire although the native tail is self-closed
  (`OrphanExample.GuardFiresOnRepeatedCall`), exactly when a system or injected message holds one side of a dropped pair
  (`ReductionTheorems.OrphanGuardFires`).
- A guarded model call whose worker reacquires meanwhile may have seen a takeover (`Fencing.TakeoverInsideCall`); an
  unchanged token is exactly the condition (`Fencing.GuardedCallSawNoTakeover`, and through a child
  `BorrowedFencing.BorrowedCallSawNoTakeover`).
- The compact projection counts a repeated receipt twice while the full reducer counts it once
  (`CompactTotals.CompactCountsRepetition`); they agree exactly when no call id repeats
  (`CompactTotals.CompactMatchesReducer`).
- A request with the older parallel cursor arrays may bind two messages to one cursor; merging then rejects it, and that
  is the only rejection besides a mismatch and the resource limits (`JournalMerge.Merge`).

## Model

| member | source | states |
|---|---|---|
| `ContextReduce.SplitTurns` | src/unchain/context/compiler.py:599-611 | the loop computes the turns: a new turn at each human message |
| `ContextReduce.TurnsFlatten` | src/unchain/context/compiler.py:599-611 | turns are non-empty pieces whose concatenation is the conversation |
| `ContextReduce.PairTurnIndexes` | src/unchain/context/compiler.py:3397-3412 | for every closed call/result pair, exactly the turns that mention it |
| `ContextReduce.DependencyClosure` | src/unchain/context/compiler.py:3414-3434 | terminates in the least set of turns that contains the given ones and has no pair half inside |
| `ContextReduce.LeastClosureIs` | src/unchain/context/compiler.py:3414-3423 | that least set is the intersection of all pair-closed supersets |
| `ContextReduce.CompactKeepsTags` | src/unchain/context/compiler.py:3451-3489 | compaction keeps positions, origins, roles and tool ids |
| `ContextReduce.MakePlan` | src/unchain/context/compiler.py:3377-3450 | the views, turns, pairs and pinned turns the search works on |
| `ContextReduce.SearchCutoff` | src/unchain/context/compiler.py:3508-3620 | the loop returns the first cutoff that is not skipped |
| `ContextReduce.ReduceMessages` | src/unchain/context/compiler.py:3324-3715 | the whole procedure computes the reduction the theorems below speak about |
| `ReductionSpec.PartIsSubsequence` | src/unchain/context/compiler.py:3377-3396 | system messages, injected messages, native tail and conversation are each all the messages of their kind, in order |
| `ReductionSpec.TurnsBeginAtHumans` | src/unchain/context/compiler.py:599-611 | a turn begins at a human message, but perhaps the first, and holds no other |
| `ReductionSpec.SizeIs` | src/unchain/context/compiler.py:3344-3346 | an estimate is taken over the messages one for one |
| `ReductionSpec.NeededIs` | src/unchain/context/compiler.py:3397-3434 | a turn is pinned exactly when every choice of turns that holds the current turn, the turns with pinned messages and those with one side of an unfinished exchange, and that keeps finished exchanges together, holds it |
| `ReductionSpec.RequiredIs` | src/unchain/context/compiler.py:3462-3474 | what is measured first: system messages, injected messages, the needed turns and the native tail, in order |
| `ReductionSpec.CompactAllIs` | src/unchain/context/compiler.py:3451-3463 | compaction gives every message its pinned form, and of a tool result that is not a current context page the compacted result of that form; it fails exactly on malformed pinned content |
| `ReductionSpec.ForbiddenIs` | src/unchain/context/compiler.py:3508-3516 | a cut is ruled out exactly when it drops a needed turn or has the two sides of a finished exchange on both sides of it |
| `ReductionSpec.ReducesAsExpected` | src/unchain/context/compiler.py:3324-3715 | for every input the answer is the expected one, said about messages, estimates and requests: no budget; unchanged; malformed or too large even when compacted; otherwise the first cut that is not passed over decides, with the compacted messages exactly when what must stay does not fit as it is, the marker behind the system messages, and the included, transformed and omitted indexes |
| `ReductionSpec.ExpectedOne` | src/unchain/context/compiler.py:3324-3715 | no other answer is expected |
| `ReductionSpec.FailsExactly` | src/unchain/context/compiler.py:3342-3484 | the mandatory messages are refused exactly when system messages, injected messages, needed turns and tail are too large both as they are and compacted; no budget is reported exactly then; the marker never overflows at the end |
| `ReductionSpec.HoldsExactly` | src/unchain/context/compiler.py:3465-3563 | a complete answer holds the kept messages themselves when what must stay fits, and otherwise each in its compacted form, with one marker behind the system messages exactly when something is omitted |
| `ReductionTheorems.NoSilentHistoryLoss` | src/unchain/context/compiler.py:3324-3715 | a complete answer fits the budget, keeps all system messages and one suffix of turns with the last turn, every pinned turn and every unfinished pair; what is omitted is nothing or exactly the bound checkpoint's messages; but for one marker when something is omitted, the answer is the system messages, the injected messages, the kept turns and the native tail, each once and in order; what is not reported as transformed is the source message itself |
| `ReductionTheorems.CutIsEarliest` | src/unchain/context/compiler.py:3491-3620 | every earlier cutoff drops a pinned turn, splits a pair, is too large, lacks the matching checkpoint or has no room for its marker; the chosen one does not |
| `ReductionTheorems.GuardsUnreachable` | src/unchain/context/compiler.py:3675-3698 | with a self-closed native tail, and system and injected messages that hold no single side of a closed pair, the orphaned-pair guard and the final size check never fire |
| `ReductionTheorems.NativeBatchIsClosed` | src/unchain/context/compiler.py:2678-2690 | a native batch that passes its last check is a self-closed tail |
| `ReductionTheorems.SuffixHasNoOrphan` | src/unchain/context/compiler.py:3397-3434 | with a self-closed tail, and a head that holds no single side of a closed pair, an admissible cut leaves every closed pair whole or drops it whole |
| `ReductionTheorems.SuffixOrphans` | src/unchain/context/compiler.py:3687-3698 | for a self-closed tail, an admissible cut leaves an orphan exactly when the head holds one side of a pair that the kept turns and the tail do not mention |
| `ReductionTheorems.OrphanGuardFires` | src/unchain/context/compiler.py:3675-3698 | for a self-closed tail the guard fires exactly at a selected cut of that kind |
| `OrphanExample.GuardFiresOnRepeatedCall` | src/unchain/context/compiler.py:3687-3698 | an assembled input with a self-closed tail on which it fires: a system message repeats the call of a dropped exchange |
| `Assembly.LeadingSystems` | src/unchain/context/compiler.py:3302-3306 | the loop counts the system messages at the beginning |
| `Assembly.AssembleMessages` | src/unchain/context/compiler.py:3296-3315 | leading system messages, injected messages, the other sources, the native tail |
| `Assembly.AssembleIsAssembled` | src/unchain/context/compiler.py:3227-3315 | every source message appears once, unchanged, in order and under its own index, and nothing carries a marker: what the theorems about reductions require |
| `Assembly.AssembleTailClosed` | src/unchain/context/compiler.py:3296-3315 | with a native batch that passed its check the assembled tail is self-closed |
| `Handshake.OmissionsGrow` | src/unchain/context/compiler.py:3508-3560 | a later cut omits strictly more messages |
| `Handshake.HandshakeExactly` | src/unchain/context/compiler.py:3491-3698 | for every reference the pass bound to the first pass's request completes exactly when the requested cut with that reference's marker fits and orphans no pair; then it has the same cutoff, omits exactly the request's messages and answers with that cut and exactly one marker; cursors may repeat |
| `Handshake.HandshakeConverges` | src/unchain/context/compiler.py:3491-3674 | if that reference is the one the first pass priced, and no system or injected message holds a single side of a pair, the second pass always completes so |
| `Checkpoints.ValidateDependencies` | src/unchain/context/checkpoints.py:543-582 | accepts exactly when sources lie in the manifest, are distinct, and receipts alias neither sources nor each other |
| `Checkpoints.CoverageRange` | src/unchain/context/checkpoints.py:584-595 | the range spans all sources and receipts and ends at two of them |
| `Checkpoints.RelevantPicks` | src/unchain/context/compiler.py:304-314 | exactly the dependencies whose source is selected, still apart |
| `Checkpoints.EveryHistoryCheckpoints` | src/unchain/context/compiler.py:275-331 | every non-empty set of bound messages of a well-formed manifest yields an accepted request that names exactly those messages, their digests, their receipts and the range of all of them |
| `Checkpoints.RequestExactly` | src/unchain/context/compiler.py:275-331 | a selection has a request exactly when its cursors ascend with distinct ids and its dependencies are apart from each other and from them; the request holds the selection's cursors, messages and digests one for one, all its dependencies in order, and the range from the first to the last of them |
| `Checkpoints.RequestDeterminesIndexes` | src/unchain/context/checkpoints.py:598-692 | equal requests cover the same messages |
| `Journal.ValidateEvents` | src/unchain/context/compiler.py:1575-1628 | accepts exactly when events sharing an id or a sequence number are identical; returns each event once, in order, with distinct ids and numbers |
| `JournalProjection.ReadEvents` | src/unchain/context/compiler.py:1830-1967 | rejects exactly on an invalid event; sorts the others into messages, dialogue, failed attempts, terminals and finals |
| `JournalProjection.KeepMessages` | src/unchain/context/compiler.py:1978-1994 | rejects exactly on two terminals of an attempt or assistant text after its terminal; keeps the messages of attempts that never failed |
| `JournalProjection.LatestFinals` | src/unchain/context/compiler.py:1996-2012 | per attempt without canonical text and without failure, its newest final message |
| `JournalProjection.Qualify` | src/unchain/context/compiler.py:2014-2059 | exactly the finals a later successful terminal commits; rejects exactly on a workflow mismatch |
| `JournalProjection.SegmentsBySeparation` | src/unchain/context/compiler.py:2061-2074 | two positions have the same count of earlier user messages exactly when no user message lies between them |
| `JournalProjection.NewestPerSegment` | src/unchain/context/compiler.py:2067-2077 | per segment the newest qualified final |
| `JournalProjection.SortedIndexes` | src/unchain/context/compiler.py:2113-2137 | the selected events in strictly increasing sequence order |
| `JournalProjection.ReceiptsFor` | src/unchain/context/compiler.py:2078-2111 | one dependency per surviving final, naming the terminal that commits it |
| `JournalProjection.ChooseEvents` | src/unchain/context/compiler.py:1830-2077 | the passes together accept exactly the acceptable journals and choose exactly the selected events |
| `JournalProjection.ProjectJournal` | src/unchain/context/compiler.py:1782-2154 | accepts exactly the acceptable journals; candidates, digests, receipts and dependencies are exactly those of the selected events |
| `JournalTheorems.ProjectionUnique` | src/unchain/context/compiler.py:2130-2154 | a journal has one projection |
| `JournalTheorems.TranscriptEligible` | src/unchain/context/compiler.py:1782-2154 | strictly ordered with unique cursors; no assistant text of an attempt that ended badly; no final beside a canonical message; every final followed by a successful terminal of the same attempt and workflow; a user message between any two finals; user messages dropped only when unbound handoff records |
| `JournalSpec.AcceptedExactly` | src/unchain/context/compiler.py:1782-2059 | a journal is accepted exactly when no event is malformed, every attempt has at most one end and no canonical text after it, and every committed final message is in the scope of the end that commits it |
| `JournalSpec.ShownExactly` | src/unchain/context/compiler.py:1830-2137 | the transcript shows an event exactly when it is a user message that is no unbound handoff record, an assistant message of the last or no step of an attempt that did not end badly, a question or an answer to one asked before, or the last committed final message before the next user message |
| `JournalSpec.ShownText` | src/unchain/context/compiler.py:1846-1967 | and shows it with its own canonical text |
| `JournalSpec.ReceiptsExactly` | src/unchain/context/compiler.py:2078-2111 | the dependencies are exactly those shown final messages with the ends that commit them, their attempt, scope and digest |
| `JournalSpec.DigestsExactly` | src/unchain/context/compiler.py:2113-2154 | exactly the shown events have a digest on record, and it is their own |
| `JournalMerge.CheckSources` | src/unchain/context/compiler.py:2171-2184 | accepts exactly when every bound message is the canonical form of the candidate at its cursor |
| `JournalMerge.PlaceCandidates` | src/unchain/context/compiler.py:2225-2244 | candidates in journal order; each bound source is used up exactly once |
| `JournalMerge.CheckOrder` | src/unchain/context/compiler.py:2247-2251 | accepts exactly when the bound sequence numbers ascend |
| `JournalMerge.Merge` | src/unchain/context/compiler.py:2157-2272 | accepted exactly when there are no events, or every bound message matches, no two share a cursor and a request that has to be rebuilt keeps within the resource limits; the result is systems, transcript, unbound rest |
| `MergeTheorems.MergeIdempotent` | src/unchain/context/compiler.py:2157-2272 | merging a merged history is accepted whatever the resource limits, and changes nothing, with or without a transcript |
| `MergeTheorems.MergeLossless` | src/unchain/context/compiler.py:2200-2245 | unbound messages occur as often as before, every bound one once in canonical form at its cursor, every candidate once |
| `MergeTheorems.SameTape` | src/unchain/context/compiler.py:1858-1867 | binding the whole transcript changes the meaning of no event, so unbound handoff records stay out |
| `MergeTheorems.ProjectionIdempotent` | src/unchain/context/compiler.py:1782-2272 | projecting a projected request is accepted and yields the same transcript and the same request |
| `MergeTheorems.DependencyPasses` | src/unchain/context/checkpoints.py:92-168 | every dependency the projection writes passes the record's constructor, for well-formed identifiers |
| `MergeTheorems.MergedManifestOk` | src/unchain/context/compiler.py:2014-2111 | in a merged history receipts are distinct and never alias a source cursor |
| `MergeTheorems.ProjectedHistoryCheckpoints` | src/unchain/context/compiler.py:275-331 | any non-empty choice of cursor-bearing messages of a projected history gives a request all validators accept |
| `MergeTheorems.TranscriptCanonical` | src/unchain/context/compiler.py:1846-1853 | every transcript message is a fixed point of canonicalisation |
| `EventRanges.EventRangesForCursors` | src/unchain/context/compiler.py:3846-3864 | covers exactly the given sequence numbers; with one event per number the ranges are the maximal runs in order |
| `EventRanges.SemanticCursors` | src/unchain/context/compiler.py:3814-3843 | rejects exactly malformed or repeated cursors of consumed events |
| `EventRanges.ConflictFree` | src/unchain/context/compiler.py:3882-3892 | accepts exactly when equal ids or numbers mean equal cursors |
| `EventRanges.ReductionAccounts` | src/unchain/context/compiler.py:3708-3712 | every source message of a complete reduction is reported as included or transformed |
| `EventRanges.BuildEnvelope` | src/unchain/context/compiler.py:3867-3943 | for a complete build the included and transformed ranges are maximal runs, disjoint, and together cover exactly the numbers of source and consumed cursors; transformed are exactly the numbers of transformed source messages and consumed events, included those of included messages that are not; an unavailable build has none |
| `Durability.CollectCandidates` | src/unchain/durability.py:100-137 | all links of a node within the limit, or an incomplete flag |
| `Durability.FilterUnique` | src/unchain/durability.py:139-150 | the new neighbours, each once |
| `Durability.Expand` | src/unchain/durability.py:100-170 | what is queued and exactly when an expansion counts as truncated |
| `Durability.Round` | src/unchain/durability.py:83-170 | one round keeps visited plus pending within 1024, keeps everything found reachable, and covers what it does not report |
| `Durability.FindDurableFailure` | src/unchain/durability.py:71-177 | "nothing found" means every reachable exception is known, readable, within both budgets and not durable; a returned one is reachable and durable; giving up means that a budget was met or something was unreadable, and that the root is not durable; within the budgets a durable exception is found exactly when one is reachable; a durable root is found, and otherwise a durable first link |
| `Durability.SmallNeverTruncates` | src/unchain/durability.py:14-15 | on a readable graph within the node limit, with room for its longest group and no simple path beyond the depth limit, no limit is met |
| `Durability.ThreadedStep` | src/unchain/durability.py:152-170 | the search reaches every node along a path of visited nodes that repeats nothing, as long as its depth says |
| `Usage.ConstructHolds` | src/unchain/run_bundle.py:435-505 | a constructed usage satisfies every cross-field rule; it passes the limit exactly when the cache-write total filled in after the limit check does, and then it cannot be constructed again |
| `Usage.ConstructAccepts` | src/unchain/run_bundle.py:435-505 | accepts exactly the counters within the limit for which the unknown input parts, and the unknown output parts, can be chosen to add up to their totals, and whose known totals add up; changes nothing but an unknown cache-write total whose two lifetimes are known |
| `Usage.ConstructorExceedsLimit` | src/unchain/run_bundle.py:436-471 | such a usage exists |
| `Usage.SumIsClosed` | src/unchain/run_bundle.py:435-505 | the sum of constructed usages satisfies every constructor rule, is never adjusted, and is rejected exactly beyond the safe-integer limit |
| `Usage.RowsAdd` | src/unchain/run_bundle.py:778-801 | column sums inherit the TTL split, the component bounds and equalities and the input/output total |
| `Usage.SumOfSums` | src/unchain/run_bundle.py:778-801 | for parts whose own sums are accepted, the sum of sums equals the sum of all, label included, exactly when no part is empty or every counter is unknown somewhere in the whole |
| `Usage.SumOfOne` | src/unchain/run_bundle.py:778-801 | a constructed usage can be summed at all exactly when it is within the limit, and then it comes back but for its label |
| `Usage.SumPermutes` | src/unchain/run_bundle.py:778-801 | the sum depends only on the multiset of usages |
| `Usage.EmptyPartErases` | src/unchain/run_bundle.py:781-782 | an empty part turns every counter of the sum unknown and leaves only the label |
| `Usage.EmptyPartNeutral` | src/unchain/run_bundle.py:781-782 | an empty part beside an accepted sum is neutral exactly when that sum knows nothing |
| `Usage.EmptyPartIsNotNeutral` | src/unchain/run_bundle.py:781-782 | a concrete usage whose sum an empty part changes |
| `Usage.PartLimitIsStricter` | src/unchain/run_bundle.py:778-801 | a part can be rejected although the whole is accepted |
| `Usage.PartOverflows` | src/unchain/run_bundle.py:778-801 | under an accepted whole a part is rejected exactly when it passes the limit in some counter, and the whole knows no such counter |
| `RunTopology.WalkToOwner` | src/unchain/run_bundle.py:3062-3076 | the parent walk ends on every child set and says whether it reaches the owner |
| `RunTopology.ValidateTopology` | src/unchain/run_bundle.py:3034-3076 | accepts exactly the trees rooted at the owner |
| `RunTopology.ClosedIsUnrooted` | src/unchain/run_bundle.py:3062-3076 | a child on a parent cycle reaches the owner in no number of steps |
| `RunBundle.Index` | src/unchain/run_bundle.py:3391-3443 | the indexing loop computes the dictionary or meets a conflict |
| `RunBundle.IndexOk` | src/unchain/run_bundle.py:3391-3443 | succeeds exactly without conflicting facts, and then holds every fact once |
| `RunBundle.ArrangeOk` | src/unchain/run_bundle.py:3402-3443 | the ordered tuple ascends by id and has exactly the given facts |
| `RunBundle.ArrangeSetOnly` | src/unchain/run_bundle.py:3402-3443 | order and repetition of the facts do not matter |
| `RunBundle.GroupReceipts` | src/unchain/run_bundle.py:3476-3480 | the grouping loop computes the groups, in first-seen order |
| `RunBundle.GroupsPartition` | src/unchain/run_bundle.py:3476-3494 | groups have distinct keys, hold only their key, and together hold every call once |
| `RunBundle.GroupsAddUp` | src/unchain/run_bundle.py:3476-3494 | any measure summed over the groups is the measure of the whole |
| `RunBundle.SlicesPartition` | src/unchain/run_bundle.py:3481-3494 | in key order the slices still have distinct keys, hold every call once and add up to the whole |
| `RunBundle.SliceHolds` | src/unchain/run_bundle.py:3476-3494 | a slice holds exactly the receipts of its provider, model and tier, in order, and every key that occurs has one |
| `RunReducer.ReduceRun` | src/unchain/run_bundle.py:3374-3551 | computes the reduction |
| `RunReducer.AssembleRecomputes` | src/unchain/run_bundle.py:3147-3253 | call sets, slices, coverage, cost and evidence of a reduction always pass the constructor's recomputation |
| `RunReducer.ReduceAcceptsExactly` | src/unchain/run_bundle.py:3021-3253 | for constructed usages a reduction succeeds exactly when the facts arrange without conflict, the usage of the direct part, the descendant part, the whole and every slice and the priced amount stay in the safe range, the children form a tree, the owners match it, and the finished bundle is within the canonical byte limit |
| `RunReducer.AssembleAccepts` | src/unchain/run_bundle.py:3445-3510 | the reducer's sums are accepted exactly when they stay in the safe range; coverage never refuses distinct call ids |
| `RunReducer.ReduceIsSetFunction` | src/unchain/run_bundle.py:3391-3475 | the result depends only on the sets of receipts, children and events |
| `RunReducer.SliceCostsAddUp` | src/unchain/run_bundle.py:3481-3494 | slice costs add up to the bundle cost |
| `BundleFacts.CostIs` | src/unchain/run_bundle.py:2666-2697 | the amount is the sum of the prices of the priced receipts, absent exactly when none is priced; the status is none, all or some accordingly; the snapshots are exactly those the receipts name |
| `BundleFacts.CoverageIs` | src/unchain/run_bundle.py:2558-2585 | observed counts exactly the completed receipts with a known total, missing lists exactly the other calls, uncertain counts the uncertain ones |
| `BundleFacts.UsageIs` | src/unchain/run_bundle.py:778-801 | every counter is the sum over the receipts, unknown exactly when one does not know it; the label follows from the receipts' labels |
| `BundleFacts.SlicesAre` | src/unchain/run_bundle.py:3476-3494 | every slice is exactly the receipts of one provider, model and tier with their calls, usage, coverage and cost; every receipt has its slice; slices ascend by key |
| `BundleFacts.ReductionDescribes` | src/unchain/run_bundle.py:3374-3551 | all fields of an accepted bundle, said about its receipts: the given receipts by call, own and descendant calls and usage by owner, totals, slices, evidence, children and events |
| `BundleAcceptance.AcceptsExactly` | src/unchain/run_bundle.py:3021-3551 | a reduction succeeds exactly when the facts arrange, the sums stay in range, the children form a tree, every receipt, child and event belongs to it, every call's last attempt event has its status, and the bundle can be encoded, all said about the facts |
| `BundleAcceptance.GatherIs` | src/unchain/run_bundle.py:3554-3611 | a merge takes exactly the bundles of the same execution that are this run or a child run, and from each its receipts, events and children, and itself as a child when it is another run |
| `RunReducer.GatherBundles` | src/unchain/run_bundle.py:3554-3611 | the merging loop collects the facts of all bundles or rejects a foreign one |
| `RunReducer.MergeCountsOnce` | src/unchain/run_bundle.py:3554-3611 | through any nesting and repetition of merges every provider call appears exactly once |
| `CompactTotals.CompactMatchesReducer` | src/unchain/run_bundle_v2.py:157-178 | for reducible facts the compact totals equal the reducer's exactly when no call id repeats; then the direct and descendant parts agree too |
| `CompactTotals.CompactCountsRepetition` | src/unchain/run_bundle_v2.py:388-404 | repeating any receipt of reducible facts leaves the reduction as it was and makes the compact totals differ from it |
| `CompactTotals.LoneCallReduces` | src/unchain/run_bundle.py:3374-3551 | a root run with one priced call is reducible when its bundle is within the byte limit, so such facts exist |
| `CompactDetails.BigEndianInjective` | src/unchain/run_bundle_v2.py:68-80 | the eight-byte length prefix determines the length |
| `CompactDetails.FramesInjective` | src/unchain/run_bundle_v2.py:68-80 | the framed concatenation determines the items |
| `CompactDetails.PayloadInjective` | src/unchain/run_bundle_v2.py:68-80 | it also determines the domain |
| `CompactDetails.BigEndianValue` | src/unchain/run_bundle_v2.py:68-80 | a length prefix stands for the length |
| `CompactDetails.FrameAt` | src/unchain/run_bundle_v2.py:68-80 | every item lies at its place behind its own length in eight bytes |
| `CompactDetails.DigestPartition` | src/unchain/run_bundle_v2.py:68-80 | the loop computes count, size and digest of a partition |
| `CompactDetails.DigestDescribes` | src/unchain/run_bundle_v2.py:68-80 | a partition is refused exactly when its framing passes the limit; otherwise it has its name, the number of facts, and the number of bytes, which are the name and every canonical fact framed in order |
| `CompactDetails.SealDescribes` | src/unchain/run_bundle_v2.py:404-422 | a sealed reference lists the three partitions with their counts and bytes, their total and the digest of header and parts; refused exactly when the total passes the limit |
| `CompactDetails.VerifyAcceptsExactlySealed` | src/unchain/run_bundle_v2.py:281-335 | details verify against a sealed reference exactly when they are the sealed facts under the sealed header |
| `CompactDetails.VerifyExactly` | src/unchain/run_bundle_v2.py:281-335 | details verify against any reference within the byte limit exactly when it is the reference sealed for them under the same header |
| `ExecutionGuard.LeaseGuard.constructor` | src/unchain/execution.py:481-492 | a new guard is active under its lease with no error |
| `ExecutionGuard.LeaseGuard.GetFence` | src/unchain/execution.py:498-520 | fence reads nothing from the store and fails when the guard is not usable |
| `ExecutionGuard.LeaseGuard.DoAssertActive` | src/unchain/execution.py:522-540 | one verify call, checked against execution, owner and token |
| `ExecutionGuard.LeaseGuard.DoRenew` | src/unchain/execution.py:541-577 | one renew call; the token must not change |
| `ExecutionGuard.LeaseGuard.DoRequestStop` | src/unchain/execution.py:687-691 | only the heartbeat's stop flag changes |
| `ExecutionGuard.LeaseGuard.DoRelease` | src/unchain/execution.py:579-600 | released once the store released; a raising store leaves the guard active, repetition is harmless |
| `ExecutionGuard.LeaseGuard.DoReleaseForWait` | src/unchain/execution.py:602-623 | waits only after the store released |
| `ExecutionGuard.LeaseGuard.DoReacquire` | src/unchain/execution.py:624-665 | only from waiting, and only with a larger token |
| `ExecutionGuard.LeaseGuard.DoHeartbeat` | src/unchain/execution.py:697-708 | a failed renewal records its error and stops the heartbeat |
| `ExecutionGuard.RunKeepsIdentity` | src/unchain/execution.py:478-708 | over every run execution and owner stay; the token moves only at a successful reacquire, and strictly up |
| `ExecutionGuard.SpentTenureStaysSpent` | src/unchain/execution.py:503-520 | once waiting, released or in error, fence, renew and assert fail without a store call until the token advanced |
| `ExecutionGuard.ErrorStopsHeartbeat` | src/unchain/execution.py:697-708 | a recorded error has stopped the heartbeat |
| `ExecutionGuard.HeartbeatErrorBlocks` | src/unchain/execution.py:503-577 | for the rest of the tenure every fence, renew and assert reports exactly that error |
| `ExecutionGuard.ReleasedIsFinal` | src/unchain/execution.py:579-665 | released is absorbing and no store call follows |
| `ExecutionGuard.CallsCarryOwnTokens` | src/unchain/execution.py:447-475 | every store call names the guard's own execution and owner and a token it was granted; a given-up token is never sent again |
| `GuardSteps.FenceAnswers` | src/unchain/execution.py:498-520 | a fence is the present lease exactly of an active guard without error |
| `GuardSteps.AssertAnswers` | src/unchain/execution.py:522-540 | an assertion holds exactly when the one verify call is answered with the guard's own execution, owner and token; otherwise lease, phase and error stay |
| `GuardSteps.RenewAnswers` | src/unchain/execution.py:541-577 | a renewal holds exactly for the own token, the same acquisition time and no earlier expiry; otherwise lease, phase and error stay |
| `GuardSteps.RenewRefuses` | src/unchain/execution.py:541-577 | a refused renewal says why |
| `GuardSteps.HeartbeatBeats` | src/unchain/execution.py:697-708 | a heartbeat renews an active guard until it is stopped, and records exactly why it failed |
| `GuardSteps.StopOnlyStops` | src/unchain/execution.py:687-691 | a stop request changes nothing but the stop flag |
| `GuardSteps.ReleaseIsForGood` | src/unchain/execution.py:579-665 | a release succeeds unless the store of an active guard raises, and then lease, phase and error stay; after a success every continuation is released, makes no store call, and fails fence, renew, assert and reacquire |
| `GuardSteps.WaitPauses` | src/unchain/execution.py:602-623 | waiting succeeds exactly from waiting or when the store of an active guard released, and leaves an unusable waiting guard with its lease |
| `GuardSteps.ReacquireResumes` | src/unchain/execution.py:624-665 | a waiting guard comes back exactly with a larger token of its own, and its fence is then the granted lease |
| `BorrowedGuard.Borrow` | src/unchain/execution.py:821-838 | the borrower starts active; only the root session or one below it with a valid identifier may borrow, and only while the parent is verified |
| `BorrowedGuard.Borrower.DoAssert` | src/unchain/execution.py:771-775 | asserts through the parent under the child's session |
| `BorrowedGuard.Borrower.DoRenew` | src/unchain/execution.py:776-780 | renews through the parent |
| `BorrowedGuard.Borrower.DoRelease` | src/unchain/execution.py:781-786 | changes the child only |
| `BorrowedGuard.Borrower.DoWait` | src/unchain/execution.py:787-794 | verifies through the parent, then only the child waits |
| `BorrowedGuard.Borrower.DoReacquire` | src/unchain/execution.py:795-813 | resumes the child after verifying the parent |
| `BorrowedGuard.ChildrenNeverRelease` | src/unchain/execution.py:711-835 | no run of children's operations and heartbeats releases or reacquires the parent's lease; the store sees only verify and renew |
| `BorrowedGuard.SiblingsUntouched` | src/unchain/execution.py:711-819 | whatever the other children and the heartbeat did, an active sibling still has the lease: its fence answers with the same execution, owner and token, or with exactly the recorded heartbeat error |
| `GuardSteps.BorrowAnswers` | src/unchain/execution.py:711-780 | an active child answers what its parent answers, under its own session; another leaves the parent alone |
| `GuardSteps.BorrowReleaseEnds` | src/unchain/execution.py:781-786 | a released child answers nothing and cannot be resumed |
| `GuardSteps.BorrowWaitAndResume` | src/unchain/execution.py:787-813 | waiting pauses an active child, and reacquiring resumes a paused one, exactly when the parent is verified |
| `Fencing.TraceKeepsInv` | src/unchain/execution.py:447-475 | over every interleaving of workers, takeovers and expiry the store's tokens stay ahead of every guard |
| `Fencing.AnswerNeedsHolder` | src/unchain/execution.py:522-577 | a positive assert or renew means the guard's token is the current holder's |
| `Fencing.SupersededForever` | src/unchain/execution.py:522-577 | a superseded guard never verifies again without a new token |
| `Fencing.GuardedCallSawNoTakeover` | src/unchain/execution.py:838-857 | between the two answers of a guarded model call the token is unchanged exactly when nothing was granted in between |
| `Fencing.TakeoverInsideCall` | src/unchain/execution.py:838-857 | two positive answers with another owner in between, when the worker itself reacquired |
| `BorrowedFencing.CrewRefinesWorkers` | src/unchain/execution.py:711-819 | every run with children is, for workers and store, a run without them |
| `BorrowedFencing.BorrowedCallSawNoTakeover` | src/unchain/execution.py:814-857 | a guarded model call through a child: the parent's token is unchanged exactly when nothing was granted in between, and then the parent held the execution throughout |
| `Composition.FloorShares` | src/unchain/context/composition.py:742-749 | one token each plus the whole part of the share, and the remainders |
| `Composition.DivisionConserves` | src/unchain/context/composition.py:742-751 | whole parts and remainders account for the whole pool |
| `Composition.WinnersHaveRemainders` | src/unchain/context/composition.py:751-754 | an extra token only goes to a leaf with a remainder |
| `Composition.MoreNeverLess` | src/unchain/context/composition.py:742-754 | more measured tokens never get fewer, ties go to the earlier leaf |
| `Composition.Apportion` | src/unchain/context/composition.py:742-754 | allocations sum to the target, are at least 1, strictly within one token of the exact share, and monotone |
| `Composition.ScaleCategories` | src/unchain/context/composition.py:701-780 | refuses exactly without leaves or with fewer tokens than leaves; otherwise the tree keeps its shape and its leaves hold an apportionment |
| `Composition.Reconcile` | src/unchain/context/composition.py:898-920 | when reconciled, attributed plus residual is the billed total |
| `ContentPaging.RenderedAccepted` | src/unchain/context_content.py:363-450 | a rendered prefix passes the page validator exactly when the metadata is sound, it fits, and it ends the source or makes progress |
| `ContentPaging.AcceptsExactly` | src/unchain/context_content.py:363-450 | the validator accepts exactly the pages that say of some bytes, in either encoding, what a rendering of them says |
| `ContentPaging.RenderContentPage` | src/unchain/context_content.py:523-575 | the page is the longest prefix the search settles on: it fits while one more byte does not, or it is whole; rejection happens exactly when the metadata is unsound, an unfinished source gives no bytes, the empty page does not fit, or no probe of the search fits; a page on which one byte fits is never refused for lack of progress; a page has the source's metadata, text exactly when its bytes are UTF-8, and a continuation right behind it unless it ends the source |
| `ContentPaging.SearchPrefix` | src/unchain/context_content.py:551-565 | the search over a predicate that need not be monotone ends on a prefix that fits while one more byte does not, and on the empty one exactly when no probe fits |
| `ContentPaging.LastProbeIsOneByte` | src/unchain/context_content.py:551-565 | a search that finds nothing has found that one byte does not fit |
| `ContentPaging.ContinuationExtends` | src/unchain/context_content.py:170-193 | a validated page answering a page's own continuation extends the chain further into the source |
| `ContentPaging.ChainHoldsPrefix` | src/unchain/context_content.py:329-360 | pages read along `next_offset` hold exactly the source up to where the last one ends |
| `ContentPaging.ChainReassembles` | src/unchain/context_content.py:321-360 | reading ends, and at eof the pages are the source byte for byte |

## Left out

- Text: JSON, Unicode, URLs, media blocks, attachments and the base64url locator are parameters or flags; canonical encodings are injective functions and chat canonicalisation is an idempotent partial function with a given role.
- SHA-256 is represented by the value it digests, so collisions are not modelled.
- Identifiers are natural numbers in the compiler and accounting modules; only their equality and order matter there.
- The token estimator, the compaction functions and the checkpoint marker are arbitrary functions; compaction is only assumed to keep roles and tool ids.
- The neutral context, the portable projection and provider-specific rendering of the native tool batch: `_assemble` is modelled from the injected messages and the batch on, and of the batch only its last check is.
- Handshake.HandshakeExactly: speaks about the same assembled messages in both passes; dropping covered tool exchanges between the passes is not modelled.
- Error messages and which of several errors is raised first: a rejection is one value, except in `_reduce` and the guard.
- Composition.Apportion: uses exact rational shares where the original uses floating point, so rounding of very large shares is not captured.
- Composition.FloorShares: keeps each share as an exact quotient and remainder, for the same reason.
- Durability.FindDurableFailure: attribute reads are deterministic; an exception whose attributes change between reads is not captured. Unreadable attributes and groups are.
- JSON resource limits are one predicate of the rebuilt request, and the canonical size of a bundle is one number; how they follow from the text is not modelled.
- Run descriptors, extensions, the legacy override, timestamps, billing dimensions, metric counters and pricing-catalog loading: long and shallow.
- Real time, threads, waiting and joining: each lock-protected block is one step, and expiry is an action of the store.
- The lease store, artifact repository, journal store and coordinator: represented by an adversary, or by stated assumptions.
- Artifact references, build identity and checkpoint references of the build envelope: only its ranges are modelled.
- Agent, REPL, model IO registry, characters and tool outcome classification: plumbing or easier than the modelled cores.
