# Verified model of the DAG workflow runtime

A Dafny model of the run-evaluation, scheduling, storage and integration core of the DAG workflow
extension, with proofs of what that code keeps over whole runs. `dafny verify dfyconfig.toml` checks
everything.

Code that computes by expressions is modelled by functions; code that updates objects or loops over
changing variables is modelled by classes and methods that are proved against such functions or
against state invariants. Concurrency between awaits or between processes is modelled by atomic steps
that interleave freely, and a crash may come between any two of them.

## Parts

- **Telemetry accumulator** (`Accumulator`, `AccumulatorDraft`, `AccumulatorLaws`, `TimeConservation`,
  `RunLaws`, `RevisionCoverage`, `ObservedOpen`, `ClosedLedgers`, `IntervalLists`, `CreditModel`) and **event sweep** (`IntervalSweep`,
  `TickArea`). `AccumulatorDraft` runs the fold statement by statement; it is proved equal to the
  function `Accumulator.Fold`, and the laws are about that function. `FoldSweep` connects the two
  algorithms: over a contiguous run the fold computes what the sweep returns on the intervals carved from
  that run, each under a hash of its own.
- **Scheduler** (`SlotOrder`, `Scheduler`, `SchedulerLaws`, `SchedulerLoop`, `SchedulerExact`, `CriticalHeight`).
- **Plan graph** (`CausalGraph`, `CausalDfs`) and **diagram sort** (`KahnSort`, `KahnLaws`, `KahnDuplicates`).
- **Snapshot store**: the conductor lock (`StoreLock`, `StoreLockSafety`, `StoreLockRuns`, `StoreLockRaces`, `StoreLockHarm`,
  `StoreLockProgress`) and the published files (`SnapshotStore`).
- **Evaluation index and observer** (`EvaluationIndex`, `EvaluationStore`, `Observer`).
- **Durable effects and landing** (`DurableEffects`, `Landing`).
- **Wake pumps** (`Conductor`, `Widget`).
- **Strict JSON** (`JsonText`, `StrictJson`, `StrictJsonLaws`, `StrictJsonSound`, `StrictJsonParser`,
  `CanonicalJson`, `CanonicalJsonLaws`, `CanonicalJsonForm`) and **civil time** (`CivilTime`).
- `Wrappers`, `FiniteSets` and `LexOrder` are shared helpers.

## Where the code does not do what it is meant to do

Each of these is a proved result with a concrete witness and the condition under which the intent holds.

- **Mutual exclusion in the run store.** Two live processes can be inside the conductor critical section
  together. (a) A process reads the conductor lock and only then asks whether its owner is dead; an
  owner that releases its lock and dies in between gets a dead verdict while the path already holds the
  lock of a newcomer, and that one is quarantined. Initializers do this, and so do recoverers when they
  resume a recovery that died halfway. (b) An initializer quarantines under a name with an
  `initialization-` prefix, a recoverer under the bare hash or a `replacement-` prefix, so retiring the
  same stale lock once under one name does not make the retirement under the other fail.
  `StoreLockRaces` gives one run for each of the three, violating only that family's condition;
  `StoreLockSafety.UndisturbedRunsExclude` proves exclusion on all runs that meet both conditions.
  Which retirements matter is exact: a *theft* takes the lock of a live process that has published,
  rechecked, is inside or is about to remove its lock; one that is withdrawing or leaving looks again and
  comes to no harm. Without theft exclusion holds (`StoreLock.ExclusionExactly`), and after a theft the run
  can go on, without another one, to two processes inside (`StoreLockHarm.TheftIsHarmful`,
  `StoreLockHarm.SafeExactly`). The one case not claimed to do harm is a theft from a recoverer that still
  has its own recovery lock.
- **Reading a run that is not yet published.** `read` reports an absent state file as the corruption error,
  so a read that begins while a run is being initialized can call it corrupt
  (`SnapshotStore.EarlyReadIsCorrupt`). It does so exactly when there is no state file at its first step
  (`SnapshotStore.CorruptExactly`), and never once a run is published.
- **Repeated and empty identifiers in the diagram.** The sort warns about a repeated node identifier and
  goes on; the order can then list a node before its dependency and miss a cycle
  (`KahnDuplicates.RepetitionHidesCycle`). An empty identifier ends the sort at its turn, and nodes on no
  cycle are reported as left over (`KahnDuplicates.EmptyIdentifierEndsSort`). The sort is reliable for all
  dependencies exactly when no identifier repeats and none is empty (`KahnDuplicates.ReliableIffDistinct`).
- **Canonical key order.** Documents are labelled `jcs-v1`, but the order of object keys is that of
  `JSON.stringify`: array-index keys first, by value. It is the order of RFC 8785, section 3.2.3, exactly
  under `CanonicalJsonLaws.CodeUnitOrderExactly`; the keys 9 and 10 violate it. Injectivity and the
  round trip do not depend on it.

## Assumptions

- SHA-256 is injective: a hash stands for what it names. Identifiers compare by an abstract strict total
  order (an identifier is its rank).
- Ticks are whole milliseconds. The accumulator's numeric caps are kept as an explicit failure.
- A rename is atomic, renaming onto a non-empty directory fails, and a dead verdict is sound and permanent.
- The check before a fast-forward and the fast-forward are one step. One driver works on an effect at a
  time, under the conductor lock and the single-flight pump.
- A fold by the observer is atomic: when it throws it has not folded.
- Doubles that are not integers are named by an index; reading and printing them is an abstract bijection
  (`CanonicalJson.Faithful`).

## Model

| member | source | states |
|---|---|---|
| `IntervalSweep.Sweep` | extensions/dag-workflow/dag-runtime/evaluation.ts:643-682 | for every set of intervals the event sweep gives the reference totals: work is the sum of lengths, creditable work the sum of credited lengths, overlap is credited length less the measure of the credited union, opportunity is operation-plus-ready length less the measure of the union, elapsed is latest end less earliest start |
| `IntervalSweep.SweepSorted` | extensions/dag-workflow/dag-runtime/evaluation.ts:667-681 | the running-count loop over any time-ordered events accumulates exactly those areas |
| `IntervalSweep.BuildEvents` | extensions/dag-workflow/dag-runtime/evaluation.ts:657-664 | one start and one end per interval: at any time the running counts over the events are the numbers of operations, credited operations and waits that cover it |
| `IntervalSweep.SortEventsSorted` | extensions/dag-workflow/dag-runtime/evaluation.ts:665 | the sorted list has the same events, in time order, with ends before starts at a tie |
| `IntervalSweep.SortedLevels` | extensions/dag-workflow/dag-runtime/evaluation.ts:666-680 | between consecutive event times the running counts are the numbers of intervals that cover that time |
| `IntervalSweep.InputOrderIrrelevant` | extensions/dag-workflow/dag-runtime/evaluation.ts:643-682 | two orders of the same intervals give the same totals |
| `TickArea.AreaOfCover` | extensions/dag-workflow/dag-runtime/evaluation.ts:672-673 | integrating the number of covering intervals over time gives the sum of their lengths |
| `TickArea.AreaOfExcess` | extensions/dag-workflow/dag-runtime/evaluation.ts:674-675 | integrating the count less one, floored at zero, gives the sum of lengths less the measure of the union |
| `AccumulatorDraft.FoldObservation` | extensions/dag-workflow/dag-runtime/evaluation.ts:583-641 | the statement-by-statement fold over a mutable clone, with its error cases in order, is the specification fold for every accumulator and observation; when it takes the observation in, what it leaves open is exactly what was observed, each interval going on from the prior one of its hash and class or opened at the observation |
| `ObservedOpen.FoldTracks` | extensions/dag-workflow/dag-runtime/evaluation.ts:1249-1274 | after every fold that takes an observation in, readiness, active, human and recovery lists hold exactly the observed hashes by class, operations with their credit; an interval keeps its opening when the fold is contiguous and its hash was open in that class, and otherwise opens at the observation |
| `ClosedLedgers.FoldCloses` | extensions/dag-workflow/dag-runtime/evaluation.ts:1294-1301 | a fold closes exactly the intervals it does not go on with, all of them on a break, each once: every counter, sum and histogram bucket grows by the closed intervals of its class and their durations up to the observation, or up to the last boundary on a break |
| `ClosedLedgers.FoldBooksWaste` | extensions/dag-workflow/dag-runtime/evaluation.ts:617-622 | a fold books each incident once, and as waste the number of pairs of an operation and a tick at which an incident wasted it, none counted twice |
| `ClosedLedgers.IncidentErrorExactly` | extensions/dag-workflow/dag-runtime/evaluation.ts:614-621 | incidents are refused exactly when one lies outside the folded interval or wastes an operation that was not open; the error names the first such incident |
| `ClosedLedgers.FoldSucceedsExactly` | extensions/dag-workflow/dag-runtime/evaluation.ts:583-641 | a newer valid observation is taken in exactly when no number leaves the safe range and its incidents are attributable on a contiguous fold, or there are none on a break |
| `ClosedLedgers.FoldStamps` | extensions/dag-workflow/dag-runtime/evaluation.ts:596-610 | a fold takes over revision, snapshot, epoch and tick, counts an epoch change, a clock reset or an unsupported clock exactly when there is one, adds the given drops and failures, and counts as censored exactly what a break closes |
| `AccumulatorDraft.Draft.CloseInterval` | extensions/dag-workflow/dag-runtime/evaluation.ts:1294-1301 | closing one interval changes exactly its ledger's sum, histogram bucket and counter, and the class-specific ones: the closed time of its waits grows by its duration, and balanced histograms stay balanced |
| `AccumulatorDraft.Draft.ReconcileIntervals` | extensions/dag-workflow/dag-runtime/evaluation.ts:1249-1259 | afterwards the list has exactly the wanted hashes in their classes, sorted; those open before in the same class keep their origin, the others are opened now, and what is not wanted is closed in the given ledger |
| `AccumulatorDraft.Draft.ReconcileActiveIntervals` | extensions/dag-workflow/dag-runtime/evaluation.ts:1260-1274 | afterwards the list has exactly the observed reservations and operations, operations with their observed credit; those open before keep their origin, the others are opened now, and the rest is closed |
| `AccumulatorDraft.Draft.CensorOpenIntervals` | extensions/dag-workflow/dag-runtime/evaluation.ts:1275-1287 | closes everything open at the last observed boundary, counts what was censored, and leaves nothing open |
| `AccumulatorDraft.Draft.AddRevisionGap` | extensions/dag-workflow/dag-runtime/evaluation.ts:1310-1315 | merges with the last gap, appends below the cap of 64, or counts an overflow; unless it overflows, a gap that does not begin before the last one adds exactly its revisions to those recorded |
| `AccumulatorDraft.Draft.AccumulateIntegrals` | extensions/dag-workflow/dag-runtime/evaluation.ts:612-628 | the five integrals grow by elapsed time times the counts open before the observation, and keep the inequalities between them |
| `Accumulator.BucketFor` | extensions/dag-workflow/dag-runtime/evaluation.ts:1302-1309 | the bucket is the number of the five thresholds that the duration has reached: it has reached exactly those numbered below the bucket |
| `AccumulatorLaws.FoldKeepsConsistent` | extensions/dag-workflow/dag-runtime/evaluation.ts:871-912 | folding any newer valid observation into an accumulator that meets the validator's structural clauses gives one that meets them all again |
| `AccumulatorLaws.FoldSealsExactly` | extensions/dag-workflow/dag-runtime/evaluation.ts:1242-1247 | sealing a fold of a valid accumulator fails exactly when a number leaves the safe range, never on a structural clause |
| `AccumulatorLaws.CapsExactly` | extensions/dag-workflow/dag-runtime/evaluation.ts:214-219 | an observation of distinct hashes is valid exactly up to 512 ready, reserved and active ones and 64 human, authority and recovery ones |
| `AccumulatorLaws.IncidentsAccepted` | extensions/dag-workflow/dag-runtime/evaluation.ts:563-577 | every incident of a valid observation is an accepted finding disposition, and no two name one finding or waste one operation |
| `AccumulatorLaws.AddGapValid` | extensions/dag-workflow/dag-runtime/evaluation.ts:1310-1315 | the gap list stays sorted, merged, below its cap and within the missing count |
| `AccumulatorLaws.IntegrateValid` | extensions/dag-workflow/dag-runtime/evaluation.ts:907-909 | the integral clauses (overlap within useful work and opportunity, useful less overlap within elapsed) survive one interval |
| `TimeConservation.FoldConservesTime` | extensions/dag-workflow/dag-runtime/evaluation.ts:611-637 | for readiness, dispatch, recovery, human and authority waits, closed time plus the ages of what is open grows by elapsed time times the open counts on a contiguous fold and not at all on a censoring one |
| `TimeConservation.ReconcileConserves` | extensions/dag-workflow/dag-runtime/evaluation.ts:1249-1274 | reconciling moves time from open intervals to closed sums without gain or loss |
| `TimeConservation.CensorConserves` | extensions/dag-workflow/dag-runtime/evaluation.ts:1275-1287 | censoring closes exactly the time held open at the boundary |
| `TimeConservation.FoldBalancesHistograms` | extensions/dag-workflow/dag-runtime/evaluation.ts:1294-1309 | each wait histogram sums to its interval counter after every fold |
| `RunLaws.RunConservesTime` | extensions/dag-workflow/dag-runtime/evaluation.ts:583-641 | over a whole run from creation, held time equals the integral of the open counts over the contiguous same-clock folds, histograms balance, and false-independence waste never exceeds operation work |
| `RunLaws.FoldBoundsWaste` | extensions/dag-workflow/dag-runtime/evaluation.ts:617-622 | one fold adds at most as much waste as operation work, whatever the incidents |
| `RunLaws.FoldKeepsInvariant` | extensions/dag-workflow/dag-runtime/evaluation.ts:583-641 | every successful fold, contiguous, censoring or stale, keeps the run invariant |
| `RunLaws.FoldTwice` | extensions/dag-workflow/dag-runtime/evaluation.ts:591 | folding an observation that is a duplicate or stale returns the accumulator unchanged |
| `RevisionCoverage.RunRecordsCoverage` | extensions/dag-workflow/dag-runtime/evaluation.ts:605-610 | over a run, observed plus missing revisions is the advance since creation, the stored gaps are the first 64 maximal skipped runs in order, and the overflow counts the rest |
| `RevisionCoverage.SkippedAreUnobserved` | extensions/dag-workflow/dag-runtime/evaluation.ts:607-610 | a revision lies in a skipped run exactly when it is within the advance and was not observed |
| `RevisionCoverage.SkippedAreMaximal` | extensions/dag-workflow/dag-runtime/evaluation.ts:1310-1315 | every skipped run is bounded by observed revisions, so no two can be merged |
| `RevisionCoverage.SkippedRepresent` | extensions/dag-workflow/dag-runtime/evaluation.ts:607-609 | the lengths of the skipped runs and the number of observations add up to the advance |
| `FoldSweep.FoldRefinesSweep` | extensions/dag-workflow/dag-runtime/evaluation.ts:611-682 | over any contiguous same-clock run the event sweep accepts the intervals carved from that run, each under a hash of its own, and returns exactly the work, creditable, overlap and opportunity the fold added, and no more elapsed time; operations are cut where their credit changes and reservations count as ready |
| `FoldSweep.RunTracks` | extensions/dag-workflow/dag-runtime/evaluation.ts:611-632 | after each observation of the run the integrals already agree with the intervals carved so far |
| `SlotOrder.CompareIsLexicographic` | extensions/dag-workflow/dag-runtime/scheduler.ts:381-384 | the comparator is the lexicographic comparison of a ten-part key |
| `SlotOrder.CriteriaDecide` | extensions/dag-workflow/dag-runtime/scheduler.ts:381-384 | each criterion counts in its own direction and only when the ones before it are equal: due waiters, lower launch class, greater height, later phase, more bypasses, earlier train position, then repository, item, generation and slot |
| `SlotOrder.BeforeTotal` | extensions/dag-workflow/dag-runtime/scheduler.ts:381-384 | two slots with different identifiers are ranked one way and only one |
| `SlotOrder.BeforeTransitive` | extensions/dag-workflow/dag-runtime/scheduler.ts:381-384 | the ranking is transitive |
| `SlotOrder.FindFirst` | extensions/dag-workflow/dag-runtime/scheduler.ts:196-200 | the head of the sorted list is the unique slot that precedes all others |
| `Scheduler.RefusedIffCodes` | extensions/dag-workflow/dag-runtime/scheduler.ts:370-379 | a slot is refused exactly when it gets a code, and admission alone never gives the fairness code; what each code means is SchedulerExact.CodesExactly |
| `SchedulerExact.CodesExactly` | extensions/dag-workflow/dag-runtime/scheduler.ts:195-198 | in every safe state of the selection an open slot has the lane, mutex, resource, operational or reservation code exactly when adding it would break the safety of the lanes, the mutexes, that kind of pools or the reservations; the exclusion code exactly when an active exclusion keeps it out; the fairness code exactly when it yields to the top refused waiter |
| `SchedulerExact.CapacityExactly` | extensions/dag-workflow/dag-runtime/scheduler.ts:374-375 | a slot overdraws a kind of pools exactly when with it some touched pool is missing or over its capacity: the last unit can be taken |
| `SchedulerExact.ExclusionExactly` | extensions/dag-workflow/dag-runtime/scheduler.ts:376-377 | the exclusion code comes exactly when an active exclusion covers the slot in its stage and another of its items is selected or reserved in such a stage, or runs in one in a lane that comes first |
| `SchedulerExact.AdmissionDecides` | extensions/dag-workflow/dag-runtime/scheduler.ts:426 | of two work items with active lanes exactly one precedes the other, the one admitted first, so an exclusion never keeps both waiting for each other |
| `SchedulerExact.CompetesExactly` | extensions/dag-workflow/dag-runtime/scheduler.ts:426-432 | two slots compete exactly when there is a situation in which the waiter fits and taking the other one stops it |
| `SchedulerExact.FairnessExactly` | extensions/dag-workflow/dag-runtime/scheduler.ts:196-197 | the fairness code comes exactly when the slot is not the top refused waiter, has no active lane and competes with that waiter |
| `SchedulerExact.NothingToAdd` | extensions/dag-workflow/dag-runtime/scheduler.ts:199-201 | when the loop stops, adding any ready slot left out would break the safety of lanes, mutexes, pools or reservations, or it is excluded, or yields to the top waiter |
| `SchedulerLoop.Schedule` | extensions/dag-workflow/dag-runtime/scheduler.ts:187-229 | the loop selects the greedy sequence of the set of ready slots; in the frontier a ready slot has no code exactly when selected; unselected slots carry their final codes; bypass increments are the unselected slots that compete with a selection; SchedulerExact.NothingToAdd says that nothing left out could be added |
| `SchedulerLoop.Select` | extensions/dag-workflow/dag-runtime/scheduler.ts:194-215 | the loop over tentative holdings ends, and its end state is the greedy one |
| `SchedulerLoop.Evaluate` | extensions/dag-workflow/dag-runtime/scheduler.ts:195-198 | each open slot gets its own codes and the fairness code when it is held back for the top refused waiter |
| `SchedulerLoop.Bypasses` | extensions/dag-workflow/dag-runtime/scheduler.ts:217 | a slot's bypass counter is due exactly when it is ready, unselected and competes with a selected slot |
| `SchedulerLoop.OrderIndependent` | extensions/dag-workflow/dag-runtime/scheduler.ts:187-215 | permuting the work items does not change the selected sequence |
| `SchedulerLaws.BatchIsSafe` | extensions/dag-workflow/dag-runtime/scheduler.ts:189-215 | touched pools stay within capacity, lanes within the larger of their initial number and maxActiveNodes, no mutex is held twice, no two selections share an active exclusion in its phases, and no work item gets a second live reservation |
| `SchedulerLaws.GreedyMaximal` | extensions/dag-workflow/dag-runtime/scheduler.ts:199-201 | when the loop stops no open ready slot is admissible |
| `SchedulerLaws.RefusalStays` | extensions/dag-workflow/dag-runtime/scheduler.ts:370-379 | taking another work item's slot never lifts a refusal |
| `SchedulerLaws.RefusedNeverSelected` | extensions/dag-workflow/dag-runtime/scheduler.ts:194-215 | a slot refused once is never selected later in the batch and is refused at the end |
| `SchedulerLaws.TopWaiterIsProtected` | extensions/dag-workflow/dag-runtime/scheduler.ts:195-217 | when the first ready slot is fairness-reserved and refused at the start, it is not selected and everything selected that competes with it is in an already active lane |
| `CriticalHeight.HeightIsHeaviestRoute` | extensions/dag-workflow/dag-runtime/scheduler.ts:412-417 | on any precedence graph, cyclic or not, the height is the weight of the heaviest path of incomplete successors without repetition |
| `CriticalHeight.WeightIsStages` | extensions/dag-workflow/dag-runtime/scheduler.ts:412-417 | a path weighs ten for each of its items, nine stages and one, less the stages its first item has behind it |
| `CriticalHeight.AcyclicPathsAreRoutes` | extensions/dag-workflow/dag-runtime/scheduler.ts:412-417 | on every plan the acyclicity search accepts, gates included, every path of incomplete successors counts, so the height is the longest remaining path |
| `CriticalHeight.PredecessorIsHigher` | extensions/dag-workflow/dag-runtime/scheduler.ts:412-417 | on every plan the search accepts an item is strictly higher than each of its incomplete successors, whatever stage each is at |
| `CausalDfs.Acyclic` | extensions/dag-workflow/dag-runtime/plan.ts:645-661 | the search accepts exactly the graphs with a topological order of what the items reach, and refuses exactly those with a reachable cycle |
| `CausalDfs.AcceptedMeans` | extensions/dag-workflow/dag-runtime/plan.ts:645-661 | a plan is accepted exactly when its items and all that follows them can be listed without repetition so that each precedence leads to a later item and each gate's producers come before the items it blocks |
| `CausalDfs.Search.Visit` | extensions/dag-workflow/dag-runtime/plan.ts:653-660 | a successful visit leaves the visited nodes in topological order and the path as it was; a failed one proves a cycle |
| `CausalDfs.BuildOutgoing` | extensions/dag-workflow/dag-runtime/plan.ts:646-650 | the adjacency map has exactly the precedence arcs and the arcs from each gate's producers to the items it blocks |
| `CausalGraph.OrderRefutesCycle` | extensions/dag-workflow/dag-runtime/plan.ts:645-661 | a graph with a topological order has no reachable cycle |
| `KahnSort.TopoSort` | extensions/dag-workflow/diagram.ts:46-132 | the loops compute the specified order for every document, repeated identifiers included, and always end; left over is, in document order, every node the order lacks; the duplicates reported and the set of identifiers together are exactly the identifiers of the document |
| `KahnSort.EmitShrinks` | extensions/dag-workflow/diagram.ts:117-128 | each round of the sort lowers ready nodes plus unfinished ones, so it ends on every input |
| `KahnLaws.SortIsGreedy` | extensions/dag-workflow/diagram.ts:103-132 | on distinct identifiers each listed node was the available node that comes first in the document, the empty identifier is never listed, and at the end none is available, or the first that is has the empty identifier |
| `KahnLaws.SortIsWholeCut` | extensions/dag-workflow/diagram.ts:117-132 | on distinct identifiers the order is the whole greedy order, which lacks exactly the nodes on a cycle or after one, cut off before the empty identifier |
| `KahnLaws.RespectsDependencies` | extensions/dag-workflow/diagram.ts:103-132 | every known dependency of a listed node is listed before it and nothing is listed twice |
| `KahnLaws.DependencyArcsExactly` | extensions/dag-workflow/diagram.ts:67-90 | the sorted graph has an arc exactly from each node to each node that names it as a dependency; unknown names count for nothing |
| `KahnLaws.LeftOverExactly` | extensions/dag-workflow/diagram.ts:117-131 | what is left over is what is on a cycle or after one exactly when no node has the empty identifier, or that node is itself on a cycle or after one |
| `KahnLaws.NothingLeftIffOrderable` | extensions/dag-workflow/diagram.ts:117-131 | nothing is left over exactly when a topological order exists and no node has the empty identifier |
| `KahnLaws.SortAgreesWithSearch` | extensions/dag-workflow/diagram.ts:130-131 | for one graph the sort leaves nothing over exactly when the plan validator's search accepts it and no node has the empty identifier |
| `KahnDuplicates.RepetitionHidesCycle` | extensions/dag-workflow/diagram.ts:57-60 | a document with a repeated identifier for which the sort lists a node before its dependency and reports no cycle |
| `KahnDuplicates.EmptyIdentifierEndsSort` | extensions/dag-workflow/diagram.ts:120 | a document of two independent nodes of which the sort lists none, because the first has the empty identifier |
| `KahnDuplicates.ReliableIffDistinct` | extensions/dag-workflow/diagram.ts:52-64 | a list of node identifiers sorts reliably for every choice of dependencies exactly when no identifier repeats and none is empty |
| `StrictJsonParser.ParseStrictJson` | extensions/dag-workflow/dag-runtime/common.ts:163-178 | the index-moving parser object returns what the specification returns on every text |
| `StrictJsonParser.StrictParser.Value` | extensions/dag-workflow/dag-runtime/common.ts:180-190 | one value read at the index, or a refusal; on success the index is right after it |
| `StrictJsonParser.StrictParser.Object` | extensions/dag-workflow/dag-runtime/common.ts:192-213 | members up to the closing brace, refusing a repeated key |
| `StrictJsonParser.StrictParser.Array` | extensions/dag-workflow/dag-runtime/common.ts:215-228 | elements up to the closing bracket |
| `StrictJsonParser.StrictParser.String` | extensions/dag-workflow/dag-runtime/common.ts:230-257 | a string with its escapes decoded, refusing control characters, bad escapes and unpaired surrogates |
| `StrictJsonParser.StrictParser.Number` | extensions/dag-workflow/dag-runtime/common.ts:259-267 | the longest numeral, with unsafe and non-finite numbers refused and minus zero read as zero |
| `StrictJsonParser.AssertValidUnicode` | extensions/dag-workflow/dag-runtime/common.ts:289-298 | accepts exactly the strings in which every surrogate is half of an adjacent high-low pair |
| `StrictJsonSound.AcceptsExactly` | extensions/dag-workflow/dag-runtime/common.ts:163-271 | a text is accepted with a value exactly when it is an RFC 8259 layout of that value: no repeated keys, no unpaired surrogates, no unsafe numbers |
| `JsonText.EscapesMean` | extensions/dag-workflow/dag-runtime/common.ts:238-257 | each of the eight two-character escapes stands for the character RFC 8259, section 7, gives it, the same as its six-character form |
| `JsonText.Punctuation` | extensions/dag-workflow/dag-runtime/common.ts:163-228 | white space, the structural characters and the literal names are those of RFC 8259, sections 2 and 3 |
| `JsonText.NumeralsMean` | extensions/dag-workflow/dag-runtime/common.ts:259-267 | a numeral whose double is an integer is that integer however it is written, and is refused exactly beyond the largest safe one |
| `JsonText.NumeralForms` | extensions/dag-workflow/dag-runtime/common.ts:259-263 | an exponent has a letter of either case, an optional sign and a digit, and a leading zero stands alone, as in RFC 8259, section 6 |
| `StrictJsonLaws.ValueComplete` | extensions/dag-workflow/dag-runtime/common.ts:180-190 | every layout of an accepted value is read back as that value, up to the end of the layout |
| `StrictJsonLaws.NumeralTaken` | extensions/dag-workflow/dag-runtime/common.ts:260 | the numeral pattern takes exactly the numeral in front of a separator |
| `StrictJsonSound.ValueSound` | extensions/dag-workflow/dag-runtime/common.ts:180-190 | whatever is read as a value is a layout of it |
| `CanonicalJsonLaws.ParseOfCanonical` | extensions/dag-workflow/dag-runtime/common.ts:78-118 | parsing the canonical text of an accepted value gives the value back |
| `CanonicalJson.FaithfulExists` | extensions/dag-workflow/dag-runtime/common.ts:78-118 | what the round trips assume about printing and reading doubles can be met |
| `CanonicalJsonLaws.PrintAlikeIffSame` | extensions/dag-workflow/dag-runtime/common.ts:116-118 | two accepted values print alike exactly when they are the same value, whatever the order of their keys |
| `CanonicalJsonLaws.ParsedPrints` | extensions/dag-workflow/dag-runtime/common.ts:163-165 | everything the parser returns can be printed, and printing and parsing it again gives it back |
| `CanonicalJsonForm.CanonicalExactly` | extensions/dag-workflow/dag-runtime/common.ts:78-118 | a valid layout has no space, shortest escapes in lower case, plain integers without a signed zero and ascending keys exactly when it is the one printed for its value |
| `CanonicalJsonForm.EscapeExactly` | extensions/dag-workflow/dag-runtime/common.ts:116-118 | a string piece is the printed one exactly when it is unescaped where it may be, short where there is a short escape other than the solidus, and otherwise lower-case hexadecimal |
| `CanonicalJson.SortKeys` | extensions/dag-workflow/dag-runtime/common.ts:102-118 | object keys are printed in ascending order: array indices first by value, then by code units |
| `CanonicalJson.IndexExactly` | extensions/dag-workflow/dag-runtime/common.ts:102-118 | the decimals that count as array indices are exactly those below 2 to the 32nd less one |
| `CanonicalJson.LexIsDictionary` | extensions/dag-workflow/dag-runtime/common.ts:102-118 | code-unit order puts a proper prefix first and otherwise lets the first different unit decide |
| `CanonicalJson.AscendingUnique` | extensions/dag-workflow/dag-runtime/common.ts:102-118 | a set of keys has one ascending order only |
| `CanonicalJson.Escape` | extensions/dag-workflow/dag-runtime/common.ts:116-118 | the printed piece of a code unit is a valid escape or plain character and decodes to the unit |
| `CanonicalJsonLaws.CodeUnitOrderExactly` | extensions/dag-workflow/dag-runtime/common.ts:102-118 | the printed order is the order of RFC 8785, section 3.2.3, exactly when each array-index key precedes by code units every larger index and every other key |
| `CanonicalJsonLaws.IndexKeysBreakCodeUnitOrder` | extensions/dag-workflow/dag-runtime/common.ts:102-118 | the keys 9 and 10 print in an order RFC 8785 does not allow |
| `CanonicalJsonLaws.PlainKeysAreInCodeUnitOrder` | extensions/dag-workflow/dag-runtime/common.ts:102-118 | without array-index keys the printed order is that of RFC 8785 |
| `CivilTime.DaysAreCalendarDays` | extensions/dag-workflow/dag-runtime/evaluation.ts:481-487 | the closed-form day count is the sum of year and month lengths since the start of 1970, for every year |
| `CivilTime.NextDayIsOneMore` | extensions/dag-workflow/dag-runtime/evaluation.ts:481-487 | the count grows by one from each date to the next, across every month, year and 400-year boundary |
| `CivilTime.NextSecondCounts` | extensions/dag-workflow/dag-runtime/evaluation.ts:471-490 | the stamp one second later, carrying into minute, hour, day, month and year, has exactly a billion nanoseconds more, for every valid stamp, and is valid up to the year 9999 |
| `CivilTime.EpochIsZero` | extensions/dag-workflow/dag-runtime/evaluation.ts:471-490 | the first second of 1970 is read as zero nanoseconds |
| `CivilTime.FractionCounts` | extensions/dag-workflow/dag-runtime/evaluation.ts:488-490 | two stamps equal up to the second differ by the difference of their fractions written with nine digits |
| `CivilTime.AcceptsExactly` | extensions/dag-workflow/dag-runtime/evaluation.ts:471-486 | the accepted texts are exactly the texts of valid stamps, and each is read as its stamp |
| `CivilTime.TextParses` | extensions/dag-workflow/dag-runtime/evaluation.ts:471-490 | the text of a valid stamp is accepted and read as the nanoseconds of that stamp |
| `CivilTime.TextsRankAsInstants` | extensions/dag-workflow/dag-runtime/evaluation.ts:471-490 | two accepted texts have the order of their nanoseconds exactly when they have it character by character once their fractions are written with nine digits, and the same nanoseconds exactly when they are then the same text; the nanoseconds themselves are fixed by EpochIsZero, NextSecondCounts and FractionCounts |
| `CivilTime.DigitsAscend` | extensions/dag-workflow/dag-runtime/evaluation.ts:488 | padded fractions rank by value as they rank digit by digit |
| `StoreLock.StepKeepsGuarded` | extensions/dag-workflow/dag-runtime/store.ts:646-697 | every step that is no theft keeps visible the lock of every live process that will not look at it again; a theft renames away the lock of such a process |
| `StoreLock.TheftBreaksGuarded` | extensions/dag-workflow/dag-runtime/store.ts:398-411 | a theft always breaks that |
| `StoreLock.ExclusionExactly` | extensions/dag-workflow/dag-runtime/store.ts:291-431 | on any run of mutators, initializers, recoverers and crashes, those locks stay visible throughout exactly when no retirement is a theft, and then at most one live process is inside |
| `StoreLockHarm.TheftIsHarmful` | extensions/dag-workflow/dag-runtime/store.ts:291-431 | any reachable theft from a published, entering, inside or retiring mutator or initializer, or from a recoverer without its recovery lock, has a continuation without further theft that puts two live processes inside |
| `StoreLockHarm.SafeExactly` | extensions/dag-workflow/dag-runtime/store.ts:291-431 | after a run without theft, a step leaves at most one live process inside in every continuation without theft exactly when it is no theft, thefts from a recoverer under its own recovery lock apart |
| `StoreLock.GuardedIsExclusive` | extensions/dag-workflow/dag-runtime/store.ts:687-702 | two live processes cannot both be inside while each one's lock is the visible one |
| `StoreLock.WritersAreEntitled` | extensions/dag-workflow/dag-runtime/store.ts:174-222 | a step changes the snapshot only as the commit of a live process inside that is entitled: an initializer writes the first one, the current owner or a mutator attaching itself to an unowned run the next revision, a recoverer the next revision in its own name |
| `StoreLock.EntitledWrites` | extensions/dag-workflow/dag-runtime/store.ts:174-222 | whoever is entitled to a successor gets it written by its commit |
| `StoreLockProgress.MutatorCompletes` | extensions/dag-workflow/dag-runtime/store.ts:687-697 | left alone, a mutator that is the owner, or attaches itself to an unowned run, gets inside, writes the next revision and leaves no lock |
| `StoreLockProgress.InitializerCompletes` | extensions/dag-workflow/dag-runtime/store.ts:97-129 | left alone, an initializer of a run without a snapshot writes the first one, unowned, and leaves no lock |
| `StoreLockProgress.InitializerTakesOver` | extensions/dag-workflow/dag-runtime/store.ts:398-411 | a dead process's lock on a run without a snapshot is set aside, and the initializer writes the first snapshot and leaves no lock |
| `StoreLockProgress.RecoveryCompletes` | extensions/dag-workflow/dag-runtime/store.ts:291-396 | the recovery of a dead owner, its lock still visible or gone, makes the recoverer the owner at the next revision and leaves no lock, no intent and no recovery lock |
| `StoreLockProgress.LooksOnlyForDeadOwners` | extensions/dag-workflow/dag-runtime/store.ts:291-396 | a recoverer goes on to the conductor lock exactly when its target is dead and is the owner, read under the recovery lock |
| `StoreLockProgress.MistakenRecoveryEnds` | extensions/dag-workflow/dag-runtime/store.ts:291-396 | a recovery bound to a process that is alive or no longer the owner releases the recovery lock and changes nothing else |
| `StoreLockProgress.AbortedReplacementReleases` | extensions/dag-workflow/dag-runtime/store.ts:291-396 | a recovery that throws inside releases its lock and the recovery lock and keeps the intent for the next one |
| `StoreLockProgress.AbortReleases` | extensions/dag-workflow/dag-runtime/store.ts:687-697 | an operation that throws inside writes nothing and leaves no lock |
| `StoreLockProgress.AbortedRecoveryUnlocks` | extensions/dag-workflow/dag-runtime/store.ts:291-396 | a recovery that throws before it holds the conductor lock releases the recovery lock and keeps any intent |
| `StoreLockSafety.UndisturbedRunsExclude` | extensions/dag-workflow/dag-runtime/store.ts:291-431 | at most one live process is inside on every run in which no process dies between the inspection of its lock and the verdict on it and no initializer and recoverer examine one dead lock at the same time |
| `StoreLockRaces.LateVerdictBreaksExclusion` | extensions/dag-workflow/dag-runtime/store.ts:398-411 | a concrete run without any recoverer that puts two live processes inside, because the initializer's death check comes after the lock it read was released |
| `StoreLockRaces.RecoveryVerdictBreaksExclusion` | extensions/dag-workflow/dag-runtime/store.ts:347-363 | a concrete run in which no initializer ever examines a lock that puts two live processes inside, because the recoverer's own death check comes after the lock it read was released |
| `StoreLockRaces.TwoNamesBreakExclusion` | extensions/dag-workflow/dag-runtime/store.ts:398-411 | a concrete run with prompt verdicts that puts two live processes inside, because the initializer and the recoverer quarantine one lock under different names |
| `SnapshotStore.ReadsArePublished` | extensions/dag-workflow/dag-runtime/store.ts:131-172 | a read overlapping any commits and crashes returns the last snapshot it read, published during the read; or a lock error, after four attempts that each read a newer snapshot and a fifth newer still; or the corruption error, having found no state file |
| `SnapshotStore.CorruptExactly` | extensions/dag-workflow/dag-runtime/store.ts:134-135 | a read ends in the corruption error exactly when no state file exists at its first step |
| `SnapshotStore.NeverCorruptOncePublished` | extensions/dag-workflow/dag-runtime/store.ts:131-172 | a read begun once a run is published never ends in the corruption error |
| `SnapshotStore.EarlyReadIsCorrupt` | extensions/dag-workflow/dag-runtime/store.ts:134-135 | a concrete run in which a read begun during the initialization reports corruption of a run that is published and sound |
| `SnapshotStore.CrashLeavesOldOrNew` | extensions/dag-workflow/dag-runtime/store.ts:614-644 | wherever a write stops, the state file is the old or the new snapshot and an undisturbed read returns exactly it, or the corruption error when an initialization has not published |
| `SnapshotStore.CompletedMutationRetainsTwo` | extensions/dag-workflow/dag-runtime/store.ts:624-629 | a completed mutation leaves exactly the current and the previous archives |
| `SnapshotStore.MutationCompletes` | extensions/dag-workflow/dag-runtime/store.ts:174-231 | left alone, a mutation publishes its successor and ends with exactly the current and the previous archive |
| `SnapshotStore.WritePublishes` | extensions/dag-workflow/dag-runtime/store.ts:614-644 | archiving and publishing take three steps, two for the first snapshot, after which readers see the successor |
| `SnapshotStore.RunKeepsInv` | extensions/dag-workflow/dag-runtime/store.ts:174-231 | at every step the published snapshot and its predecessor are archived and everything the reader's attempts read was published during its read, each newer than the one before |
| `SnapshotStore.RunDirectory.Mutate` | extensions/dag-workflow/dag-runtime/store.ts:174-231 | wherever a mutation dies the files are consistent and hold the old or the new snapshot; it completes exactly when the budget covers its steps, and then holds the new one and two archives |
| `SnapshotStore.RunDirectory.Initialize` | extensions/dag-workflow/dag-runtime/store.ts:97-129 | an initialization leaves no state file or the first snapshot |
| `SnapshotStore.RunDirectory.PruneSnapshotArchives` | extensions/dag-workflow/dag-runtime/store.ts:624-629 | pruning never removes a retained archive, and when it completes only retained ones are left |
| `SnapshotStore.RunDirectory.Read` | extensions/dag-workflow/dag-runtime/store.ts:131-172 | on consistent files a read returns the published snapshot, or the corruption error when there is none |
| `EvaluationIndex.OlderTotal` | extensions/dag-workflow/dag-runtime/evaluation-store.ts:1033-1036 | two entries of different envelopes are ranked one way and only one |
| `EvaluationIndex.RetainedAbsorbs` | extensions/dag-workflow/dag-runtime/evaluation-store.ts:367-376 | dropping what is not among a project's newest fifty before publishing one more loses nothing |
| `EvaluationIndex.LaterIsKept` | extensions/dag-workflow/dag-runtime/evaluation-store.ts:1033-1036 | of two entries of one project the one with the earlier cutoff time is never kept in place of the later one |
| `EvaluationIndex.FiftyAreKept` | extensions/dag-workflow/dag-runtime/evaluation-store.ts:367-376 | a project keeps all its entries up to fifty, and fifty of them beyond that |
| `EvaluationIndex.PublishAllRetains` | extensions/dag-workflow/dag-runtime/evaluation-store.ts:354-403 | after first-time publications in any order the index holds, for each project, exactly the fifty greatest of everything published |
| `EvaluationStore.RemovedHashes` | extensions/dag-workflow/dag-runtime/evaluation-store.ts:370-374 | the hashes cut from the sorted project lists are exactly those of entries outside their project's newest fifty |
| `EvaluationStore.Store.PublishEnvelope` | extensions/dag-workflow/dag-runtime/evaluation-store.ts:354-403 | conflicts are refused exactly as written, without change; otherwise the new index is the retained one, the prior head of a correction is replaced, and at every durable write in between each indexed envelope is on disk |
| `EvaluationStore.Store.Maintain` | extensions/dag-workflow/dag-runtime/evaluation-store.ts:443-457 | removes exactly the envelope files that no entry names, except those that cannot be removed, with every indexed one on disk at each write |
| `EvaluationStore.Store.Next` | extensions/dag-workflow/dag-runtime/evaluation-store.ts:367-378 | the next index is sorted, unique by cutoff and retained |
| `Observer.RunEvaluationObserver.OfferCommittedSnapshot` | extensions/dag-workflow/dag-runtime/evaluation-store.ts:823-832 | an offer starts, or waits and adds one drop to the account of the offer that waited before; it is refused exactly when a new run's account does not fit; every other account is untouched, and nothing is lost or counted twice |
| `Observer.RunEvaluationObserver.BeginFold` | extensions/dag-workflow/dag-runtime/evaluation-store.ts:905-915 | a fold is given exactly the drops and failures held for its run, which stay in the account until it has folded |
| `Observer.RunEvaluationObserver.EndFold` | extensions/dag-workflow/dag-runtime/evaluation-store.ts:915-923 | a fold that folded takes out of the account exactly what it was given, leaving drops counted meanwhile; one that did not takes nothing |
| `Observer.RunEvaluationObserver.Fail` | extensions/dag-workflow/dag-runtime/evaluation-store.ts:885-887 | anything thrown adds one failure to the run's account, no drop, and nothing to any other account |
| `Observer.RunEvaluationObserver.Finish` | extensions/dag-workflow/dag-runtime/evaluation-store.ts:887-894 | the waiting offer starts, and the finished run's account goes only when empty and unused |
| `Observer.FoldBalances` | extensions/dag-workflow/dag-runtime/evaluation-store.ts:915-923 | conservation survives a fold under drops counted while it ran |
| `Observer.RunEvaluationObserver.Quiescent` | extensions/dag-workflow/dag-runtime/evaluation-store.ts:834 | when nothing runs, accepted offers of every run are those folded, completed without folding, delivered as drops or failures, or still held, and the latest offer was started |
| `DurableEffects.FindDurableObservation` | extensions/dag-workflow/dag-runtime/lifecycle-runtime.ts:866-876 | the one matching fact, none, or a conflict exactly when two distinct facts match |
| `DurableEffects.EffectDriver.Dispatch` | extensions/dag-workflow/dag-runtime/lifecycle-runtime.ts:778-804 | a durable observation is reused without running the command; the command runs only without one; a crash after the run leaves no observation, one after publication leaves exactly it |
| `DurableEffects.EffectDriver.ReconcileEffect` | extensions/dag-workflow/dag-runtime/lifecycle-runtime.ts:757-816 | one call takes an effect from absent to intended, from intended to dispatching, from an observation to reconciled, and from dispatching by taking up the durable observation or running the command; a reconciled one is complete; a changed request is refused without change; in every crash and replay an effect runs no more once its observation is durable |
| `DurableEffects.EffectDriver.FiveCalls` | extensions/dag-workflow/dag-runtime/lifecycle-runtime.ts:757-816 | with the same request, an output and no crash, five calls complete an effect not seen before, with the fact of that output and one run |
| `DurableEffects.EffectDriver.CallsAfterCrash` | extensions/dag-workflow/dag-runtime/lifecycle-runtime.ts:778-816 | wherever a dispatch crashes, calling again completes the effect; the command runs a second time exactly when the crash came before its observation was stored |
| `DurableEffects.EffectDriver.ValidationPhase` | extensions/dag-workflow/dag-runtime/integration-driver.ts:271-327 | a validation phase succeeds as done exactly when its effect was already reconciled with this request and a passing execution, and fails as not passed exactly when that execution did not pass; otherwise it makes the one step of ReconcileEffect |
| `DurableEffects.EffectDriver.Verify` | extensions/dag-workflow/dag-runtime/integration-driver.ts:239-246 | the final validation exists only after the prefix validation passed, and both passed when verification goes on |
| `DurableEffects.EffectDriver.LaterPhasesUseTheOne` | extensions/dag-workflow/dag-runtime/lifecycle-runtime.ts:805-819 | every phase after dispatch holds the one durable observation there is of its effect and request |
| `DurableEffects.SettledOnceExtends` | extensions/dag-workflow/dag-runtime/lifecycle-runtime.ts:778-801 | an event about an effect without a durable observation keeps the history settled at most once per effect and request |
| `Landing.LandingDriver.Land` | extensions/dag-workflow/dag-runtime/integration-driver.ts:362-391 | under any interference and crash the whole new state is the stated one: the target is moved only from the exact expected to the exact intended tree, the stored verdict agrees with the target observed for it, and with the intended tree already there nothing is moved and the verdict is applied |
| `Landing.LandingDriver.LandOrReconcile` | extensions/dag-workflow/dag-runtime/git-integration.ts:215-225 | moves only when exactly as expected, and reports applied or absent by what it sees afterwards |
| `Landing.VerdictsMean` | extensions/dag-workflow/dag-runtime/git-integration.ts:215-225 | from the expected tree, applied means the intended tree seen last with an exact worktree, a mismatch the same with an inexact one, absent the expected tree, ambiguous neither; undisturbed, the attempt makes exactly one move |
| `Landing.LandingDriver.ReconcileExact` | extensions/dag-workflow/dag-runtime/integration-driver.ts:114-128 | a prepared or proven-absent landing becomes dispatched, a dispatched one is attempted with everything Land promises, a final one is left alone |
| `Landing.LandingDriver.TwoCallsLand` | extensions/dag-workflow/dag-runtime/integration-driver.ts:114-128 | with nobody interfering, two calls take a prepared landing on the expected tree to applied, with the target at the intended tree and exactly one move |
| `Landing.LandingDriver.RetryAfterCrash` | extensions/dag-workflow/dag-runtime/integration-driver.ts:362-391 | wherever a quiet attempt crashes, the next one applies the landing, and there is one move in all |
| `Landing.LandingDriver.NoSecondMoveAlone` | extensions/dag-workflow/dag-runtime/integration-driver.ts:362-391 | in any run with crashes and replays, between two moves by the driver somebody else moved the target |
| `Landing.Reobserved` | extensions/dag-workflow/dag-runtime/integration-driver.ts:378-379 | a verdict is kept exactly when the later observation bears it out |
| `Conductor.ConductorService.Activate` | extensions/dag-workflow/dag-runtime/conductor.ts:181-189 | a wake is refused exactly when detaching, faulted, or marked without a running pass; otherwise it counts, and a pass runs |
| `Conductor.ConductorService.PassEnds` | extensions/dag-workflow/dag-runtime/conductor.ts:209-215 | a run woken during its pass gets a successor pass at the latest generation unless terminal or detaching |
| `Conductor.ConductorService.PassFails` | extensions/dag-workflow/dag-runtime/conductor.ts:216-224 | a failed pass faults the run and ends its activity |
| `Conductor.ConductorService.RetryActivation` | extensions/dag-workflow/dag-runtime/conductor.ts:246-254 | a retry clears the fault in memory, keeps the marker and wakes the run |
| `Conductor.ConductorService.WakeActive` | extensions/dag-workflow/dag-runtime/conductor.ts:263-265 | every active run is woken exactly once, except those whose marker stands without a running pass |
| `Conductor.ConductorService.NoWakeLost` | extensions/dag-workflow/dag-runtime/conductor.ts:191-227 | at most one pass of a run is live, and without one the last pass began at the latest wake unless the run faulted, is terminal, or the service detaches |
| `Widget.WidgetController.Refresh` | extensions/dag-workflow/dag-runtime/widget-controller.ts:71-81 | a refresh begins a read, joins the one refresh queued behind the read in flight, or is settled at once after disposal |
| `Widget.WidgetController.ReadEnds` | extensions/dag-workflow/dag-runtime/widget-controller.ts:83-96 | the read's own promise settles and the queued refresh gets a read begun after it |
| `Widget.WidgetController.SettleQueuedRefresh` | extensions/dag-workflow/dag-runtime/widget-controller.ts:160-163 | a queued refresh settles with its read unless disposal settled it first |
| `Widget.WidgetController.Dispose` | extensions/dag-workflow/dag-runtime/widget-controller.ts:119-132 | disposal settles every outstanding queued refresh |
| `Widget.WidgetController.RefreshesAreFresh` | extensions/dag-workflow/dag-runtime/widget-controller.ts:71-97 | a settled refresh saw a read begun at or after its last call, or disposal; an unsettled one has something that will settle it |

## Left out

- Type and schema checks, timestamps kept only as labels, identity and content hashes of accumulators, envelopes, decisions and receipts.
- The reducer: which transitions a run accepts, bypass-counter updates, gate release and the retry ledger are not part of this model.
- `deriveSlot` blockers, the notice, glyphs and projections of the scheduler; the ready slots are its input, one per work item.
- The order of `bypassIncrements` in the scheduler decision, which is a sorted list of the modelled set.
- SnapshotStore: errors of the filesystem other than a crash, and validation of the snapshot body.
- StoreLock: operations of one process that share a lock identity at the same time, and observation times in a repeated recovery of the same owner.
- StoreLockHarm.SafeExactly: says nothing about a theft from a recoverer under its own recovery lock; such a theft can be harmless, and whether it is depends on what every other process last read of the recovery markers.
- The evaluation store's own lock and the legacy Git directory lock make no mutual-exclusion claim; store operations are taken one at a time.
- EvaluationStore: accumulator files and pending cleanup receipts, including the limit on pending receipts, and the match between an envelope and its accumulator.
- EvaluationStore.Store.PublishEnvelope: that the index holds the fifty greatest is stated for first-time publications, because a correction replaces an entry that retention may have kept instead of another.
- The observer's check of the loaded observation against its bound identity; any failure there is one failure.
- Stale-snapshot rejections and re-reads in the drivers' reducer mutations; composition, private refs and receipts of an integration.
- Landing: the state of the bound worktree beyond one flag, and fast-forward failures other than a moved target.
- The widget's timer, rendering and view state; the conductor's prepared start, dispatch and durable marker files beyond their presence.
- StrictJsonParser: the text of error messages and paths; any refusal is one result. Sparse arrays, symbol keys and accessors of the printer's input cannot be written as values.
- CanonicalJson.SortKeys: the engine's sorting is not modelled step by step, only the order it must produce.
- Portfolio and paired reports, metric derivation and envelope validation; in particular nothing is claimed about ratios under partial coverage.
- Shared-semantic-write checks, the packet bound check, config merging, command timeouts and session handling, which would add only easy members.
