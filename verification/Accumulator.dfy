/**
 * The run observation accumulator: its records, the validator's clauses, the fold as a function
 * of accumulator and observation, and the fold as the in-place update of a cloned draft.
 *
 * Clock readings are whole ticks of one millisecond.
 */
module Accumulator {
  import opened Wrappers
  import opened CreditModel
  import opened TickArea

  // ---------- records ----------

  datatype IntervalClass = ReadinessLaneAdmit | ReservedDispatch | Operation | HumanActive | AuthorityWait | Recovery

  datatype OpenInterval = OpenInterval(
    hash: Hash,
    kind: IntervalClass,
    sourceRevision: nat,
    sourceSnapshot: Hash,
    epoch: Hash,
    openedAt: nat,
    credit: Option<CreditBasis>)

  datatype Source = Source(revision: nat, snapshot: Hash, epoch: Hash, tick: nat)
  datatype ClockHistory = ClockHistory(initialEpoch: Hash, currentEpoch: Hash, epochChanges: nat, monotonicResets: nat, unsupported: nat)
  datatype Open = Open(readiness: seq<OpenInterval>, active: seq<OpenInterval>, human: seq<OpenInterval>, recovery: seq<OpenInterval>)

  type Histogram = h: seq<nat> | |h| == 6 witness [0, 0, 0, 0, 0, 0]

  datatype Counters = Counters(
    readiness: nat, dispatch: nat, active: nat, human: nat, authority: nat, recovery: nat, falseIndependence: nat)
  datatype Sums = Sums(
    readinessWait: int, dispatchWait: int, humanActive: int, authorityWait: int, recovery: int, falseIndependenceWaste: int)
  datatype Histograms = Histograms(readinessWait: Histogram, dispatchWait: Histogram, recovery: Histogram)
  datatype Books = Books(counters: Counters, sums: Sums, histograms: Histograms)

  datatype Integrals = Integrals(
    autonomousElapsed: int, allOperationWork: int, creditableWork: int, usefulOverlap: int, parallelOpportunity: int)

  datatype Gap = Gap(first: nat, last: nat)
  datatype Coverage = Coverage(
    observed: nat, dropped: nat, missing: nat, censored: nat, observerFailures: nat, gaps: seq<Gap>, gapOverflow: nat)

  datatype Accumulator = Accumulator(
    context: CreditContext,
    source: Source,
    clock: ClockHistory,
    open: Open,
    books: Books,
    integrals: Integrals,
    coverage: Coverage)

  datatype ActiveOperation = ActiveOperation(hash: Hash, credit: Option<CreditBasis>)
  datatype Incident = Incident(finding: Hash, disposition: Hash, operations: seq<Hash>, wasteStart: nat)

  datatype Observation = Observation(
    revision: nat,
    snapshot: Hash,
    epoch: Hash,
    tick: nat,
    ready: seq<Hash>,
    reserved: seq<Hash>,
    active: seq<ActiveOperation>,
    human: seq<Hash>,
    authority: seq<Hash>,
    recovery: seq<Hash>,
    incidents: seq<Incident>,
    context: CreditContext,
    droppedBefore: nat,
    failuresBefore: nat,
    clockSupported: bool)

  datatype FoldError =
    | InvalidAccumulator
    | InvalidObservation
    | CreditContextMismatch
    | IncidentOutsideWindow(index: nat)
    | IncidentNotOpen(index: nat)
    | IncidentWithoutInterval
    | Overflow

  const MAX_SAFE_INTEGER: nat := 9007199254740991
  const MAX_GAPS: nat := 64

  // ---------- sequences of intervals ----------

  function Total(s: seq<OpenInterval>, f: OpenInterval -> int): int {
    if s == [] then 0 else f(s[0]) + Total(s[1..], f)
  }

  function Filter(s: seq<OpenInterval>, keep: OpenInterval -> bool): (r: seq<OpenInterval>)
    ensures |r| <= |s|
    ensures forall x :: x in r <==> x in s && keep(x)
  {
    if s == [] then []
    else
      assert s == [s[0]] + s[1..];
      (if keep(s[0]) then [s[0]] else []) + Filter(s[1..], keep)
  }

  predicate SortedByHash(s: seq<OpenInterval>) {
    forall i, j :: 0 <= i < j < |s| ==> s[i].hash < s[j].hash
  }

  function InsertByHash(x: OpenInterval, s: seq<OpenInterval>): (r: seq<OpenInterval>)
    ensures |r| == |s| + 1
    ensures forall y :: y in r <==> y == x || y in s
  {
    if s == [] || x.hash <= s[0].hash then [x] + s
    else
      assert s == [s[0]] + s[1..];
      [s[0]] + InsertByHash(x, s[1..])
  }

  function SortByHash(s: seq<OpenInterval>): (r: seq<OpenInterval>)
    ensures |r| == |s|
    ensures forall y :: y in r <==> y in s
  {
    if s == [] then []
    else
      assert s == [s[0]] + s[1..];
      InsertByHash(s[0], SortByHash(s[1..]))
  }

  predicate HasHash(s: seq<OpenInterval>, hash: Hash) {
    exists i :: 0 <= i < |s| && s[i].hash == hash
  }

  function OperationHashes(active: seq<ActiveOperation>): (r: seq<Hash>)
    ensures |r| == |active|
    ensures forall i :: 0 <= i < |r| ==> r[i] == active[i].hash
  {
    if active == [] then [] else [active[0].hash] + OperationHashes(active[1..])
  }

  function CreditFor(active: seq<ActiveOperation>, hash: Hash): Option<CreditBasis> {
    if active == [] then None
    else if active[0].hash == hash then active[0].credit
    else CreditFor(active[1..], hash)
  }

  // ---------- validation ----------

  predicate Disjoint(a: seq<Hash>, b: seq<Hash>) {
    forall i, j :: 0 <= i < |a| && 0 <= j < |b| ==> a[i] != b[j]
  }

  predicate ValidIncidents(incidents: seq<Incident>, context: CreditContext) {
    && |incidents| <= 512
    && (forall i, j :: 0 <= i < j < |incidents| ==>
          incidents[i].finding < incidents[j].finding
          || (incidents[i].finding == incidents[j].finding && incidents[i].disposition < incidents[j].disposition))
    && (forall i :: 0 <= i < |incidents| ==> 1 <= |incidents[i].operations| <= 512 && SortedUnique(incidents[i].operations))
    && (forall i, j :: 0 <= i < j < |incidents| ==> Disjoint(incidents[i].operations, incidents[j].operations))
    && (forall i :: 0 <= i < |incidents| ==> (incidents[i].finding, incidents[i].disposition) in context.dispositions)
  }

  predicate ObservationInRange(o: Observation) {
    && o.revision <= MAX_SAFE_INTEGER && o.tick <= MAX_SAFE_INTEGER
    && o.droppedBefore <= MAX_SAFE_INTEGER && o.failuresBefore <= MAX_SAFE_INTEGER
    && forall i :: 0 <= i < |o.incidents| ==> o.incidents[i].wasteStart <= MAX_SAFE_INTEGER
  }

  predicate ValidObservation(o: Observation) {
    && ObservationInRange(o)
    && |o.ready| <= 512 && |o.reserved| <= 512 && |o.active| <= 512
    && |o.human| <= 64 && |o.authority| <= 64 && |o.recovery| <= 64
    && SortedUnique(o.ready) && SortedUnique(o.reserved) && SortedUnique(OperationHashes(o.active))
    && Disjoint(o.ready, o.reserved) && Disjoint(o.ready, OperationHashes(o.active)) && Disjoint(o.reserved, OperationHashes(o.active))
    && SortedUnique(o.human) && SortedUnique(o.authority) && Disjoint(o.human, o.authority)
    && SortedUnique(o.recovery)
    && ValidContext(o.context)
    && (forall i :: 0 <= i < |o.active| ==> Creditable(o.active[i].credit, o.context))
    && ValidIncidents(o.incidents, o.context)
  }

  predicate ValidOpen(intervals: seq<OpenInterval>, source: Source, context: CreditContext) {
    && SortedByHash(intervals)
    && forall x :: x in intervals ==> x.epoch == source.epoch && x.openedAt <= source.tick && Creditable(x.credit, context)
  }

  /** Sorted, non-overlapping, merged, starting after revision zero and closed by the current one. */
  predicate ValidGaps(gaps: seq<Gap>, revision: nat) {
    && (forall i :: 0 <= i < |gaps| ==> 0 < gaps[i].first <= gaps[i].last <= revision)
    && (forall i, j :: 0 <= i < j < |gaps| ==> gaps[i].last + 1 < gaps[j].first)
  }

  function Represented(gaps: seq<Gap>): int {
    if gaps == [] then 0 else Represented(gaps[..|gaps| - 1]) + gaps[|gaps| - 1].last - gaps[|gaps| - 1].first + 1
  }

  predicate ValidClock(c: ClockHistory, source: Source, observed: nat) {
    && c.currentEpoch == source.epoch
    && c.epochChanges <= observed && c.monotonicResets <= observed && c.unsupported <= observed
    && (c.epochChanges == 0 ==> c.initialEpoch == c.currentEpoch)
  }

  predicate ValidCoverage(c: Coverage, revision: nat) {
    && |c.gaps| <= MAX_GAPS
    && ValidGaps(c.gaps, revision)
    && c.observed + c.missing <= revision
    && Represented(c.gaps) <= c.missing
    && c.gapOverflow <= c.missing - Represented(c.gaps)
  }

  predicate ValidIntegrals(i: Integrals) {
    && 0 <= i.creditableWork <= i.allOperationWork
    && 0 <= i.usefulOverlap <= i.creditableWork
    && i.usefulOverlap <= i.parallelOpportunity
    && i.creditableWork - i.usefulOverlap <= i.autonomousElapsed
    && (i.autonomousElapsed == 0 ==> i == Integrals(0, 0, 0, 0, 0))
  }

  predicate NonNegativeSums(s: Sums) {
    && 0 <= s.readinessWait && 0 <= s.dispatchWait && 0 <= s.humanActive
    && 0 <= s.authorityWait && 0 <= s.recovery && 0 <= s.falseIndependenceWaste
  }

  /** Every clause of the validator except the numeric range of its schema. */
  predicate Consistent(a: Accumulator) {
    && ValidContext(a.context)
    && ValidClock(a.clock, a.source, a.coverage.observed)
    && |a.open.readiness| <= 512 && |a.open.active| <= 1024 && |a.open.human| <= 128 && |a.open.recovery| <= 64
    && ValidOpen(a.open.readiness, a.source, a.context)
    && ValidOpen(a.open.active, a.source, a.context)
    && ValidOpen(a.open.human, a.source, a.context)
    && ValidOpen(a.open.recovery, a.source, a.context)
    && NonNegativeSums(a.books.sums)
    && ValidCoverage(a.coverage, a.source.revision)
    && ValidIntegrals(a.integrals)
  }

  predicate CountersInRange(c: Counters) {
    && c.readiness <= MAX_SAFE_INTEGER && c.dispatch <= MAX_SAFE_INTEGER && c.active <= MAX_SAFE_INTEGER && c.human <= MAX_SAFE_INTEGER
    && c.authority <= MAX_SAFE_INTEGER && c.recovery <= MAX_SAFE_INTEGER && c.falseIndependence <= MAX_SAFE_INTEGER
  }

  predicate SumsInRange(s: Sums) {
    && s.readinessWait <= MAX_SAFE_INTEGER && s.dispatchWait <= MAX_SAFE_INTEGER && s.humanActive <= MAX_SAFE_INTEGER
    && s.authorityWait <= MAX_SAFE_INTEGER && s.recovery <= MAX_SAFE_INTEGER && s.falseIndependenceWaste <= MAX_SAFE_INTEGER
  }

  predicate HistogramInRange(h: Histogram) {
    forall i :: 0 <= i < 6 ==> h[i] <= MAX_SAFE_INTEGER
  }

  predicate IntegralsInRange(i: Integrals) {
    && i.autonomousElapsed <= MAX_SAFE_INTEGER && i.allOperationWork <= MAX_SAFE_INTEGER && i.creditableWork <= MAX_SAFE_INTEGER
    && i.usefulOverlap <= MAX_SAFE_INTEGER && i.parallelOpportunity <= MAX_SAFE_INTEGER
  }

  predicate CoverageInRange(c: Coverage) {
    && c.observed <= MAX_SAFE_INTEGER && c.dropped <= MAX_SAFE_INTEGER && c.missing <= MAX_SAFE_INTEGER
    && c.censored <= MAX_SAFE_INTEGER && c.observerFailures <= MAX_SAFE_INTEGER && c.gapOverflow <= MAX_SAFE_INTEGER
  }

  /** The numeric range of the schema: nothing may pass the largest safe integer. */
  predicate InRange(a: Accumulator) {
    && a.source.revision <= MAX_SAFE_INTEGER && a.source.tick <= MAX_SAFE_INTEGER
    && CountersInRange(a.books.counters) && SumsInRange(a.books.sums)
    && HistogramInRange(a.books.histograms.readinessWait) && HistogramInRange(a.books.histograms.dispatchWait)
    && HistogramInRange(a.books.histograms.recovery)
    && IntegralsInRange(a.integrals) && CoverageInRange(a.coverage)
  }

  predicate ValidAccumulator(a: Accumulator) {
    Consistent(a) && InRange(a)
  }

  // ---------- closing intervals ----------

  /** The (sum, histogram, counter) triples that the call sites of the close step pass. */
  datatype Ledger = ReadinessLedger | DispatchLedger | RecoveryLedger | ActivityLedger | NoLedger

  const THRESHOLDS: seq<int> := [1000, 10000, 60000, 300000, 1800000]

  /** The bucket's number says how many thresholds the duration has reached. */
  function BucketFor(duration: int): (b: nat)
    ensures b <= |THRESHOLDS| == 5
    ensures forall i :: 0 <= i < |THRESHOLDS| ==> (THRESHOLDS[i] <= duration <==> i < b)
  {
    if duration < 1000 then 0
    else if duration < 10000 then 1
    else if duration < 60000 then 2
    else if duration < 300000 then 3
    else if duration < 1800000 then 4
    else 5
  }

  /** The buckets end at one second, ten seconds, one minute, five minutes and half an hour. */
  lemma BucketsAreTimes(duration: int)
    ensures BucketFor(duration) >= 1 <==> duration >= 1000
    ensures BucketFor(duration) >= 2 <==> duration >= 10 * 1000
    ensures BucketFor(duration) >= 3 <==> duration >= 60 * 1000
    ensures BucketFor(duration) >= 4 <==> duration >= 5 * 60 * 1000
    ensures BucketFor(duration) == 5 <==> duration >= 30 * 60 * 1000
  {
  }

  function Bump(h: Histogram, duration: int): Histogram {
    h[BucketFor(duration) := h[BucketFor(duration)] + 1]
  }

  function CloseInLedger(books: Books, duration: int, ledger: Ledger): Books {
    var c, s, h := books.counters, books.sums, books.histograms;
    match ledger
    case ReadinessLedger =>
      Books(c.(readiness := c.readiness + 1), s.(readinessWait := s.readinessWait + duration), h.(readinessWait := Bump(h.readinessWait, duration)))
    case DispatchLedger =>
      Books(c.(dispatch := c.dispatch + 1), s.(dispatchWait := s.dispatchWait + duration), h.(dispatchWait := Bump(h.dispatchWait, duration)))
    case RecoveryLedger =>
      Books(c.(recovery := c.recovery + 1), s.(recovery := s.recovery + duration), h.(recovery := Bump(h.recovery, duration)))
    case ActivityLedger =>
      books.(counters := c.(active := c.active + 1))
    case NoLedger =>
      books
  }

  function Close(books: Books, interval: OpenInterval, now: nat, ledger: Ledger): Books {
    var duration := now - interval.openedAt;
    var b := CloseInLedger(books, duration, ledger);
    match interval.kind
    case HumanActive =>
      b.(counters := b.counters.(human := b.counters.human + 1), sums := b.sums.(humanActive := b.sums.humanActive + duration))
    case AuthorityWait =>
      b.(counters := b.counters.(authority := b.counters.authority + 1), sums := b.sums.(authorityWait := b.sums.authorityWait + duration))
    case _ => b
  }

  function ActiveLedger(x: OpenInterval): Ledger {
    if x.kind == ReservedDispatch then DispatchLedger else ActivityLedger
  }

  function CloseAll(books: Books, intervals: seq<OpenInterval>, now: nat, ledger: Ledger): Books
    decreases |intervals|
  {
    if intervals == [] then books
    else CloseAll(Close(books, intervals[0], now, ledger), intervals[1..], now, ledger)
  }

  function CloseActive(books: Books, intervals: seq<OpenInterval>, now: nat): Books
    decreases |intervals|
  {
    if intervals == [] then books
    else CloseActive(Close(books, intervals[0], now, ActiveLedger(intervals[0])), intervals[1..], now)
  }

  // ---------- reconciling open intervals with an observation ----------

  function OpenAt(hash: Hash, kind: IntervalClass, o: Observation, credit: Option<CreditBasis>): OpenInterval {
    OpenInterval(hash, kind, o.revision, o.snapshot, o.epoch, o.tick, credit)
  }

  /** An interval stays open when its hash is still wanted under the class it already has. */
  function Stays(hashes: seq<Hash>, kindOf: Hash -> IntervalClass): OpenInterval -> bool {
    (x: OpenInterval) => x.hash in hashes && x.kind == kindOf(x.hash)
  }

  function Ends(hashes: seq<Hash>, kindOf: Hash -> IntervalClass): OpenInterval -> bool {
    (x: OpenInterval) => !(x.hash in hashes && x.kind == kindOf(x.hash))
  }

  function Fresh(hashes: seq<Hash>, kept: seq<OpenInterval>, kindOf: Hash -> IntervalClass, o: Observation): seq<OpenInterval> {
    if hashes == [] then []
    else (if HasHash(kept, hashes[0]) then [] else [OpenAt(hashes[0], kindOf(hashes[0]), o, None)]) + Fresh(hashes[1..], kept, kindOf, o)
  }

  function Reconciled(prior: seq<OpenInterval>, hashes: seq<Hash>, kindOf: Hash -> IntervalClass, o: Observation): seq<OpenInterval> {
    var kept := Filter(prior, Stays(hashes, kindOf));
    SortByHash(kept + Fresh(hashes, kept, kindOf, o))
  }

  function StaysActive(o: Observation): OpenInterval -> bool {
    (x: OpenInterval) => if x.kind == ReservedDispatch then x.hash in o.reserved else x.kind == Operation && x.hash in OperationHashes(o.active)
  }

  function EndsActive(o: Observation): OpenInterval -> bool {
    (x: OpenInterval) => if x.kind == ReservedDispatch then x.hash !in o.reserved else x.hash !in OperationHashes(o.active)
  }

  /** A surviving operation takes the credit basis of the observation and keeps its opening tick. */
  function Recredit(kept: seq<OpenInterval>, o: Observation): (r: seq<OpenInterval>)
    ensures |r| == |kept|
    ensures forall i :: 0 <= i < |r| ==> r[i] == if kept[i].kind == Operation then kept[i].(credit := CreditFor(o.active, kept[i].hash)) else kept[i]
  {
    if kept == [] then []
    else [if kept[0].kind == Operation then kept[0].(credit := CreditFor(o.active, kept[0].hash)) else kept[0]] + Recredit(kept[1..], o)
  }

  function FreshOperations(active: seq<ActiveOperation>, kept: seq<OpenInterval>, o: Observation): seq<OpenInterval> {
    if active == [] then []
    else (if HasHash(kept, active[0].hash) then [] else [OpenAt(active[0].hash, Operation, o, active[0].credit)]) + FreshOperations(active[1..], kept, o)
  }

  function ReservedKind(): Hash -> IntervalClass { (h: Hash) => ReservedDispatch }
  function ReadyKind(): Hash -> IntervalClass { (h: Hash) => ReadinessLaneAdmit }
  function RecoveryKind(): Hash -> IntervalClass { (h: Hash) => Recovery }
  function HumanKind(authority: seq<Hash>): Hash -> IntervalClass { (h: Hash) => if h in authority then AuthorityWait else HumanActive }

  function ReconciledActive(prior: seq<OpenInterval>, o: Observation): seq<OpenInterval> {
    var kept := Recredit(Filter(prior, StaysActive(o)), o);
    SortByHash(kept + Fresh(o.reserved, kept, ReservedKind(), o) + FreshOperations(o.active, kept, o))
  }

  function ReconcileOpen(open: Open, o: Observation): Open {
    Open(
      Reconciled(open.readiness, o.ready, ReadyKind(), o),
      ReconciledActive(open.active, o),
      Reconciled(open.human, o.human + o.authority, HumanKind(o.authority), o),
      Reconciled(open.recovery, o.recovery, RecoveryKind(), o))
  }

  function ReconcileBooks(books: Books, open: Open, o: Observation): Books {
    var b1 := CloseAll(books, Filter(open.readiness, Ends(o.ready, ReadyKind())), o.tick, ReadinessLedger);
    var b2 := CloseActive(b1, Filter(open.active, EndsActive(o)), o.tick);
    var b3 := CloseAll(b2, Filter(open.human, Ends(o.human + o.authority, HumanKind(o.authority))), o.tick, NoLedger);
    CloseAll(b3, Filter(open.recovery, Ends(o.recovery, RecoveryKind())), o.tick, RecoveryLedger)
  }

  /** Censoring closes everything at the last observed boundary. */
  function CensorBooks(books: Books, open: Open, boundary: nat): Books {
    var b1 := CloseAll(books, open.readiness, boundary, ReadinessLedger);
    var b2 := CloseActive(b1, open.active, boundary);
    var b3 := CloseAll(b2, open.human, boundary, NoLedger);
    CloseAll(b3, open.recovery, boundary, RecoveryLedger)
  }

  // ---------- the fold as a function ----------

  predicate SameClock(a: Accumulator, o: Observation) {
    o.clockSupported && o.epoch == a.source.epoch && a.source.tick <= o.tick
  }

  predicate Contiguous(a: Accumulator, o: Observation) {
    SameClock(a, o) && o.revision == a.source.revision + 1
  }

  function IsOperation(): OpenInterval -> int { (x: OpenInterval) => if x.kind == Operation then 1 else 0 }
  function IsReserved(): OpenInterval -> int { (x: OpenInterval) => if x.kind == ReservedDispatch then 1 else 0 }
  function IsCreditable(context: CreditContext): OpenInterval -> int {
    (x: OpenInterval) => if x.kind == Operation && x.credit.Some? && Accepted(x.credit.value, context) then 1 else 0
  }

  function OperationCount(a: Accumulator): int { Total(a.open.active, IsOperation()) }
  function CreditableCount(a: Accumulator): int { Total(a.open.active, IsCreditable(a.context)) }
  function WaitingCount(a: Accumulator): int { |a.open.readiness| + Total(a.open.active, IsReserved()) }

  function Integrate(a: Accumulator, elapsed: int): Integrals {
    var i := a.integrals;
    Integrals(
      i.autonomousElapsed + elapsed,
      i.allOperationWork + elapsed * OperationCount(a),
      i.creditableWork + elapsed * CreditableCount(a),
      i.usefulOverlap + elapsed * Excess(CreditableCount(a)),
      i.parallelOpportunity + elapsed * Excess(OperationCount(a) + WaitingCount(a)))
  }

  predicate InWindow(a: Accumulator, o: Observation, incident: Incident) {
    a.source.tick <= incident.wasteStart <= o.tick
  }

  predicate OpenOperation(active: seq<OpenInterval>, hash: Hash) {
    exists i :: 0 <= i < |active| && active[i].kind == Operation && active[i].hash == hash
  }

  predicate OnOpenOperations(a: Accumulator, incident: Incident) {
    forall k :: 0 <= k < |incident.operations| ==> OpenOperation(a.open.active, incident.operations[k])
  }

  /** The first incident the fold refuses, in order; the window is checked before the operations. */
  function IncidentError(a: Accumulator, o: Observation, from: nat): Option<FoldError>
    decreases |o.incidents| - from
  {
    if from >= |o.incidents| then None
    else if !InWindow(a, o, o.incidents[from]) then Some(IncidentOutsideWindow(from))
    else if !OnOpenOperations(a, o.incidents[from]) then Some(IncidentNotOpen(from))
    else IncidentError(a, o, from + 1)
  }

  function Waste(o: Observation, count: nat): int
    requires count <= |o.incidents|
  {
    if count == 0 then 0
    else Waste(o, count - 1) + (o.tick - o.incidents[count - 1].wasteStart) * |o.incidents[count - 1].operations|
  }

  function AddGap(c: Coverage, first: nat, last: nat): Coverage {
    var n := |c.gaps|;
    if n > 0 && first <= c.gaps[n - 1].last + 1 then
      c.(gaps := c.gaps[n - 1 := Gap(c.gaps[n - 1].first, if last > c.gaps[n - 1].last then last else c.gaps[n - 1].last)])
    else if n < MAX_GAPS then c.(gaps := c.gaps + [Gap(first, last)])
    else c.(gapOverflow := c.gapOverflow + 1)
  }

  /** Revisions strictly between two observed ones are missing, and become one gap. */
  function Skip(c: Coverage, from: nat, to: nat): Coverage
    requires from < to
  {
    var skipped := to - from - 1;
    if skipped > 0 then AddGap(c.(missing := c.missing + skipped), from + 1, to - 1) else c
  }

  function CoverRevisions(a: Accumulator, o: Observation): Coverage
    requires a.source.revision < o.revision
  {
    var c := a.coverage.(dropped := a.coverage.dropped + o.droppedBefore, observerFailures := a.coverage.observerFailures + o.failuresBefore);
    var c' := Skip(c, a.source.revision, o.revision);
    var censored := if Contiguous(a, o) then 0 else |a.open.readiness| + |a.open.active| + |a.open.human| + |a.open.recovery|;
    c'.(observed := c'.observed + 1, censored := c'.censored + censored)
  }

  function TickClock(a: Accumulator, o: Observation): ClockHistory {
    var c := a.clock;
    ClockHistory(
      c.initialEpoch,
      o.epoch,
      c.epochChanges + (if o.epoch != a.source.epoch then 1 else 0),
      c.monotonicResets + (if o.tick < a.source.tick then 1 else 0),
      c.unsupported + (if o.clockSupported then 0 else 1))
  }

  function BookIncidents(books: Books, o: Observation): Books {
    books.(counters := books.counters.(falseIndependence := books.counters.falseIndependence + |o.incidents|),
           sums := books.sums.(falseIndependenceWaste := books.sums.falseIndependenceWaste + Waste(o, |o.incidents|)))
  }

  const NOTHING_OPEN: Open := Open([], [], [], [])

  /** The accumulator after a new observation, before it is sealed. */
  function Next(a: Accumulator, o: Observation): Accumulator
    requires a.source.revision < o.revision
  {
    var source := Source(o.revision, o.snapshot, o.epoch, o.tick);
    if Contiguous(a, o) then
      Accumulator(a.context, source, TickClock(a, o), ReconcileOpen(a.open, o),
                  ReconcileBooks(BookIncidents(a.books, o), a.open, o),
                  Integrate(a, o.tick - a.source.tick), CoverRevisions(a, o))
    else
      Accumulator(a.context, source, TickClock(a, o), ReconcileOpen(NOTHING_OPEN, o),
                  CensorBooks(a.books, a.open, a.source.tick), a.integrals, CoverRevisions(a, o))
  }

  function Fold(a: Accumulator, o: Observation): Result<Accumulator, FoldError> {
    if !ValidAccumulator(a) then Failure(InvalidAccumulator)
    else if !ValidObservation(o) then Failure(InvalidObservation)
    else if o.context != a.context then Failure(CreditContextMismatch)
    else if o.revision <= a.source.revision then Success(a)
    else if Contiguous(a, o) && IncidentError(a, o, 0).Some? then Failure(IncidentError(a, o, 0).value)
    else if !Contiguous(a, o) && o.incidents != [] then Failure(IncidentWithoutInterval)
    else if !InRange(Next(a, o)) then Failure(Overflow)
    else Success(Next(a, o))
  }

  /** A new accumulator starts with nothing open and nothing counted. */
  function Created(source: Source, context: CreditContext): Accumulator {
    Accumulator(
      context,
      source,
      ClockHistory(source.epoch, source.epoch, 0, 0, 0),
      NOTHING_OPEN,
      Books(Counters(0, 0, 0, 0, 0, 0, 0), Sums(0, 0, 0, 0, 0, 0), Histograms([0, 0, 0, 0, 0, 0], [0, 0, 0, 0, 0, 0], [0, 0, 0, 0, 0, 0])),
      Integrals(0, 0, 0, 0, 0),
      Coverage(0, 0, 0, 0, 0, [], 0))
  }
}
