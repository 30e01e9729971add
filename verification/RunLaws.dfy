/**
 * Whole runs of the accumulator: what holds after any sequence of observations folded from a
 * newly created accumulator.
 */
module RunLaws {
  import opened FiniteSets
  import opened Wrappers
  import opened CreditModel
  import opened Accumulator
  import opened IntervalLists
  import opened AccumulatorLaws
  import opened TimeConservation

  // ---------- waste is bounded by operation work ----------

  function WastedOperations(o: Observation, count: nat): int
    requires count <= |o.incidents|
  {
    if count == 0 then 0 else WastedOperations(o, count - 1) + |o.incidents[count - 1].operations|
  }

  ghost function WastedHashes(o: Observation, count: nat): set<Hash>
    requires count <= |o.incidents|
  {
    if count == 0 then {} else WastedHashes(o, count - 1) + Elements(o.incidents[count - 1].operations)
  }

  lemma {:induction false} SortedElementsSize(s: seq<Hash>)
    requires SortedUnique(s)
    ensures |Elements(s)| == |s|
  {
    if s == [] {
      assert Elements(s) == {};
    } else {
      SortedElementsSize(s[1..]);
      assert forall i :: 0 < i < |s| ==> s[i] == s[1..][i - 1];
      assert Elements(s) == {s[0]} + Elements(s[1..]);
      assert s[0] !in Elements(s[1..]);
    }
  }

  lemma {:induction false} WastedHashesIn(o: Observation, count: nat, h: Hash)
    requires count <= |o.incidents| && h in WastedHashes(o, count)
    ensures exists k :: 0 <= k < count && h in o.incidents[k].operations
  {
    if h !in Elements(o.incidents[count - 1].operations) {
      WastedHashesIn(o, count - 1, h);
    }
  }

  /** The incidents waste disjoint sets of operations, so counting them never double counts. */
  lemma {:induction false} WastedSize(o: Observation, count: nat)
    requires count <= |o.incidents| && ValidIncidents(o.incidents, o.context)
    ensures |WastedHashes(o, count)| == WastedOperations(o, count)
  {
    if count > 0 {
      WastedSize(o, count - 1);
      SortedOperations(o, count - 1);
      hide ValidIncidents, SortedUnique;
      SortedElementsSize(o.incidents[count - 1].operations);
      NoneWastedTwice(o, count);
    }
  }

  lemma SortedOperations(o: Observation, k: nat)
    requires k < |o.incidents| && ValidIncidents(o.incidents, o.context)
    ensures SortedUnique(o.incidents[k].operations)
  {
  }

  lemma NoneWastedTwice(o: Observation, count: nat)
    requires 0 < count <= |o.incidents| && ValidIncidents(o.incidents, o.context)
    ensures WastedHashes(o, count - 1) !! Elements(o.incidents[count - 1].operations)
  {
    hide WastedHashes;
    var operations := o.incidents[count - 1].operations;
    forall h | h in WastedHashes(o, count - 1) ensures h !in operations {
      WastedHashesIn(o, count - 1, h);
      var k :| 0 <= k < count - 1 && h in o.incidents[k].operations;
      assert Disjoint(o.incidents[k].operations, operations);
    }
  }

  lemma {:induction false} WasteAtMost(o: Observation, from: nat, count: nat)
    requires count <= |o.incidents|
    requires forall i :: 0 <= i < |o.incidents| ==> from <= o.incidents[i].wasteStart <= o.tick
    ensures Waste(o, count) <= (o.tick - from) * WastedOperations(o, count)
  {
    if count > 0 {
      WasteAtMost(o, from, count - 1);
      var i := o.incidents[count - 1];
      var n := |i.operations|;
      assert (o.tick - i.wasteStart) * n <= (o.tick - from) * n;
      Distribute(o.tick - from, WastedOperations(o, count - 1), n);
    }
  }

  lemma Distribute(k: int, x: int, y: int)
    ensures k * (x + y) == k * x + k * y
  {
  }

  function OperationsOnly(): OpenInterval -> bool { (x: OpenInterval) => x.kind == Operation }
  function OthersOnly(): OpenInterval -> bool { (x: OpenInterval) => x.kind != Operation }

  lemma OperationCountIsSize(s: seq<OpenInterval>)
    requires SortedByHash(s)
    ensures Total(s, IsOperation()) == |Hashes(Filter(s, OperationsOnly()))|
  {
    var f := Filter(s, OperationsOnly());
    FilterUnique(s, OperationsOnly());
    UniqueSize(f);
    TotalSplit(s, OperationsOnly(), OthersOnly(), IsOperation());
    TotalOnes(f, IsOperation());
    TotalZero(Filter(s, OthersOnly()), IsOperation());
  }

  lemma WasteBound(a: Accumulator, o: Observation)
    requires SortedByHash(a.open.active) && ValidIncidents(o.incidents, o.context) && a.source.tick <= o.tick
    requires forall i :: 0 <= i < |o.incidents| ==> InWindow(a, o, o.incidents[i]) && OnOpenOperations(a, o.incidents[i])
    ensures Waste(o, |o.incidents|) <= (o.tick - a.source.tick) * OperationCount(a)
  {
    hide Waste, WastedOperations, WastedHashes, Hashes, Filter, Total, InWindow;
    assert forall i :: 0 <= i < |o.incidents| ==> a.source.tick <= o.incidents[i].wasteStart <= o.tick by {
      InWindowBounds(a, o);
    }
    WasteAtMost(o, a.source.tick, |o.incidents|);
    WastedSize(o, |o.incidents|);
    OperationCountIsSize(a.open.active);
    WastedAreOpen(a, o);
    SubsetSize(WastedHashes(o, |o.incidents|), Hashes(Filter(a.open.active, OperationsOnly())));
    ScaleUp(o.tick - a.source.tick, WastedOperations(o, |o.incidents|), OperationCount(a));
  }

  lemma InWindowBounds(a: Accumulator, o: Observation)
    requires forall i :: 0 <= i < |o.incidents| ==> InWindow(a, o, o.incidents[i])
    ensures forall i :: 0 <= i < |o.incidents| ==> a.source.tick <= o.incidents[i].wasteStart <= o.tick
  {
  }

  lemma WastedAreOpen(a: Accumulator, o: Observation)
    requires forall i :: 0 <= i < |o.incidents| ==> OnOpenOperations(a, o.incidents[i])
    ensures WastedHashes(o, |o.incidents|) <= Hashes(Filter(a.open.active, OperationsOnly()))
  {
    hide WastedHashes;
    var f := Filter(a.open.active, OperationsOnly());
    forall h | h in WastedHashes(o, |o.incidents|) ensures h in Hashes(f) {
      WastedHashesIn(o, |o.incidents|, h);
      var k :| 0 <= k < |o.incidents| && h in o.incidents[k].operations;
      var m :| 0 <= m < |o.incidents[k].operations| && o.incidents[k].operations[m] == h;
      var i :| 0 <= i < |a.open.active| && a.open.active[i].kind == Operation && a.open.active[i].hash == o.incidents[k].operations[m];
      assert a.open.active[i] in f;
    }
  }

  lemma ScaleUp(k: int, x: int, y: int)
    requires 0 <= k && x <= y
    ensures k * x <= k * y
  {
  }

  predicate WasteWithinWork(a: Accumulator) {
    a.books.sums.falseIndependenceWaste <= a.integrals.allOperationWork
  }

  lemma FoldBoundsWaste(a: Accumulator, o: Observation)
    requires SortedByHash(a.open.active) && WellKinded(a.open) && WasteWithinWork(a) && ValidObservation(o) && a.source.revision < o.revision
    requires Contiguous(a, o) ==> IncidentError(a, o, 0).None?
    ensures WasteWithinWork(Next(a, o))
  {
    hide TickClock, CoverRevisions, ReconcileOpen, CensorBooks, ReconcileBooks, WellKinded, OperationCount, CreditableCount, WaitingCount;
    if Contiguous(a, o) {
      NoIncidentError(a, o, 0);
      WasteBound(a, o);
      var books := BookIncidents(a.books, o);
      WasteUntouched(books, EndedOpen(a.open, o), o.tick);
      ReconcileBooksOpened(books, a.open, o);
    } else {
      WasteUntouched(a.books, a.open, a.source.tick);
    }
  }

  lemma WasteUntouched(b: Books, open: Open, now: nat)
    ensures CensorBooks(b, open, now).sums.falseIndependenceWaste == b.sums.falseIndependenceWaste
  {
    hide Total, Ages, AgesOf;
    var b1 := CloseAll(b, open.readiness, now, ReadinessLedger);
    var b2 := CloseActive(b1, open.active, now);
    var b3 := CloseAll(b2, open.human, now, NoLedger);
    CloseAllSums(b, open.readiness, now, ReadinessLedger);
    CloseActiveSums(b1, open.active, now);
    CloseAllSums(b2, open.human, now, NoLedger);
    CloseAllSums(b3, open.recovery, now, RecoveryLedger);
  }

  // ---------- runs ----------

  function Replay(a: Accumulator, run: seq<Observation>): Result<Accumulator, FoldError>
    decreases |run|
  {
    if run == [] then Success(a)
    else
      match Fold(a, run[0])
      case Failure(e) => Failure(e)
      case Success(b) => Replay(b, run[1..])
  }

  /** The integral, over the contiguous same-clock folds of a run, of the five open counts. */
  ghost function CountIntegral(a: Accumulator, run: seq<Observation>): Held
    decreases |run|
  {
    if run == [] || Fold(a, run[0]).Failure? then Held(0, 0, 0, 0, 0)
    else
      var elapsed := if run[0].revision > a.source.revision then ContiguousElapsed(a, run[0]) else 0;
      Plus(CountIntegral(Fold(a, run[0]).value, run[1..]), elapsed, OpenCounts(a.open))
  }

  /** What every reachable accumulator satisfies. */
  predicate RunInvariant(a: Accumulator) {
    ValidAccumulator(a) && WellKinded(a.open) && HistogramsBalance(a.books) && WasteWithinWork(a)
  }

  lemma CreatedInvariant(source: Source, context: CreditContext)
    requires ValidContext(context) && source.revision <= MAX_SAFE_INTEGER && source.tick <= MAX_SAFE_INTEGER
    ensures RunInvariant(Created(source, context))
    ensures HeldTime(Created(source, context)) == Held(0, 0, 0, 0, 0)
  {
  }

  lemma FoldKeepsInvariant(a: Accumulator, o: Observation)
    requires RunInvariant(a) && Fold(a, o).Success?
    ensures RunInvariant(Fold(a, o).value)
  {
    hide TickClock, CoverRevisions, Integrate, ReconcileOpen, CensorBooks, ReconcileBooks, Consistent, ValidObservation, InRange, HistogramsBalance, WasteWithinWork, WellKinded;
    if o.revision > a.source.revision {
      FoldSealsExactly(a, o);
      ActiveSorted(a);
      OpenValid(a, o);
      FoldBalancesHistograms(a, o);
      FoldBoundsWaste(a, o);
    }
  }

  lemma ActiveSorted(a: Accumulator)
    requires Consistent(a)
    ensures SortedByHash(a.open.active)
  {
  }

  lemma FoldHolds(a: Accumulator, o: Observation)
    requires RunInvariant(a) && Fold(a, o).Success?
    ensures HeldTime(Fold(a, o).value)
         == Plus(HeldTime(a), if o.revision > a.source.revision then ContiguousElapsed(a, o) else 0, OpenCounts(a.open))
  {
    hide Next, Consistent, ValidObservation, InRange, HistogramsBalance, WasteWithinWork, WellKinded, HeldTime, OpenCounts;
    if o.revision > a.source.revision {
      ActiveSorted(a);
      FoldConservesTime(a, o);
    }
  }

  lemma {:induction false} ReplayKeeps(a: Accumulator, run: seq<Observation>)
    requires RunInvariant(a) && Replay(a, run).Success?
    ensures RunInvariant(Replay(a, run).value)
    ensures HeldTime(Replay(a, run).value) == Plus(HeldTime(a), 1, CountIntegral(a, run))
    decreases |run|
  {
    hide RunInvariant, Fold, HeldTime, OpenCounts, ContiguousElapsed;
    if run != [] {
      FoldKeepsInvariant(a, run[0]);
      FoldHolds(a, run[0]);
      ReplayKeeps(Fold(a, run[0]).value, run[1..]);
    }
  }

  /**
   * Time is conserved over every run, with any clock resets, epoch changes and skipped revisions:
   * closed time plus the ages of what is open is the integral of the open counts; the run's
   * accumulator is valid, its histograms sum to their counters, and waste is within work.
   */
  lemma RunConservesTime(source: Source, context: CreditContext, run: seq<Observation>)
    requires ValidContext(context) && source.revision <= MAX_SAFE_INTEGER && source.tick <= MAX_SAFE_INTEGER
    requires Replay(Created(source, context), run).Success?
    ensures var last := Replay(Created(source, context), run).value;
            && HeldTime(last) == CountIntegral(Created(source, context), run)
            && ValidAccumulator(last) && HistogramsBalance(last.books) && WasteWithinWork(last)
  {
    hide Replay, ValidAccumulator, HistogramsBalance, WasteWithinWork, HeldTime, CountIntegral;
    CreatedInvariant(source, context);
    ReplayKeeps(Created(source, context), run);
  }

  /** A duplicate or stale observation changes nothing: folding one twice is folding it once. */
  lemma FoldTwice(a: Accumulator, o: Observation, earlier: Observation)
    requires Fold(a, o).Success? && RunInvariant(a)
    requires ValidObservation(earlier) && earlier.context == a.context && earlier.revision <= Fold(a, o).value.source.revision
    ensures Fold(Fold(a, o).value, earlier) == Fold(a, o)
  {
    hide TickClock, CoverRevisions, Integrate, ReconcileOpen, CensorBooks, ReconcileBooks, ValidObservation, ValidAccumulator;
    FoldKeepsInvariant(a, o);
  }
}
