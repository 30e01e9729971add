/**
 * The incremental fold refines the offline sweep: over every contiguous same-clock trace, the four
 * areas the fold has added are those of the sweep on the intervals carved from that trace.
 *
 * An operation's interval is cut where its credit basis changes; readiness waits and reserved
 * operations both count as waits.
 */
module FoldSweep {
  import opened Wrappers
  import opened CreditModel
  import opened TickArea
  import opened IntervalSweep
  import opened Accumulator
  import IL = IntervalLists
  import Laws = AccumulatorLaws
  import Time = TimeConservation
  import Runs = RunLaws

  // ---------- carving a trace into intervals ----------

  /** Intervals already closed, and where the current cut of each open operation began. */
  datatype Carving = Carving(operations: seq<OperationInterval>, waits: seq<WaitInterval>, starts: Hash -> nat)

  ghost function OperationsOf(s: seq<OpenInterval>, starts: Hash -> nat, now: nat): seq<OperationInterval> {
    if s == [] then []
    else (if s[0].kind == Operation then [OperationInterval(s[0].hash, Span(starts(s[0].hash), now), s[0].credit)] else []) + OperationsOf(s[1..], starts, now)
  }

  predicate IsWait(x: OpenInterval) {
    x.kind == ReadinessLaneAdmit || x.kind == ReservedDispatch
  }

  function Later(a: nat, b: nat): nat { if a < b then b else a }

  /** A wait that was open when the trace began counts from the beginning of the trace. */
  ghost function WaitsOf(s: seq<OpenInterval>, begin: nat, now: nat): seq<WaitInterval> {
    if s == [] then []
    else (if IsWait(s[0]) then [WaitInterval(s[0].hash, Span(Later(begin, s[0].openedAt), now))] else []) + WaitsOf(s[1..], begin, now)
  }

  /** An open operation continues uncut when the observation keeps it with the same credit basis. */
  predicate Uncut(o: Observation, x: OpenInterval) {
    x.kind == Operation && x.hash in OperationHashes(o.active) && CreditFor(o.active, x.hash) == x.credit
  }

  function CutHere(o: Observation): OpenInterval -> bool { (x: OpenInterval) => !Uncut(o, x) }
  function UncutHere(o: Observation): OpenInterval -> bool { (x: OpenInterval) => Uncut(o, x) }

  ghost function NextStarts(active: seq<OpenInterval>, o: Observation, starts: Hash -> nat): Hash -> nat {
    (h: Hash) => if exists x :: x in active && x.hash == h && Uncut(o, x) then starts(h) else o.tick
  }

  ghost function CarveStep(a: Accumulator, o: Observation, begin: nat, c: Carving): Carving {
    Carving(
      c.operations + OperationsOf(Filter(a.open.active, CutHere(o)), c.starts, o.tick),
      c.waits + WaitsOf(Filter(a.open.readiness, Ends(o.ready, ReadyKind())), begin, o.tick) + WaitsOf(Filter(a.open.active, EndsActive(o)), begin, o.tick),
      NextStarts(a.open.active, o, c.starts))
  }

  /** Every interval carved so far, with those still open cut off at the current tick. */
  ghost function CarvedOperations(open: Open, now: nat, c: Carving): seq<OperationInterval> {
    c.operations + OperationsOf(open.active, c.starts, now)
  }

  ghost function CarvedWaits(open: Open, now: nat, begin: nat, c: Carving): seq<WaitInterval> {
    c.waits + WaitsOf(open.readiness, begin, now) + WaitsOf(open.active, begin, now)
  }

  // ---------- cover counts as totals over the open intervals ----------

  ghost function Running(starts: Hash -> nat, now: int, t: int, creditedOnly: bool): OpenInterval -> int {
    (x: OpenInterval) => if x.kind == Operation && (creditedOnly ==> x.credit.Some?) && starts(x.hash) <= t < now then 1 else 0
  }

  ghost function Waiting(begin: nat, now: int, t: int): OpenInterval -> int {
    (x: OpenInterval) => if IsWait(x) && Later(begin, x.openedAt) <= t < now then 1 else 0
  }

  lemma {:induction false} OperationsCover(s: seq<OpenInterval>, starts: Hash -> nat, now: nat, t: int)
    ensures Cover(OperationSpans(OperationsOf(s, starts, now)), t) == Total(s, Running(starts, now, t, false))
    ensures Cover(CreditedSpans(OperationsOf(s, starts, now)), t) == Total(s, Running(starts, now, t, true))
  {
    if s != [] {
      OperationsCover(s[1..], starts, now, t);
      var rest := OperationsOf(s[1..], starts, now);
      if s[0].kind == Operation {
        var head := OperationInterval(s[0].hash, Span(starts(s[0].hash), now), s[0].credit);
        var all := [head] + rest;
        assert all[1..] == rest;
        assert OperationSpans(all) == [head.span] + OperationSpans(rest);
        assert CreditedSpans(all) == (if head.credit.Some? then [head.span] else []) + CreditedSpans(rest);
        assert ([head.span] + CreditedSpans(rest))[1..] == CreditedSpans(rest);
        assert [] + CreditedSpans(rest) == CreditedSpans(rest);
      } else {
        assert OperationsOf(s, starts, now) == rest;
      }
    }
  }

  lemma {:induction false} WaitsCover(s: seq<OpenInterval>, begin: nat, now: nat, t: int)
    ensures Cover(WaitSpans(WaitsOf(s, begin, now)), t) == Total(s, Waiting(begin, now, t))
  {
    if s != [] {
      WaitsCover(s[1..], begin, now, t);
      var rest := WaitsOf(s[1..], begin, now);
      if IsWait(s[0]) {
        var head := WaitInterval(s[0].hash, Span(Later(begin, s[0].openedAt), now));
        assert ([head] + rest)[1..] == rest;
        assert ([head.span] + WaitSpans(rest))[1..] == WaitSpans(rest);
      } else {
        assert WaitsOf(s, begin, now) == rest;
      }
    }
  }

  // ---------- one step rewinds: nothing carved changes when the observation is applied ----------

  lemma {:induction false} RecreditRuns(survivors: seq<OpenInterval>, o: Observation, f: OpenInterval -> int, g: OpenInterval -> int)
    requires forall x :: x in survivors && x.kind == Operation ==> f(x.(credit := CreditFor(o.active, x.hash))) == g(x)
    requires forall x :: x in survivors && x.kind != Operation ==> f(x) == g(x)
    ensures Total(Recredit(survivors, o), f) == Total(survivors, g)
  {
    if survivors != [] {
      RecreditRuns(survivors[1..], o, f, g);
      assert Recredit(survivors, o)[1..] == Recredit(survivors[1..], o);
    }
  }

  ghost function UncutOnly(o: Observation, f: OpenInterval -> int): OpenInterval -> int {
    (x: OpenInterval) => if Uncut(o, x) then f(x) else 0
  }

  lemma UniqueInterval(s: seq<OpenInterval>, x: OpenInterval, y: OpenInterval)
    requires SortedByHash(s) && x in s && y in s && x.hash == y.hash
    ensures x == y
  {
  }

  /** The next active list runs exactly the uncut operations of the prior one. */
  lemma NextRunning(active: seq<OpenInterval>, o: Observation, starts: Hash -> nat, t: int, creditedOnly: bool)
    requires SortedByHash(active) && ValidObservation(o)
    ensures Total(ReconciledActive(active, o), Running(NextStarts(active, o, starts), o.tick, t, creditedOnly))
         == Total(active, UncutOnly(o, Running(starts, o.tick, t, creditedOnly)))
  {
    var f, g := Running(NextStarts(active, o, starts), o.tick, t, creditedOnly), UncutOnly(o, Running(starts, o.tick, t, creditedOnly));
    var survivors := Filter(active, StaysActive(o));
    var kept := Recredit(survivors, o);
    var reserved := Fresh(o.reserved, kept, ReservedKind(), o);
    var operations := FreshOperations(o.active, kept, o);
    Laws.ActiveGroupsUnique(active, o, kept, reserved, operations);
    FreshStartNow(active, o, starts, kept, operations);
    NextRunningGroups(kept, reserved, operations, f);
    hide ValidObservation, Fresh, FreshOperations, SortByHash, OperationHashes;
    forall x | x in survivors && x.kind == Operation ensures f(x.(credit := CreditFor(o.active, x.hash))) == g(x) {
      SurvivorStart(active, o, starts, x);
    }
    RecreditRuns(survivors, o, f, g);
    var gone := (x: OpenInterval) => !StaysActive(o)(x);
    IL.TotalSplit(active, StaysActive(o), gone, g);
    IL.TotalZero(Filter(active, gone), g);
  }

  lemma SurvivorStart(active: seq<OpenInterval>, o: Observation, starts: Hash -> nat, x: OpenInterval)
    requires SortedByHash(active) && x in active
    ensures NextStarts(active, o, starts)(x.hash) == (if Uncut(o, x) then starts(x.hash) else o.tick)
  {
    if exists y :: y in active && y.hash == x.hash && Uncut(o, y) {
      var y :| y in active && y.hash == x.hash && Uncut(o, y);
      UniqueInterval(active, x, y);
    }
  }

  lemma FreshStartNow(active: seq<OpenInterval>, o: Observation, starts: Hash -> nat, kept: seq<OpenInterval>, operations: seq<OpenInterval>)
    requires SortedByHash(active) && ValidObservation(o)
    requires kept == Recredit(Filter(active, StaysActive(o)), o) && operations == FreshOperations(o.active, kept, o)
    ensures forall x :: x in operations ==> NextStarts(active, o, starts)(x.hash) == o.tick
  {
    var survivors := Filter(active, StaysActive(o));
    Laws.FreshOperationFacts(o.active, kept, o, o.context);
    forall y | y in active && Uncut(o, y) ensures HasHash(kept, y.hash) {
      assert y in survivors;
      var i :| 0 <= i < |survivors| && survivors[i] == y;
      assert kept[i].hash == y.hash;
    }
  }

  lemma NextRunningGroups(kept: seq<OpenInterval>, reserved: seq<OpenInterval>, operations: seq<OpenInterval>, f: OpenInterval -> int)
    requires forall x :: x in reserved ==> f(x) == 0
    requires forall x :: x in operations ==> f(x) == 0
    ensures Total(SortByHash(kept + reserved + operations), f) == Total(kept, f)
  {
    IL.TotalSort(kept + reserved + operations, f);
    IL.TotalAppend(kept + reserved, operations, f);
    IL.TotalAppend(kept, reserved, f);
    IL.TotalZero(reserved, f);
    IL.TotalZero(operations, f);
  }

  lemma CutSplit(active: seq<OpenInterval>, o: Observation, f: OpenInterval -> int)
    ensures Total(active, UncutOnly(o, f)) + Total(Filter(active, CutHere(o)), f) == Total(active, f)
  {
    IL.TotalSplit(active, UncutHere(o), CutHere(o), f);
    IL.TotalSplit(active, UncutHere(o), CutHere(o), UncutOnly(o, f));
    IL.TotalSame(Filter(active, UncutHere(o)), f, UncutOnly(o, f));
    IL.TotalZero(Filter(active, CutHere(o)), UncutOnly(o, f));
  }

  /** Applying the observation leaves every operation cover count where it was. */
  lemma OperationsRewind(a: Accumulator, o: Observation, begin: nat, c: Carving, t: int)
    requires SortedByHash(a.open.active) && ValidObservation(o)
    ensures var c', open' := CarveStep(a, o, begin, c), ReconcileOpen(a.open, o);
            && Cover(OperationSpans(CarvedOperations(open', o.tick, c')), t) == Cover(OperationSpans(CarvedOperations(a.open, o.tick, c)), t)
            && Cover(CreditedSpans(CarvedOperations(open', o.tick, c')), t) == Cover(CreditedSpans(CarvedOperations(a.open, o.tick, c)), t)
  {
    hide ReconciledActive, Reconciled, ValidObservation, NextStarts, Running, UncutOnly, CutHere;
    var active, next, starts' := a.open.active, ReconciledActive(a.open.active, o), NextStarts(a.open.active, o, c.starts);
    var cut := Filter(active, CutHere(o));
    CarvedCover(c.operations + OperationsOf(cut, c.starts, o.tick), next, starts', o.tick, t);
    CarvedCover(c.operations, cut, c.starts, o.tick, t);
    CarvedCover(c.operations, active, c.starts, o.tick, t);
    NextRunning(active, o, c.starts, t, false);
    NextRunning(active, o, c.starts, t, true);
    CutSplit(active, o, Running(c.starts, o.tick, t, false));
    CutSplit(active, o, Running(c.starts, o.tick, t, true));
  }

  /** Cover counts of closed operations followed by running ones. */
  lemma CarvedCover(closed: seq<OperationInterval>, s: seq<OpenInterval>, starts: Hash -> nat, now: nat, t: int)
    ensures Cover(OperationSpans(closed + OperationsOf(s, starts, now)), t) == Cover(OperationSpans(closed), t) + Total(s, Running(starts, now, t, false))
    ensures Cover(CreditedSpans(closed + OperationsOf(s, starts, now)), t) == Cover(CreditedSpans(closed), t) + Total(s, Running(starts, now, t, true))
  {
    hide Running, OperationsOf, Total;
    OperationSpansAppend(closed, OperationsOf(s, starts, now));
    CreditedSpansAppend(closed, OperationsOf(s, starts, now));
    CoverAppend(OperationSpans(closed), OperationSpans(OperationsOf(s, starts, now)), t);
    CoverAppend(CreditedSpans(closed), CreditedSpans(OperationsOf(s, starts, now)), t);
    OperationsCover(s, starts, now, t);
  }

  lemma WaitsCarvedCover(closed: seq<WaitInterval>, s: seq<OpenInterval>, r: seq<OpenInterval>, begin: nat, now: nat, t: int)
    ensures Cover(WaitSpans(closed + WaitsOf(s, begin, now) + WaitsOf(r, begin, now)), t)
         == Cover(WaitSpans(closed), t) + Total(s, Waiting(begin, now, t)) + Total(r, Waiting(begin, now, t))
  {
    hide Waiting, WaitsOf, Total;
    WaitSpansAppend(closed + WaitsOf(s, begin, now), WaitsOf(r, begin, now));
    WaitSpansAppend(closed, WaitsOf(s, begin, now));
    CoverAppend(WaitSpans(closed + WaitsOf(s, begin, now)), WaitSpans(WaitsOf(r, begin, now)), t);
    CoverAppend(WaitSpans(closed), WaitSpans(WaitsOf(s, begin, now)), t);
    WaitsCover(s, begin, now, t);
    WaitsCover(r, begin, now, t);
  }

  lemma WaitsRewind(a: Accumulator, o: Observation, begin: nat, c: Carving, t: int)
    requires SortedByHash(a.open.active) && Laws.WellKinded(a.open) && ValidObservation(o)
    ensures Cover(WaitSpans(CarvedWaits(ReconcileOpen(a.open, o), o.tick, begin, CarveStep(a, o, begin, c))), t)
         == Cover(WaitSpans(CarvedWaits(a.open, o.tick, begin, c)), t)
  {
    var open', c' := ReconcileOpen(a.open, o), CarveStep(a, o, begin, c);
    var readiness, active := Filter(a.open.readiness, Ends(o.ready, ReadyKind())), Filter(a.open.active, EndsActive(o));
    hide Filter, Ends, EndsActive, Reconciled, ReconciledActive, WaitsOf, OperationsOf, NextStarts, CutHere, SortedByHash, ValidObservation, Waiting, Total, Cover, WaitSpans;
    WaitsCarvedCover(c'.waits, open'.readiness, open'.active, begin, o.tick, t);
    WaitsCarvedCover(c.waits, readiness, active, begin, o.tick, t);
    WaitsCarvedCover(c.waits, a.open.readiness, a.open.active, begin, o.tick, t);
    WaitsReconcile(a.open.readiness, o, begin, t);
    WaitsReconcileActive(a.open.active, o, begin, t);
  }

  lemma WaitsReconcile(readiness: seq<OpenInterval>, o: Observation, begin: nat, t: int)
    requires ValidObservation(o)
    ensures Total(Reconciled(readiness, o.ready, ReadyKind(), o), Waiting(begin, o.tick, t)) + Total(Filter(readiness, Ends(o.ready, ReadyKind())), Waiting(begin, o.tick, t))
         == Total(readiness, Waiting(begin, o.tick, t))
  {
    Time.ReconciledTotal(readiness, o.ready, ReadyKind(), o, Waiting(begin, o.tick, t));
  }

  lemma WaitsReconcileActive(active: seq<OpenInterval>, o: Observation, begin: nat, t: int)
    requires ValidObservation(o) && SortedByHash(active)
    requires forall x :: x in active ==> x.kind == ReservedDispatch || x.kind == Operation
    ensures Total(ReconciledActive(active, o), Waiting(begin, o.tick, t)) + Total(Filter(active, EndsActive(o)), Waiting(begin, o.tick, t))
         == Total(active, Waiting(begin, o.tick, t))
  {
    Time.ReconciledActiveTotal(active, o, Waiting(begin, o.tick, t));
  }

  // ---------- time passes: each cover count grows by the open count ----------

  ghost predicate Begun(a: Accumulator, begin: nat, c: Carving) {
    && begin <= a.source.tick
    && (forall h :: c.starts(h) <= a.source.tick)
    && EndBy(OperationSpans(c.operations), a.source.tick)
    && EndBy(WaitSpans(c.waits), a.source.tick)
  }

  ghost function Work(open: Open, now: nat, c: Carving): int -> int {
    t => Cover(OperationSpans(CarvedOperations(open, now, c)), t)
  }
  ghost function Credit(open: Open, now: nat, c: Carving): int -> int {
    t => Cover(CreditedSpans(CarvedOperations(open, now, c)), t)
  }
  ghost function Exposed(open: Open, now: nat, begin: nat, c: Carving): int -> int {
    t => Cover(OperationSpans(CarvedOperations(open, now, c)), t) + Cover(WaitSpans(CarvedWaits(open, now, begin, c)), t)
  }
  ghost function Overlap(f: int -> int): int -> int { t => Excess(f(t)) }

  lemma {:induction false} CoverAfter(spans: seq<Span>, hi: int, t: int)
    requires EndBy(spans, hi) && hi <= t
    ensures Cover(spans, t) == 0
  {
    if spans != [] {
      CoverAfter(spans[1..], hi, t);
    }
  }

  lemma OperationsExtend(a: Accumulator, now: nat, begin: nat, c: Carving, t: int)
    requires Begun(a, begin, c) && a.source.tick <= now
    requires forall x :: x in a.open.active ==> Creditable(x.credit, a.context)
    ensures t < a.source.tick ==> Work(a.open, now, c)(t) == Work(a.open, a.source.tick, c)(t) && Credit(a.open, now, c)(t) == Credit(a.open, a.source.tick, c)(t)
    ensures a.source.tick <= t < now ==> Work(a.open, now, c)(t) == OperationCount(a) && Credit(a.open, now, c)(t) == CreditableCount(a)
  {
    hide OperationsOf;
    var active, tick := a.open.active, a.source.tick;
    CarvedCover(c.operations, active, c.starts, now, t);
    CarvedCover(c.operations, active, c.starts, tick, t);
    if t < tick {
      IL.TotalSame(active, Running(c.starts, now, t, false), Running(c.starts, tick, t, false));
      IL.TotalSame(active, Running(c.starts, now, t, true), Running(c.starts, tick, t, true));
    } else if t < now {
      IL.TotalSame(active, Running(c.starts, now, t, false), IsOperation());
      IL.TotalSame(active, Running(c.starts, now, t, true), IsCreditable(a.context));
      CoverAfter(OperationSpans(c.operations), tick, t);
      CreditedAmongWork(c.operations, tick);
      CoverAfter(CreditedSpans(c.operations), tick, t);
    }
  }

  lemma WaitsExtend(a: Accumulator, now: nat, begin: nat, c: Carving, t: int)
    requires Begun(a, begin, c) && a.source.tick <= now && Laws.WellKinded(a.open)
    requires Laws.OpenedBy(a.open.readiness, a.source.tick) && Laws.OpenedBy(a.open.active, a.source.tick)
    ensures t < a.source.tick ==> Cover(WaitSpans(CarvedWaits(a.open, now, begin, c)), t) == Cover(WaitSpans(CarvedWaits(a.open, a.source.tick, begin, c)), t)
    ensures a.source.tick <= t < now ==> Cover(WaitSpans(CarvedWaits(a.open, now, begin, c)), t) == WaitingCount(a)
  {
    hide WaitsOf;
    var readiness, active, tick := a.open.readiness, a.open.active, a.source.tick;
    WaitsCarvedCover(c.waits, readiness, active, begin, now, t);
    WaitsCarvedCover(c.waits, readiness, active, begin, tick, t);
    if t < tick {
      IL.TotalSame(readiness, Waiting(begin, now, t), Waiting(begin, tick, t));
      IL.TotalSame(active, Waiting(begin, now, t), Waiting(begin, tick, t));
    } else if t < now {
      IL.TotalOnes(readiness, Waiting(begin, now, t));
      IL.TotalSame(active, Waiting(begin, now, t), IsReserved());
      CoverAfter(WaitSpans(c.waits), tick, t);
    }
  }

  // ---------- the areas along a trace ----------

  /** The four areas added to the integrals since the trace began are the areas of what is carved. */
  ghost predicate Tracks(i: Integrals, base: Integrals, tick: nat, work: int -> int, credit: int -> int, exposed: int -> int) {
    && i.allOperationWork - base.allOperationWork == Area(0, tick, work)
    && i.creditableWork - base.creditableWork == Area(0, tick, credit)
    && i.usefulOverlap - base.usefulOverlap == Area(0, tick, Overlap(credit))
    && i.parallelOpportunity - base.parallelOpportunity == Area(0, tick, Overlap(exposed))
  }

  lemma GrowArea(tick: int, now: int, f: int -> int, g: int -> int, count: int)
    requires 0 <= tick <= now
    requires forall t :: 0 <= t < tick ==> g(t) == f(t)
    requires forall t :: tick <= t < now ==> g(t) == count
    ensures Area(0, now, g) == Area(0, tick, f) + (now - tick) * count
  {
    AreaCongruent(0, tick, f, g);
    AdvanceArea(0, tick, now, g, count);
  }

  lemma GrowTracks(i: Integrals, base: Integrals, tick: nat, now: nat, work: int -> int, credit: int -> int, exposed: int -> int,
                   work': int -> int, credit': int -> int, exposed': int -> int, all: int, creditable: int, ready: int, next: Integrals)
    requires tick <= now && Tracks(i, base, tick, work, credit, exposed)
    requires forall t :: 0 <= t < tick ==> work'(t) == work(t) && credit'(t) == credit(t) && exposed'(t) == exposed(t)
    requires forall t :: tick <= t < now ==> work'(t) == all && credit'(t) == creditable && exposed'(t) == all + ready
    requires next.allOperationWork == i.allOperationWork + (now - tick) * all
    requires next.creditableWork == i.creditableWork + (now - tick) * creditable
    requires next.usefulOverlap == i.usefulOverlap + (now - tick) * Excess(creditable)
    requires next.parallelOpportunity == i.parallelOpportunity + (now - tick) * Excess(all + ready)
    ensures Tracks(next, base, now, work', credit', exposed')
  {
    hide Area, Excess, Overlap;
    GrowArea(tick, now, work, work', all);
    GrowArea(tick, now, credit, credit', creditable);
    GrowOverlap(tick, now, credit, credit', creditable);
    GrowOverlap(tick, now, exposed, exposed', all + ready);
  }

  lemma GrowOverlap(tick: int, now: int, f: int -> int, g: int -> int, count: int)
    requires 0 <= tick <= now
    requires forall t :: 0 <= t < tick ==> g(t) == f(t)
    requires forall t :: tick <= t < now ==> g(t) == count
    ensures Area(0, now, Overlap(g)) == Area(0, tick, Overlap(f)) + (now - tick) * Excess(count)
  {
    hide *;
    OverlapFollows(tick, now, f, g, count);
    GrowExcess(tick, now, Overlap(f), Overlap(g), count);
  }

  lemma GrowExcess(tick: int, now: int, f: int -> int, g: int -> int, count: int)
    requires 0 <= tick <= now
    requires forall t :: 0 <= t < tick ==> g(t) == f(t)
    requires forall t :: tick <= t < now ==> g(t) == Excess(count)
    ensures Area(0, now, g) == Area(0, tick, f) + (now - tick) * Excess(count)
  {
    hide Area, Excess;
    GrowArea(tick, now, f, g, Excess(count));
  }

  lemma OverlapFollows(tick: int, now: int, f: int -> int, g: int -> int, count: int)
    requires forall t :: 0 <= t < tick ==> g(t) == f(t)
    requires forall t :: tick <= t < now ==> g(t) == count
    ensures forall t :: 0 <= t < tick ==> Overlap(g)(t) == Overlap(f)(t)
    ensures forall t :: tick <= t < now ==> Overlap(g)(t) == Excess(count)
  {
    hide *;
    forall t | 0 <= t < tick ensures Overlap(g)(t) == Overlap(f)(t) {
      OverlapAt(f, t);
      OverlapAt(g, t);
    }
    forall t | tick <= t < now ensures Overlap(g)(t) == Excess(count) {
      OverlapAt(g, t);
    }
  }

  lemma OverlapAt(f: int -> int, t: int)
    ensures Overlap(f)(t) == Excess(f(t))
  {
  }

  ghost predicate TracksCarving(a: Accumulator, base: Integrals, begin: nat, c: Carving) {
    Tracks(a.integrals, base, a.source.tick, Work(a.open, a.source.tick, c), Credit(a.open, a.source.tick, c), Exposed(a.open, a.source.tick, begin, c))
  }

  lemma StepTracks(a: Accumulator, o: Observation, base: Integrals, begin: nat, c: Carving)
    requires Consistent(a) && Laws.WellKinded(a.open) && ValidObservation(o) && a.source.revision < o.revision && Contiguous(a, o)
    requires Begun(a, begin, c) && TracksCarving(a, base, begin, c)
    ensures TracksCarving(Next(a, o), base, begin, CarveStep(a, o, begin, c))
  {
    hide *;
    var n, c' := Next(a, o), CarveStep(a, o, begin, c);
    NextParts(a, o);
    var work, credit, exposed := Work(a.open, a.source.tick, c), Credit(a.open, a.source.tick, c), Exposed(a.open, a.source.tick, begin, c);
    var work', credit', exposed' := Work(n.open, o.tick, c'), Credit(n.open, o.tick, c'), Exposed(n.open, o.tick, begin, c');
    ConsistentParts(a);
    forall t: int
      ensures t < a.source.tick ==> work'(t) == work(t) && credit'(t) == credit(t) && exposed'(t) == exposed(t)
      ensures a.source.tick <= t < o.tick ==> work'(t) == OperationCount(a) && credit'(t) == CreditableCount(a) && exposed'(t) == OperationCount(a) + WaitingCount(a)
    {
      StepCounts(a, o, begin, c, t);
    }
    assert Tracks(a.integrals, base, a.source.tick, work, credit, exposed) by { TracksOpened(a, base, begin, c); }
    GrowTracks(a.integrals, base, a.source.tick, o.tick, work, credit, exposed, work', credit', exposed',
               OperationCount(a), CreditableCount(a), WaitingCount(a), n.integrals);
    TracksClosed(n, base, begin, c');
  }

  lemma NextParts(a: Accumulator, o: Observation)
    requires a.source.revision < o.revision && Contiguous(a, o)
    ensures a.source.tick <= o.tick
    ensures var n := Next(a, o);
            && n.open == ReconcileOpen(a.open, o) && n.source.tick == o.tick
            && n.integrals.allOperationWork == a.integrals.allOperationWork + (o.tick - a.source.tick) * OperationCount(a)
            && n.integrals.creditableWork == a.integrals.creditableWork + (o.tick - a.source.tick) * CreditableCount(a)
            && n.integrals.usefulOverlap == a.integrals.usefulOverlap + (o.tick - a.source.tick) * Excess(CreditableCount(a))
            && n.integrals.parallelOpportunity == a.integrals.parallelOpportunity + (o.tick - a.source.tick) * Excess(OperationCount(a) + WaitingCount(a))
  {
    hide ReconcileOpen, ReconcileBooks, BookIncidents, CoverRevisions, TickClock, OperationCount, CreditableCount, WaitingCount;
  }

  lemma ConsistentParts(a: Accumulator)
    requires Consistent(a)
    ensures SortedByHash(a.open.active)
    ensures Laws.OpenedBy(a.open.readiness, a.source.tick) && Laws.OpenedBy(a.open.active, a.source.tick)
    ensures forall x :: x in a.open.active ==> Creditable(x.credit, a.context)
  {
  }

  lemma TracksOpened(a: Accumulator, base: Integrals, begin: nat, c: Carving)
    requires TracksCarving(a, base, begin, c)
    ensures Tracks(a.integrals, base, a.source.tick, Work(a.open, a.source.tick, c), Credit(a.open, a.source.tick, c), Exposed(a.open, a.source.tick, begin, c))
  {
  }

  lemma TracksClosed(a: Accumulator, base: Integrals, begin: nat, c: Carving)
    requires Tracks(a.integrals, base, a.source.tick, Work(a.open, a.source.tick, c), Credit(a.open, a.source.tick, c), Exposed(a.open, a.source.tick, begin, c))
    ensures TracksCarving(a, base, begin, c)
  {
  }

  lemma StepCounts(a: Accumulator, o: Observation, begin: nat, c: Carving, t: int)
    requires SortedByHash(a.open.active) && Laws.WellKinded(a.open) && ValidObservation(o) && a.source.tick <= o.tick && Begun(a, begin, c)
    requires Laws.OpenedBy(a.open.readiness, a.source.tick) && Laws.OpenedBy(a.open.active, a.source.tick)
    requires forall x :: x in a.open.active ==> Creditable(x.credit, a.context)
    ensures var c', open' := CarveStep(a, o, begin, c), ReconcileOpen(a.open, o);
            && (t < a.source.tick ==>
                  && Work(open', o.tick, c')(t) == Work(a.open, a.source.tick, c)(t)
                  && Credit(open', o.tick, c')(t) == Credit(a.open, a.source.tick, c)(t)
                  && Exposed(open', o.tick, begin, c')(t) == Exposed(a.open, a.source.tick, begin, c)(t))
            && (a.source.tick <= t < o.tick ==>
                  && Work(open', o.tick, c')(t) == OperationCount(a)
                  && Credit(open', o.tick, c')(t) == CreditableCount(a)
                  && Exposed(open', o.tick, begin, c')(t) == OperationCount(a) + WaitingCount(a))
  {
    hide CarveStep, ReconcileOpen, CarvedOperations, CarvedWaits, ValidObservation, OperationCount, CreditableCount, WaitingCount, Begun, Cover;
    OperationsRewind(a, o, begin, c, t);
    WaitsRewind(a, o, begin, c, t);
    OperationsExtend(a, o.tick, begin, c, t);
    WaitsExtend(a, o.tick, begin, c, t);
  }

  lemma {:induction false} OperationsEnd(s: seq<OpenInterval>, starts: Hash -> nat, now: nat)
    ensures EndBy(OperationSpans(OperationsOf(s, starts, now)), now)
  {
    if s != [] {
      OperationsEnd(s[1..], starts, now);
      var rest := OperationsOf(s[1..], starts, now);
      if s[0].kind == Operation {
        assert ([OperationInterval(s[0].hash, Span(starts(s[0].hash), now), s[0].credit)] + rest)[1..] == rest;
      } else {
        assert OperationsOf(s, starts, now) == rest;
      }
    }
  }

  lemma {:induction false} WaitsEnd(s: seq<OpenInterval>, begin: nat, now: nat)
    ensures EndBy(WaitSpans(WaitsOf(s, begin, now)), now)
  {
    if s != [] {
      WaitsEnd(s[1..], begin, now);
      var rest := WaitsOf(s[1..], begin, now);
      if IsWait(s[0]) {
        assert ([WaitInterval(s[0].hash, Span(Later(begin, s[0].openedAt), now))] + rest)[1..] == rest;
      } else {
        assert WaitsOf(s, begin, now) == rest;
      }
    }
  }

  /** Everything carved ends by the current tick, if what was already closed does. */
  lemma CarvedEnd(open: Open, now: nat, begin: nat, c: Carving)
    requires EndBy(OperationSpans(c.operations), now) && EndBy(WaitSpans(c.waits), now)
    ensures EndBy(OperationSpans(CarvedOperations(open, now, c)), now)
    ensures EndBy(WaitSpans(CarvedWaits(open, now, begin, c)), now)
  {
    OperationSpansAppend(c.operations, OperationsOf(open.active, c.starts, now));
    OperationsEnd(open.active, c.starts, now);
    WaitSpansAppend(c.waits + WaitsOf(open.readiness, begin, now), WaitsOf(open.active, begin, now));
    WaitSpansAppend(c.waits, WaitsOf(open.readiness, begin, now));
    WaitsEnd(open.readiness, begin, now);
    WaitsEnd(open.active, begin, now);
  }

  lemma EndLater(spans: seq<Span>, hi: int, later: int)
    requires EndBy(spans, hi) && hi <= later
    ensures EndBy(spans, later)
  {
  }

  lemma StepBegun(a: Accumulator, o: Observation, begin: nat, c: Carving)
    requires a.source.revision < o.revision && Contiguous(a, o) && Begun(a, begin, c)
    ensures Begun(Next(a, o), begin, CarveStep(a, o, begin, c))
  {
    hide Next, OperationsOf, WaitsOf, OperationSpans, WaitSpans, EndBy, ReconciledActive, Reconciled, Filter;
    NextParts(a, o);
    var cut := Filter(a.open.active, CutHere(o));
    var readiness, active := Filter(a.open.readiness, Ends(o.ready, ReadyKind())), Filter(a.open.active, EndsActive(o));
    EndLater(OperationSpans(c.operations), a.source.tick, o.tick);
    EndLater(WaitSpans(c.waits), a.source.tick, o.tick);
    CarvedEnd(Open([], cut, [], []), o.tick, begin, c);
    CarvedEnd(Open(readiness, active, [], []), o.tick, begin, c);
  }

  // ---------- the refinement ----------

  /** Each observation of the trace continues the clock and the revision of the one before. */
  predicate ContiguousRun(a: Accumulator, run: seq<Observation>)
    decreases |run|
  {
    run == [] || (a.source.revision < run[0].revision && Contiguous(a, run[0]) && Fold(a, run[0]).Success? && ContiguousRun(Fold(a, run[0]).value, run[1..]))
  }

  ghost function CarveRun(a: Accumulator, run: seq<Observation>, begin: nat, c: Carving): (seq<OperationInterval>, seq<WaitInterval>)
    requires ContiguousRun(a, run)
    decreases |run|
  {
    if run == [] then (CarvedOperations(a.open, a.source.tick, c), CarvedWaits(a.open, a.source.tick, begin, c))
    else CarveRun(Fold(a, run[0]).value, run[1..], begin, CarveStep(a, run[0], begin, c))
  }

  predicate SameAreas(i: Integrals, base: Integrals, r: Totals) {
    && i.allOperationWork - base.allOperationWork == r.allOperationWork
    && i.creditableWork - base.creditableWork == r.creditableWork
    && i.usefulOverlap - base.usefulOverlap == r.usefulOverlap
    && i.parallelOpportunity - base.parallelOpportunity == r.parallelOpportunity
  }

  lemma TracksAreTotals(a: Accumulator, base: Integrals, begin: nat, c: Carving)
    requires Begun(a, begin, c) && TracksCarving(a, base, begin, c)
    ensures SameAreas(a.integrals, base, ReferenceTotals(CarvedOperations(a.open, a.source.tick, c), CarvedWaits(a.open, a.source.tick, begin, c)))
  {
    hide *;
    var operations, waits, tick := CarvedOperations(a.open, a.source.tick, c), CarvedWaits(a.open, a.source.tick, begin, c), a.source.tick;
    var work, credit, exposed := Work(a.open, tick, c), Credit(a.open, tick, c), Exposed(a.open, tick, begin, c);
    BegunEnds(a, begin, c);
    CarvedEnd(a.open, tick, begin, c);
    TracksOpened(a, base, begin, c);
    CarvedCounts(a.open, tick, begin, c);
    CarvedTotals(a.integrals, base, operations, waits, tick, work, credit, exposed);
  }

  lemma BegunEnds(a: Accumulator, begin: nat, c: Carving)
    requires Begun(a, begin, c)
    ensures EndBy(OperationSpans(c.operations), a.source.tick) && EndBy(WaitSpans(c.waits), a.source.tick)
  {
  }

  lemma CarvedCounts(open: Open, now: nat, begin: nat, c: Carving)
    ensures forall t :: Work(open, now, c)(t) == Cover(OperationSpans(CarvedOperations(open, now, c)), t)
    ensures forall t :: Credit(open, now, c)(t) == Cover(CreditedSpans(CarvedOperations(open, now, c)), t)
    ensures forall t :: Exposed(open, now, begin, c)(t) == Cover(OperationSpans(CarvedOperations(open, now, c)) + WaitSpans(CarvedWaits(open, now, begin, c)), t)
  {
    hide CarvedOperations, CarvedWaits, Cover, OperationSpans, WaitSpans;
    forall t: int { CoverAppend(OperationSpans(CarvedOperations(open, now, c)), WaitSpans(CarvedWaits(open, now, begin, c)), t); }
  }

  lemma CarvedTotals(i: Integrals, base: Integrals, operations: seq<OperationInterval>, waits: seq<WaitInterval>, tick: nat, work: int -> int, credit: int -> int, exposed: int -> int)
    requires EndBy(OperationSpans(operations), tick) && EndBy(WaitSpans(waits), tick)
    requires forall t :: work(t) == Cover(OperationSpans(operations), t)
    requires forall t :: credit(t) == Cover(CreditedSpans(operations), t)
    requires forall t :: exposed(t) == Cover(OperationSpans(operations) + WaitSpans(waits), t)
    requires Tracks(i, base, tick, work, credit, exposed)
    ensures SameAreas(i, base, ReferenceTotals(operations, waits))
  {
    hide Cover, Area, EndBy, OperationSpans, CreditedSpans, WaitSpans, EarliestStart, LatestEnd, TotalLength, CoveredTicks, Overlap;
    CreditedAmongWork(operations, tick);
    EndAppend(OperationSpans(operations), WaitSpans(waits), tick);
    WorkArea(OperationSpans(operations), tick, work);
    WorkArea(CreditedSpans(operations), tick, credit);
    OverlapArea(CreditedSpans(operations), tick, credit);
    OverlapArea(OperationSpans(operations) + WaitSpans(waits), tick, exposed);
  }

  lemma EndAppend(a: seq<Span>, b: seq<Span>, hi: int)
    requires EndBy(a, hi) && EndBy(b, hi)
    ensures EndBy(a + b, hi)
  {
  }

  lemma WorkArea(spans: seq<Span>, hi: nat, f: int -> int)
    requires EndBy(spans, hi) && forall t :: f(t) == Cover(spans, t)
    ensures Area(0, hi, f) == TotalLength(spans)
  {
    AreaOfCover(spans, hi);
    AreaCongruent(0, hi, f, t => Cover(spans, t));
  }

  lemma OverlapArea(spans: seq<Span>, hi: nat, f: int -> int)
    requires EndBy(spans, hi) && forall t :: f(t) == Cover(spans, t)
    ensures Area(0, hi, Overlap(f)) == TotalLength(spans) - |CoveredTicks(spans)|
  {
    AreaOfExcess(spans, hi);
    AreaCongruent(0, hi, Overlap(f), t => Excess(Cover(spans, t)));
  }

  lemma {:induction false} RunTracks(a: Accumulator, run: seq<Observation>, base: Integrals, begin: nat, c: Carving)
    requires Runs.RunInvariant(a) && ContiguousRun(a, run)
    requires Begun(a, begin, c) && TracksCarving(a, base, begin, c)
    ensures Runs.Replay(a, run).Success?
    ensures var carved := CarveRun(a, run, begin, c);
            SameAreas(Runs.Replay(a, run).value.integrals, base, ReferenceTotals(carved.0, carved.1))
    decreases |run|
  {
    hide Runs.RunInvariant, Fold, Begun, TracksCarving, SameAreas, CarveStep, CarvedOperations, CarvedWaits, ReferenceTotals, Next;
    if run == [] {
      TracksAreTotals(a, base, begin, c);
    } else {
      var o := run[0];
      FoldedContiguous(a, o);
      Runs.FoldKeepsInvariant(a, o);
      InvariantParts(a);
      StepTracks(a, o, base, begin, c);
      StepBegun(a, o, begin, c);
      RunTracks(Fold(a, o).value, run[1..], base, begin, CarveStep(a, o, begin, c));
    }
  }

  lemma FoldedContiguous(a: Accumulator, o: Observation)
    requires Fold(a, o).Success? && a.source.revision < o.revision
    ensures Fold(a, o).value == Next(a, o) && ValidObservation(o)
  {
  }

  lemma InvariantParts(a: Accumulator)
    requires Runs.RunInvariant(a)
    ensures Consistent(a) && Laws.WellKinded(a.open)
  {
  }

  ghost function NoCarving(begin: nat): Carving {
    Carving([], [], (h: Hash) => begin)
  }

  lemma NothingCarved(a: Accumulator)
    requires Consistent(a)
    ensures Begun(a, a.source.tick, NoCarving(a.source.tick))
    ensures TracksCarving(a, a.integrals, a.source.tick, NoCarving(a.source.tick))
  {
    var begin, c := a.source.tick, NoCarving(a.source.tick);
    NoTracks(a.integrals, begin, Work(a.open, begin, c), Credit(a.open, begin, c), Exposed(a.open, begin, begin, c)) by {
      forall t: int | 0 <= t < begin { NothingCovered(a.open, begin, t); }
    }
  }

  lemma NoTracks(i: Integrals, tick: nat, work: int -> int, credit: int -> int, exposed: int -> int)
    requires forall t :: 0 <= t < tick ==> work(t) == 0 && credit(t) == 0 && exposed(t) == 0
    ensures Tracks(i, i, tick, work, credit, exposed)
  {
    hide Area;
    NoArea(tick, work);
    NoArea(tick, credit);
    NoOverlap(tick, credit);
    NoOverlap(tick, exposed);
  }

  lemma NoArea(tick: nat, f: int -> int)
    requires forall t :: 0 <= t < tick ==> f(t) == 0
    ensures Area(0, tick, f) == 0
  {
    AreaConstant(0, tick, f, 0);
  }

  lemma NoOverlap(tick: nat, f: int -> int)
    requires forall t :: 0 <= t < tick ==> f(t) == 0
    ensures Area(0, tick, Overlap(f)) == 0
  {
    AreaConstant(0, tick, Overlap(f), 0);
  }

  lemma NothingCovered(open: Open, begin: nat, t: int)
    requires t < begin
    ensures Work(open, begin, NoCarving(begin))(t) == 0
    ensures Credit(open, begin, NoCarving(begin))(t) == 0
    ensures Exposed(open, begin, begin, NoCarving(begin))(t) == 0
  {
    hide OperationsOf, WaitsOf;
    var c := NoCarving(begin);
    CarvedCover([], open.active, c.starts, begin, t);
    IL.TotalZero(open.active, Running(c.starts, begin, t, false));
    IL.TotalZero(open.active, Running(c.starts, begin, t, true));
    WaitsCarvedCover([], open.readiness, open.active, begin, begin, t);
    IL.TotalZero(open.readiness, Waiting(begin, begin, t));
    IL.TotalZero(open.active, Waiting(begin, begin, t));
  }

  // ---------- the sweep accepts what is carved ----------

  /** Every interval lies within the trace so far, the right way round, and every credit is accepted. */
  ghost predicate Placed(operations: seq<OperationInterval>, waits: seq<WaitInterval>, begin: nat, now: nat, context: CreditContext) {
    && OrderedSpans(operations, waits) && CreditsAccepted(operations, context)
    && (forall i :: 0 <= i < |operations| ==> begin <= operations[i].span.start && operations[i].span.end <= now)
    && (forall i :: 0 <= i < |waits| ==> begin <= waits[i].span.start && waits[i].span.end <= now)
  }

  lemma PlacedAppend(a: seq<OperationInterval>, x: seq<WaitInterval>, b: seq<OperationInterval>, y: seq<WaitInterval>, begin: nat, now: nat, context: CreditContext)
    requires Placed(a, x, begin, now, context) && Placed(b, y, begin, now, context)
    ensures Placed(a + b, x + y, begin, now, context)
  {
  }

  lemma PlacedLater(a: seq<OperationInterval>, x: seq<WaitInterval>, begin: nat, now: nat, later: nat, context: CreditContext)
    requires Placed(a, x, begin, now, context) && now <= later
    ensures Placed(a, x, begin, later, context)
  {
  }

  lemma {:induction false} OperationsPlaced(s: seq<OpenInterval>, starts: Hash -> nat, begin: nat, now: nat, context: CreditContext)
    requires forall h :: begin <= starts(h) <= now
    requires forall x :: x in s ==> Creditable(x.credit, context)
    ensures Placed(OperationsOf(s, starts, now), [], begin, now, context)
  {
    if s != [] {
      OperationsPlaced(s[1..], starts, begin, now, context);
      assert s[0] in s;
      var rest := OperationsOf(s[1..], starts, now);
      if s[0].kind == Operation {
        PlacedAppend([OperationInterval(s[0].hash, Span(starts(s[0].hash), now), s[0].credit)], [], rest, [], begin, now, context);
      } else {
        assert OperationsOf(s, starts, now) == rest;
      }
    }
  }

  lemma {:induction false} WaitsPlaced(s: seq<OpenInterval>, begin: nat, now: nat, context: CreditContext)
    requires begin <= now && forall x :: x in s ==> x.openedAt <= now
    ensures Placed([], WaitsOf(s, begin, now), begin, now, context)
  {
    if s != [] {
      WaitsPlaced(s[1..], begin, now, context);
      assert s[0] in s;
      var rest := WaitsOf(s[1..], begin, now);
      if IsWait(s[0]) {
        PlacedAppend([], [WaitInterval(s[0].hash, Span(Later(begin, s[0].openedAt), now))], [], rest, begin, now, context);
      } else {
        assert WaitsOf(s, begin, now) == rest;
      }
    }
  }

  ghost predicate CarvingPlaced(a: Accumulator, begin: nat, c: Carving) {
    && begin <= a.source.tick
    && (forall h :: begin <= c.starts(h) <= a.source.tick)
    && Placed(c.operations, c.waits, begin, a.source.tick, a.context)
  }

  /** Cutting off some open operations and waits at a tick adds intervals that are placed. */
  lemma CutsPlaced(c: Carving, cut: seq<OpenInterval>, readiness: seq<OpenInterval>, active: seq<OpenInterval>, begin: nat, now: nat, context: CreditContext)
    requires begin <= now && Placed(c.operations, c.waits, begin, now, context) && forall h :: begin <= c.starts(h) <= now
    requires forall x :: x in cut ==> Creditable(x.credit, context)
    requires forall x :: x in readiness || x in active ==> x.openedAt <= now
    ensures Placed(c.operations + OperationsOf(cut, c.starts, now), c.waits + WaitsOf(readiness, begin, now) + WaitsOf(active, begin, now), begin, now, context)
  {
    hide Placed, OperationsOf, WaitsOf;
    OperationsPlaced(cut, c.starts, begin, now, context);
    WaitsPlaced(readiness, begin, now, context);
    WaitsPlaced(active, begin, now, context);
    PlacedAppend(c.operations, c.waits, [], WaitsOf(readiness, begin, now), begin, now, context);
    assert c.operations + [] == c.operations && [] + OperationsOf(cut, c.starts, now) == OperationsOf(cut, c.starts, now);
    PlacedAppend(c.operations, c.waits + WaitsOf(readiness, begin, now), [], WaitsOf(active, begin, now), begin, now, context);
    var waits := c.waits + WaitsOf(readiness, begin, now) + WaitsOf(active, begin, now);
    PlacedAppend(c.operations, waits, OperationsOf(cut, c.starts, now), [], begin, now, context);
    assert waits + [] == waits;
  }

  lemma StartsPlaced(active: seq<OpenInterval>, o: Observation, starts: Hash -> nat, begin: nat, tick: nat)
    requires begin <= tick <= o.tick && forall h :: begin <= starts(h) <= tick
    ensures forall h :: begin <= NextStarts(active, o, starts)(h) <= o.tick
  {
  }

  lemma OpenParts(a: Accumulator)
    requires Consistent(a)
    ensures forall x :: x in a.open.readiness || x in a.open.active ==> x.openedAt <= a.source.tick
    ensures forall x :: x in a.open.active ==> Creditable(x.credit, a.context)
  {
  }

  lemma CarvingParts(a: Accumulator, begin: nat, c: Carving)
    requires CarvingPlaced(a, begin, c)
    ensures begin <= a.source.tick && forall h :: begin <= c.starts(h) <= a.source.tick
    ensures Placed(c.operations, c.waits, begin, a.source.tick, a.context)
  {
  }

  lemma CarvingWhole(a: Accumulator, begin: nat, c: Carving)
    requires begin <= a.source.tick && forall h :: begin <= c.starts(h) <= a.source.tick
    requires Placed(c.operations, c.waits, begin, a.source.tick, a.context)
    ensures CarvingPlaced(a, begin, c)
  {
  }

  lemma StepPlaced(a: Accumulator, o: Observation, begin: nat, c: Carving)
    requires Consistent(a) && a.source.revision < o.revision && Contiguous(a, o) && CarvingPlaced(a, begin, c)
    ensures CarvingPlaced(Next(a, o), begin, CarveStep(a, o, begin, c))
  {
    hide *;
    OpenParts(a);
    NextParts(a, o);
    NextContext(a, o);
    CarvingParts(a, begin, c);
    StartsPlaced(a.open.active, o, c.starts, begin, a.source.tick);
    PlacedLater(c.operations, c.waits, begin, a.source.tick, o.tick, a.context);
    var cut := Filter(a.open.active, CutHere(o));
    var readiness, active := Filter(a.open.readiness, Ends(o.ready, ReadyKind())), Filter(a.open.active, EndsActive(o));
    CutsPlaced(c, cut, readiness, active, begin, o.tick, a.context);
    CarveParts(a, o, begin, c);
    CarvingWhole(Next(a, o), begin, CarveStep(a, o, begin, c));
  }

  lemma CarveParts(a: Accumulator, o: Observation, begin: nat, c: Carving)
    ensures var next := CarveStep(a, o, begin, c);
            && next.operations == c.operations + OperationsOf(Filter(a.open.active, CutHere(o)), c.starts, o.tick)
            && next.waits == c.waits + WaitsOf(Filter(a.open.readiness, Ends(o.ready, ReadyKind())), begin, o.tick) + WaitsOf(Filter(a.open.active, EndsActive(o)), begin, o.tick)
            && next.starts == NextStarts(a.open.active, o, c.starts)
  {
  }

  lemma NextContext(a: Accumulator, o: Observation)
    requires a.source.revision < o.revision && Contiguous(a, o)
    ensures var n := Next(a, o);
            && n.context == a.context && a.source.tick <= n.source.tick
            && n.integrals.autonomousElapsed == a.integrals.autonomousElapsed + (n.source.tick - a.source.tick)
  {
  }

  lemma {:induction false} RunPlaced(a: Accumulator, run: seq<Observation>, begin: nat, c: Carving)
    requires Runs.RunInvariant(a) && ContiguousRun(a, run) && CarvingPlaced(a, begin, c) && Runs.Replay(a, run).Success?
    ensures var (carved, end) := (CarveRun(a, run, begin, c), Runs.Replay(a, run).value);
            && Placed(carved.0, carved.1, begin, end.source.tick, a.context)
            && 0 <= end.source.tick - a.source.tick == end.integrals.autonomousElapsed - a.integrals.autonomousElapsed
    decreases |run|
  {
    hide Runs.RunInvariant, Fold, CarvingPlaced, CarveStep, Next, Placed;
    InvariantParts(a);
    if run == [] {
      EndPlaced(a, begin, c);
    } else {
      var o := run[0];
      FoldedContiguous(a, o);
      Runs.FoldKeepsInvariant(a, o);
      NextContext(a, o);
      StepPlaced(a, o, begin, c);
      RunPlaced(Fold(a, o).value, run[1..], begin, CarveStep(a, o, begin, c));
    }
  }

  lemma EndPlaced(a: Accumulator, begin: nat, c: Carving)
    requires Consistent(a) && CarvingPlaced(a, begin, c)
    ensures Placed(CarvedOperations(a.open, a.source.tick, c), CarvedWaits(a.open, a.source.tick, begin, c), begin, a.source.tick, a.context)
  {
    ConsistentParts(a);
    hide OperationsOf, WaitsOf, Placed, Consistent;
    CutsPlaced(c, a.open.active, a.open.readiness, a.open.active, begin, a.source.tick, a.context);
  }

  /** The same intervals under the hashes n, n + 1 and so on: the pieces of one operation get hashes of their own. */
  function RelabelOperations(operations: seq<OperationInterval>, n: nat): (r: seq<OperationInterval>)
    ensures |r| == |operations|
    ensures forall i :: 0 <= i < |r| ==> r[i] == operations[i].(hash := n + i)
  {
    if operations == [] then [] else [operations[0].(hash := n)] + RelabelOperations(operations[1..], n + 1)
  }

  function RelabelWaits(waits: seq<WaitInterval>, n: nat): (r: seq<WaitInterval>)
    ensures |r| == |waits|
    ensures forall i :: 0 <= i < |r| ==> r[i] == waits[i].(hash := n + i)
  {
    if waits == [] then [] else [waits[0].(hash := n)] + RelabelWaits(waits[1..], n + 1)
  }

  lemma {:induction false} RelabelledOperationSpans(operations: seq<OperationInterval>, n: nat)
    ensures OperationSpans(RelabelOperations(operations, n)) == OperationSpans(operations)
    ensures CreditedSpans(RelabelOperations(operations, n)) == CreditedSpans(operations)
  {
    if operations != [] {
      RelabelledOperationSpans(operations[1..], n + 1);
      assert RelabelOperations(operations, n)[1..] == RelabelOperations(operations[1..], n + 1);
    }
  }

  lemma {:induction false} RelabelledWaitSpans(waits: seq<WaitInterval>, n: nat)
    ensures WaitSpans(RelabelWaits(waits, n)) == WaitSpans(waits)
  {
    if waits != [] {
      RelabelledWaitSpans(waits[1..], n + 1);
      assert RelabelWaits(waits, n)[1..] == RelabelWaits(waits[1..], n + 1);
    }
  }

  /** The sweep of the carved intervals, each under a hash of its own. */
  function CarvedSweep(operations: seq<OperationInterval>, waits: seq<WaitInterval>, context: CreditContext): Result<Totals, SweepError> {
    SweepTotals(RelabelOperations(operations, 0), RelabelWaits(waits, |operations|), context)
  }

  lemma CarvedSweepSucceeds(operations: seq<OperationInterval>, waits: seq<WaitInterval>, context: CreditContext)
    requires ValidContext(context) && OrderedSpans(operations, waits) && CreditsAccepted(operations, context)
    ensures CarvedSweep(operations, waits, context) == Success(ReferenceTotals(operations, waits))
  {
    hide Creditable, ValidContext;
    RelabelledTotals(operations, waits);
    RelabelledValid(operations, waits, context);
    hide ReferenceTotals, ValidSweepInput, RelabelOperations, RelabelWaits;
  }

  lemma RelabelledTotals(operations: seq<OperationInterval>, waits: seq<WaitInterval>)
    ensures ReferenceTotals(RelabelOperations(operations, 0), RelabelWaits(waits, |operations|)) == ReferenceTotals(operations, waits)
  {
    RelabelledOperationSpans(operations, 0);
    RelabelledWaitSpans(waits, |operations|);
    hide RelabelOperations, RelabelWaits, OperationSpans, CreditedSpans, WaitSpans, EarliestStart, LatestEnd, TotalLength, CoveredTicks;
  }

  lemma RelabelledValid(operations: seq<OperationInterval>, waits: seq<WaitInterval>, context: CreditContext)
    requires ValidContext(context) && OrderedSpans(operations, waits) && CreditsAccepted(operations, context)
    ensures ValidSweepInput(RelabelOperations(operations, 0), RelabelWaits(waits, |operations|), context)
  {
    hide Creditable, ValidContext, RelabelOperations, RelabelWaits;
  }

  /** The time from the first start to the last end is no more than the trace took. */
  lemma ElapsedWithin(operations: seq<OperationInterval>, waits: seq<WaitInterval>, begin: nat, now: nat, context: CreditContext)
    requires Placed(operations, waits, begin, now, context) && begin <= now
    ensures ReferenceTotals(operations, waits).autonomousElapsed <= now - begin
  {
    hide TotalLength, CoveredTicks, EarliestStart, LatestEnd;
    var exposed := OperationSpans(operations) + WaitSpans(waits);
    EventTimes(operations, waits);
    if exposed != [] {
      SpansWithin(operations, waits, begin, now);
      ExtremesWithin(exposed, begin, now);
    }
  }

  lemma {:induction false} SpansWithin(operations: seq<OperationInterval>, waits: seq<WaitInterval>, begin: nat, now: nat)
    requires forall i :: 0 <= i < |operations| ==> begin <= operations[i].span.start && operations[i].span.end <= now
    requires forall i :: 0 <= i < |waits| ==> begin <= waits[i].span.start && waits[i].span.end <= now
    ensures forall s :: s in OperationSpans(operations) + WaitSpans(waits) ==> begin <= s.start && s.end <= now
    decreases |operations| + |waits|
  {
    if operations != [] {
      SpansWithin(operations[1..], waits, begin, now);
    } else if waits != [] {
      SpansWithin([], waits[1..], begin, now);
    }
  }

  lemma ExtremesWithin(spans: seq<Span>, begin: nat, now: nat)
    requires spans != [] && forall s :: s in spans ==> begin <= s.start && s.end <= now
    ensures begin <= EarliestStart(spans) && LatestEnd(spans) <= now
  {
    Extremes(spans);
  }

  /**
   * Over any contiguous same-clock trace from any reachable accumulator, the event sweep accepts the
   * intervals carved from the trace, each under a hash of its own, and returns exactly what the fold added to its
   * operation, creditable, overlap and opportunity integrals. The sweep leaves out idle ends of the trace, so its
   * elapsed time is at most the fold's.
   */
  lemma FoldRefinesSweep(a: Accumulator, run: seq<Observation>)
    requires Runs.RunInvariant(a) && ContiguousRun(a, run)
    ensures Runs.Replay(a, run).Success?
    ensures var carved := CarveRun(a, run, a.source.tick, NoCarving(a.source.tick));
            var sweep, end := CarvedSweep(carved.0, carved.1, a.context), Runs.Replay(a, run).value.integrals;
            && sweep.Success? && SameAreas(end, a.integrals, sweep.value)
            && sweep.value.autonomousElapsed <= end.autonomousElapsed - a.integrals.autonomousElapsed
  {
    hide *;
    var begin, c := a.source.tick, NoCarving(a.source.tick);
    InvariantParts(a);
    ContextValid(a);
    NothingCarved(a);
    NothingPlaced(a);
    RunTracks(a, run, a.integrals, begin, c);
    RunPlaced(a, run, begin, c);
    var carved, now := CarveRun(a, run, begin, c), Runs.Replay(a, run).value.source.tick;
    PlacedParts(carved.0, carved.1, begin, now, a.context);
    CarvedSweepSucceeds(carved.0, carved.1, a.context);
    ElapsedWithin(carved.0, carved.1, begin, now, a.context);
  }

  lemma ContextValid(a: Accumulator)
    requires Consistent(a)
    ensures ValidContext(a.context)
  {
  }

  lemma PlacedParts(operations: seq<OperationInterval>, waits: seq<WaitInterval>, begin: nat, now: nat, context: CreditContext)
    requires Placed(operations, waits, begin, now, context)
    ensures OrderedSpans(operations, waits) && CreditsAccepted(operations, context)
  {
  }

  lemma NothingPlaced(a: Accumulator)
    ensures CarvingPlaced(a, a.source.tick, NoCarving(a.source.tick))
  {
  }
}
