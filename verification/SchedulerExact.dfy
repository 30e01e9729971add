/**
 * Refusals are exact: each admission code marks a slot whose selection would break one of the batch's safety
 * predicates, so the batch is as large as safety, reservations, exclusions and the fairness rule let it be.
 */
module SchedulerExact {
  import opened FiniteSets
  import opened Wrappers
  import opened SlotOrder
  import opened Scheduler
  import opened SchedulerLaws
  import opened SchedulerLoop

  // ---------- each code against what it protects ----------

  /** A slot overdraws the pools exactly when taking it would leave them unsafe. */
  lemma CapacityExactly(pools: map<Id, Pool>, held: map<Id, int>, selected: seq<Slot>, of: Slot -> map<Id, nat>, s: Slot)
    requires PoolsSafe(pools, held, selected, of)
    ensures Overdrawn(pools, held, of(s)) <==> !PoolsSafe(pools, Add(held, of(s)), selected + [s], of)
  {
    if Overdrawn(pools, held, of(s)) {
      var id :| id in of(s) && (id !in pools || Amount(held, id) + of(s)[id] > pools[id].capacity);
      assert (selected + [s])[|selected|] == s;
    } else {
      PoolsStaySafe(pools, held, selected, of, s);
    }
  }

  lemma LanesExactly(run: Run, t: Tentative, s: Slot)
    requires LanesSafe(run, t)
    ensures LaneFull(run, s, t) <==> !LanesSafe(run, Take(t, s))
  {
    if LaneFull(run, s, t) {
      assert |t.lanes + {s.workItemId}| == |t.lanes| + 1;
      SubsetSize(ActiveLanes(run), t.lanes);
    } else {
      LanesStaySafe(run, t, s);
    }
  }

  lemma MutexesExactly(run: Run, t: Tentative, s: Slot)
    requires MutexesSafe(run, t)
    ensures MutexTaken(s, t) <==> !MutexesSafe(run, Take(t, s))
  {
    if MutexTaken(s, t) {
      var m :| m in s.mutexes && m in t.mutexes;
      var selected := Take(t, s).selected;
      assert selected[|t.selected|] == s;
      if HeldByRun(run, m) {
        var j :| 0 <= j < |run.reservations| && run.reservations[j].live && m in run.reservations[j].mutexes;
        assert !Apart(selected[|t.selected|].mutexes, run.reservations[j].mutexes);
      } else {
        var i :| 0 <= i < |t.selected| && m in t.selected[i].mutexes;
        assert selected[i] == t.selected[i];
        assert !Apart(selected[i].mutexes, s.mutexes);
      }
    } else {
      MutexesStaySafe(run, t, s);
    }
  }

  lemma ReservationsExactly(run: Run, selected: seq<Slot>, s: Slot)
    requires ReservationsSafe(run, selected) && forall i :: 0 <= i < |selected| ==> selected[i].workItemId != s.workItemId
    ensures Reserved(run, s.workItemId) <==> !ReservationsSafe(run, selected + [s])
  {
    assert (selected + [s])[|selected|] == s;
  }

  // ---------- exclusions ----------

  /** A reservation, held or just selected, puts the work item in one of the phases. */
  predicate Occupies(run: Run, selected: seq<Slot>, id: Id, phases: set<nat>) {
    || (exists i :: 0 <= i < |run.reservations| && run.reservations[i].live && run.reservations[i].workItemId == id && run.reservations[i].stage in phases)
    || (exists i :: 0 <= i < |selected| && selected[i].workItemId == id && selected[i].stage in phases)
  }

  /** The work item has a lane and is in one of the phases. */
  predicate Underway(run: Run, id: Id, phases: set<nat>) {
    id in run.lanes && !run.lanes[id].released && id in run.currentStage && run.currentStage[id] in phases
  }

  /** Admission order: a lane precedes every later one, and every work item without a lane. */
  predicate AdmittedFirst(run: Run, a: Id, b: Id)
    requires a in run.lanes
  {
    b in run.lanes && !run.lanes[b].released ==>
      run.lanes[a].admissionSequence < run.lanes[b].admissionSequence || (run.lanes[a].admissionSequence == run.lanes[b].admissionSequence && a < b)
  }

  /** A member of an active exclusion over the slot occupies a phase, or got its lane first and is under way in one. */
  predicate KeepsOut(run: Run, selected: seq<Slot>, e: Exclusion, s: Slot, id: Id) {
    && e.active && id in e.workItemIds && s.workItemId in e.workItemIds && s.stage in e.phases
    && (Occupies(run, selected, id, e.phases) || (id != s.workItemId && Underway(run, id, e.phases) && AdmittedFirst(run, id, s.workItemId)))
  }

  ghost predicate KeptOut(run: Run, selected: seq<Slot>, s: Slot) {
    exists k, id :: 0 <= k < |run.exclusions| && KeepsOut(run, selected, run.exclusions[k], s, id)
  }

  lemma ExclusionExactly(run: Run, selected: seq<Slot>, s: Slot)
    ensures Excluded(run, selected, s) <==> KeptOut(run, selected, s)
  {
    forall e, id
      ensures KeepsOut(run, selected, e, s, id) <==>
                e.active && id in e.workItemIds && s.workItemId in e.workItemIds && s.stage in e.phases && MemberActive(run, selected, e, s.workItemId, id)
    {
    }
    hide MemberActive, KeepsOut;
    if Excluded(run, selected, s) {
      var k :| 0 <= k < |run.exclusions| && ExcludedBy(run, selected, run.exclusions[k], s);
      var id :| id in run.exclusions[k].workItemIds && MemberActive(run, selected, run.exclusions[k], s.workItemId, id);
      assert KeepsOut(run, selected, run.exclusions[k], s, id);
    }
    if k, id :| 0 <= k < |run.exclusions| && KeepsOut(run, selected, run.exclusions[k], s, id) {
      assert MemberActive(run, selected, run.exclusions[k], s.workItemId, id);
      assert ExcludedBy(run, selected, run.exclusions[k], s);
    }
  }

  /** Of two work items with lanes exactly one precedes the other, so an exclusion never keeps both waiting for each other. */
  lemma AdmissionDecides(run: Run, a: Id, b: Id)
    requires a != b && LaneActive(run, a) && LaneActive(run, b)
    ensures LanePrecedes(run, a, b) <==> !LanePrecedes(run, b, a)
    ensures LanePrecedes(run, a, b) <==> AdmittedFirst(run, a, b)
  {
  }

  // ---------- competition ----------

  /** A mutex or a pool stops the slot. */
  predicate Short(run: Run, t: Tentative, s: Slot) {
    MutexTaken(s, t) || Overdrawn(run.resourcePools, t.resources, s.resources) || Overdrawn(run.operationalPools, t.operational, s.operational)
  }

  /** In this situation taking the other slot stops the waiter, which nothing stopped before. */
  predicate Starves(run: Run, t: Tentative, waiter: Slot, other: Slot) {
    !Short(run, t, waiter) && Short(run, Take(t, other), waiter)
  }

  /** Pools with just the capacity that is asked for. */
  function Exactly(demand: map<Id, nat>): map<Id, Pool> {
    map id | id in demand :: Pool(0, demand[id])
  }

  function Tight(w: Slot): Run {
    Run(1, map[], [], Exactly(w.resources), Exactly(w.operational), [], map[])
  }

  /** Two slots compete exactly when in some situation taking the other one stops the waiter. */
  lemma CompetesExactly(w: Slot, o: Slot)
    ensures Competes(w, o) <==> exists run, t :: Starves(run, t, w, o)
  {
    if Competes(w, o) {
      TightFits(w);
      TightStarves(w, o);
      assert Starves(Tight(w), Initially(Tight(w)), w, o);
    }
    if run, t :| Starves(run, t, w, o) {
      hide Competes;
      if !Competes(w, o) {
        NoCompetitionNoHarm(run, t, w, o);
      }
    }
  }

  lemma TightFits(w: Slot)
    ensures !Short(Tight(w), Initially(Tight(w)), w)
  {
    FitsExactly(w.resources);
    FitsExactly(w.operational);
    hide Overdrawn, InUse;
  }

  lemma FitsExactly(demand: map<Id, nat>)
    ensures !Overdrawn(Exactly(demand), InUse(Exactly(demand)), demand)
  {
  }

  lemma OverflowsBy(demand: map<Id, nat>, more: map<Id, nat>, id: Id)
    requires id in demand && id in more && more[id] > 0
    ensures Overdrawn(Exactly(demand), Add(InUse(Exactly(demand)), more), demand)
  {
    assert Amount(Add(InUse(Exactly(demand)), more), id) == more[id];
  }

  lemma TightStarves(w: Slot, o: Slot)
    requires Competes(w, o)
    ensures Short(Tight(w), Take(Initially(Tight(w)), o), w)
  {
    hide Overdrawn, InUse, Add;
    if id :| id in w.resources && id in o.resources && o.resources[id] > 0 {
      OverflowsBy(w.resources, o.resources, id);
    } else if id :| id in w.operational && id in o.operational && o.operational[id] > 0 {
      OverflowsBy(w.operational, o.operational, id);
    }
  }

  lemma SameAmounts(pools: map<Id, Pool>, held: map<Id, int>, more: map<Id, nat>, demand: map<Id, nat>)
    requires !Overdrawn(pools, held, demand) && forall id :: id in demand && id in more ==> more[id] == 0
    ensures !Overdrawn(pools, Add(held, more), demand)
  {
    forall id | id in demand ensures Amount(Add(held, more), id) == Amount(held, id) {
    }
  }

  lemma NoCompetitionNoHarm(run: Run, t: Tentative, w: Slot, o: Slot)
    requires !Competes(w, o) && !Short(run, t, w)
    ensures !Short(run, Take(t, o), w)
  {
    hide Overdrawn, Add;
    SameAmounts(run.resourcePools, t.resources, o.resources, w.resources);
    SameAmounts(run.operationalPools, t.operational, o.operational, w.operational);
  }

  // ---------- the fairness rule ----------

  /** The first open waiter whose turn is due and that is refused. */
  ghost predicate TopWaiter(run: Run, ready: set<Slot>, t: Tentative, w: Slot) {
    && w in ready && w !in t.selected && w.fairnessReserved && Refused(run, w, t)
    && forall v :: v in ready && v !in t.selected && v.fairnessReserved && Refused(run, v, t) && v != w ==> Before(w, v)
  }

  /** Held back for the top waiter: another slot, without a lane of its own, that competes with it. */
  ghost predicate Yields(run: Run, ready: set<Slot>, t: Tentative, s: Slot) {
    exists w :: TopWaiter(run, ready, t, w) && s.slotId != w.slotId && !LaneActive(run, s.workItemId) && Competes(w, s)
  }

  lemma FairnessExactly(run: Run, ready: set<Slot>, t: Tentative, s: Slot)
    requires DistinctSet(ready)
    ensures (Waiters(run, ready, t) != {} && HeldBack(run, First(Waiters(run, ready, t)), s)) <==> Yields(run, ready, t, s)
  {
    hide Refused, Competes, Before;
    var waiters := Waiters(run, ready, t);
    if waiters != {} {
      var first := First(waiters);
      assert first in waiters;
      assert TopWaiter(run, ready, t, first);
      forall w | TopWaiter(run, ready, t, w) ensures w == first {
        assert w in waiters;
        assert IsFirst(w, waiters);
        FirstUnique(w, first, waiters);
      }
    } else {
      forall w ensures !TopWaiter(run, ready, t, w) {
        assert w !in waiters;
      }
    }
  }

  // ---------- all codes, and the largest batch ----------

  /** In every state of the selection each code of an open slot says exactly what taking it would break. */
  lemma CodesExactly(run: Run, ready: set<Slot>, t: Tentative, s: Slot)
    requires DistinctSet(ready) && OnePerItem(ready) && FromReady(ready, t) && Safe(run, t) && s in Open(ready, t)
    ensures var codes, next := FinalCodes(run, ready, t, s), Take(t, s);
            && (LaneCapacity in codes <==> !LanesSafe(run, next))
            && (Mutex in codes <==> !MutexesSafe(run, next))
            && (ResourceCapacity in codes <==> !PoolsSafe(run.resourcePools, next.resources, next.selected, ResourcesOf()))
            && (OperationalCapacity in codes <==> !PoolsSafe(run.operationalPools, next.operational, next.selected, OperationalOf()))
            && (ExistingReservation in codes <==> !ReservationsSafe(run, next.selected))
            && (DynamicExclusion in codes <==> KeptOut(run, t.selected, s))
            && (FairnessReservation in codes <==> Yields(run, ready, t, s))
  {
    OtherItems(ready, t, s);
    hide *;
    LanesExactly(run, t, s);
    SafeParts(run, t);
    MutexesExactly(run, t, s);
    CapacityExactly(run.resourcePools, t.resources, t.selected, ResourcesOf(), s);
    CapacityExactly(run.operationalPools, t.operational, t.selected, OperationalOf(), s);
    ReservationsExactly(run, t.selected, s);
    FairnessExactly(run, ready, t, s);
    ExclusionExactly(run, t.selected, s);
    TakeParts(t, s);
    CodeParts(run, ready, t, s);
  }

  lemma OtherItems(ready: set<Slot>, t: Tentative, s: Slot)
    requires OnePerItem(ready) && FromReady(ready, t) && s in Open(ready, t)
    ensures forall i :: 0 <= i < |t.selected| ==> t.selected[i].workItemId != s.workItemId
  {
    forall i | 0 <= i < |t.selected| ensures t.selected[i].workItemId != s.workItemId {
      assert t.selected[i] in t.selected;
    }
  }

  lemma SafeParts(run: Run, t: Tentative)
    requires Safe(run, t)
    ensures PoolsSafe(run.resourcePools, t.resources, t.selected, ResourcesOf())
    ensures PoolsSafe(run.operationalPools, t.operational, t.selected, OperationalOf())
    ensures LanesSafe(run, t) && MutexesSafe(run, t) && ReservationsSafe(run, t.selected)
  {
  }

  lemma TakeParts(t: Tentative, s: Slot)
    ensures var next := Take(t, s);
            && next.selected == t.selected + [s]
            && next.resources == Add(t.resources, ResourcesOf()(s)) && next.operational == Add(t.operational, OperationalOf()(s))
    ensures ResourcesOf()(s) == s.resources && OperationalOf()(s) == s.operational
  {
  }

  lemma CodeParts(run: Run, ready: set<Slot>, t: Tentative, s: Slot)
    requires DistinctSet(ready)
    ensures var codes := FinalCodes(run, ready, t, s);
            && (LaneCapacity in codes <==> LaneFull(run, s, t))
            && (Mutex in codes <==> MutexTaken(s, t))
            && (ResourceCapacity in codes <==> Overdrawn(run.resourcePools, t.resources, s.resources))
            && (OperationalCapacity in codes <==> Overdrawn(run.operationalPools, t.operational, s.operational))
            && (ExistingReservation in codes <==> Reserved(run, s.workItemId))
            && (DynamicExclusion in codes <==> Excluded(run, t.selected, s))
            && (FairnessReservation in codes <==> Waiters(run, ready, t) != {} && HeldBack(run, First(Waiters(run, ready, t)), s))
  {
    hide WithAdmission, HeldBack, Waiters;
    OwnCodeParts(run, t, s);
  }

  lemma OwnCodeParts(run: Run, t: Tentative, s: Slot)
    ensures var codes := WithAdmission(run, s, t);
            && (LaneCapacity in codes <==> LaneFull(run, s, t))
            && (Mutex in codes <==> MutexTaken(s, t))
            && (ResourceCapacity in codes <==> Overdrawn(run.resourcePools, t.resources, s.resources))
            && (OperationalCapacity in codes <==> Overdrawn(run.operationalPools, t.operational, s.operational))
            && (ExistingReservation in codes <==> Reserved(run, s.workItemId))
            && (DynamicExclusion in codes <==> Excluded(run, t.selected, s))
            && FairnessReservation !in codes
  {
    hide LaneFull, MutexTaken, Overdrawn, Reserved, Excluded;
  }

  /**
   * No ready slot left out could be added: it would break the safety of the lanes, the mutexes, a pool or the
   * reservations, or it is excluded, or it has to yield to the top waiter.
   */
  lemma NothingToAdd(run: Run, ready: set<Slot>, s: Slot)
    requires DistinctSet(ready) && OnePerItem(ready)
    requires s in ready && s !in Greedy(run, ready, Initially(run)).selected
    ensures var t := Greedy(run, ready, Initially(run)); var next := Take(t, s);
            || !LanesSafe(run, next) || !MutexesSafe(run, next)
            || !PoolsSafe(run.resourcePools, next.resources, next.selected, ResourcesOf())
            || !PoolsSafe(run.operationalPools, next.operational, next.selected, OperationalOf())
            || !ReservationsSafe(run, next.selected) || KeptOut(run, t.selected, s) || Yields(run, ready, t, s)
  {
    var t := Greedy(run, ready, Initially(run));
    hide Greedy, Initially, Safe, LanesSafe, MutexesSafe, PoolsSafe, ReservationsSafe, KeptOut, Yields, FinalCodes, Admissible, OnePerItem, DistinctSet;
    BatchIsSafe(run, ready);
    GreedyMaximal(run, ready, Initially(run));
    NoneAdmissible(run, ready, t, s);
    AdmissibleIffNoCodes(run, ready, t, s);
    CodesExactly(run, ready, t, s);
  }
}
