/** What every batch of the greedy scheduler satisfies. */
module SchedulerLaws {
  import opened Wrappers
  import opened SlotOrder
  import opened Scheduler

  /** One slot per work item, as the frontier is derived. */
  predicate OnePerItem(ready: set<Slot>) {
    forall a, b :: a in ready && b in ready && (a.slotId == b.slotId || a.workItemId == b.workItemId) ==> a == b
  }

  // ---------- joint safety ----------

  function Units(selected: seq<Slot>, of: Slot -> map<Id, nat>, id: Id): int {
    if selected == [] then 0
    else
      var last := selected[|selected| - 1];
      Units(selected[..|selected| - 1], of, id) + (if id in of(last) then of(last)[id] else 0)
  }

  function ResourcesOf(): Slot -> map<Id, nat> { (s: Slot) => s.resources }
  function OperationalOf(): Slot -> map<Id, nat> { (s: Slot) => s.operational }

  /** Held amounts are what was in use plus what the batch takes, and no touched pool is overdrawn. */
  ghost predicate PoolsSafe(pools: map<Id, Pool>, held: map<Id, int>, selected: seq<Slot>, of: Slot -> map<Id, nat>) {
    && (forall id :: Amount(held, id) == (if id in pools then pools[id].inUse else 0) + Units(selected, of, id))
    && (forall i, id :: 0 <= i < |selected| && id in of(selected[i]) ==> id in pools && Amount(held, id) <= pools[id].capacity)
  }

  predicate LanesSafe(run: Run, t: Tentative) {
    && ActiveLanes(run) <= t.lanes
    && (forall i :: 0 <= i < |t.selected| ==> t.selected[i].workItemId in t.lanes)
    && (forall id :: id in t.lanes ==> id in ActiveLanes(run) || exists i :: 0 <= i < |t.selected| && t.selected[i].workItemId == id)
    && |t.lanes| <= (if |ActiveLanes(run)| > run.maxActiveNodes then |ActiveLanes(run)| else run.maxActiveNodes)
  }

  predicate Apart(a: set<Id>, b: set<Id>) {
    forall m :: m in a ==> m !in b
  }

  predicate HeldByRun(run: Run, m: Id) {
    exists j :: 0 <= j < |run.reservations| && run.reservations[j].live && m in run.reservations[j].mutexes
  }

  predicate TakenBy(selected: seq<Slot>, m: Id) {
    exists i :: 0 <= i < |selected| && m in selected[i].mutexes
  }

  ghost predicate MutexesSafe(run: Run, t: Tentative) {
    && (forall i, j :: 0 <= i < |t.selected| && 0 <= j < |run.reservations| && run.reservations[j].live ==> Apart(t.selected[i].mutexes, run.reservations[j].mutexes))
    && (forall i, j :: 0 <= i < j < |t.selected| ==> Apart(t.selected[i].mutexes, t.selected[j].mutexes))
    && (forall m :: m in t.mutexes <==> HeldByRun(run, m) || TakenBy(t.selected, m))
  }

  predicate Together(e: Exclusion, a: Slot, b: Slot) {
    e.active && a.workItemId in e.workItemIds && a.stage in e.phases && b.workItemId in e.workItemIds && b.stage in e.phases
  }

  predicate ExclusionsSafe(run: Run, selected: seq<Slot>) {
    forall i, j, k :: 0 <= i < j < |selected| && 0 <= k < |run.exclusions| ==> !Together(run.exclusions[k], selected[i], selected[j])
  }

  predicate ReservationsSafe(run: Run, selected: seq<Slot>) {
    && (forall i, j :: 0 <= i < |selected| && 0 <= j < |run.reservations| && run.reservations[j].live ==> run.reservations[j].workItemId != selected[i].workItemId)
    && (forall i, j :: 0 <= i < j < |selected| ==> selected[i].workItemId != selected[j].workItemId)
  }

  /** Everything a batch must respect jointly with what the run already holds. */
  ghost predicate Safe(run: Run, t: Tentative) {
    && PoolsSafe(run.resourcePools, t.resources, t.selected, ResourcesOf())
    && PoolsSafe(run.operationalPools, t.operational, t.selected, OperationalOf())
    && LanesSafe(run, t)
    && MutexesSafe(run, t)
    && ExclusionsSafe(run, t.selected)
    && ReservationsSafe(run, t.selected)
  }

  lemma InitiallySafe(run: Run)
    ensures Safe(run, Initially(run))
  {
  }

  lemma PoolsStaySafe(pools: map<Id, Pool>, held: map<Id, int>, selected: seq<Slot>, of: Slot -> map<Id, nat>, s: Slot)
    requires PoolsSafe(pools, held, selected, of) && !Overdrawn(pools, held, of(s))
    ensures PoolsSafe(pools, Add(held, of(s)), selected + [s], of)
  {
    var held', selected' := Add(held, of(s)), selected + [s];
    assert selected'[..|selected'| - 1] == selected;
    forall i, id | 0 <= i < |selected'| && id in of(selected'[i]) ensures id in pools && Amount(held', id) <= pools[id].capacity {
      if id in of(s) {
      } else {
        assert id in of(selected[i]);
      }
    }
  }

  lemma LanesStaySafe(run: Run, t: Tentative, s: Slot)
    requires LanesSafe(run, t) && !LaneFull(run, s, t)
    ensures LanesSafe(run, Take(t, s))
  {
    var t' := Take(t, s);
    assert t'.selected[|t.selected|] == s;
    assert forall i :: 0 <= i < |t.selected| ==> t'.selected[i] == t.selected[i];
    if s.workItemId in t.lanes {
      assert t'.lanes == t.lanes;
    }
  }

  lemma MutexesStaySafe(run: Run, t: Tentative, s: Slot)
    requires MutexesSafe(run, t) && !MutexTaken(s, t)
    ensures MutexesSafe(run, Take(t, s))
  {
    var t' := Take(t, s);
    forall i, j | 0 <= i < j < |t'.selected| ensures Apart(t'.selected[i].mutexes, t'.selected[j].mutexes) {
      assert t'.selected[i] == t.selected[i];
    }
    forall m ensures m in t'.mutexes <==> HeldByRun(run, m) || TakenBy(t'.selected, m) {
      TakenByMore(t.selected, s, m);
    }
    forall i, j | 0 <= i < |t'.selected| && 0 <= j < |run.reservations| && run.reservations[j].live ensures Apart(t'.selected[i].mutexes, run.reservations[j].mutexes) {
      if i == |t.selected| {
        forall m | m in s.mutexes ensures m !in run.reservations[j].mutexes {
          assert m !in t.mutexes;
        }
      }
    }
  }

  lemma TakenByMore(selected: seq<Slot>, s: Slot, m: Id)
    ensures TakenBy(selected + [s], m) <==> TakenBy(selected, m) || m in s.mutexes
  {
    var more := selected + [s];
    assert more[|selected|] == s && forall i :: 0 <= i < |selected| ==> more[i] == selected[i];
  }

  lemma ExclusionsStaySafe(run: Run, selected: seq<Slot>, s: Slot)
    requires ExclusionsSafe(run, selected) && !Excluded(run, selected, s)
    ensures ExclusionsSafe(run, selected + [s])
  {
    var selected' := selected + [s];
    forall i, j, k | 0 <= i < j < |selected'| && 0 <= k < |run.exclusions| ensures !Together(run.exclusions[k], selected'[i], selected'[j]) {
      if j == |selected| && Together(run.exclusions[k], selected[i], s) {
        assert MemberActive(run, selected, run.exclusions[k], s.workItemId, selected[i].workItemId);
        assert ExcludedBy(run, selected, run.exclusions[k], s);
      }
    }
  }

  lemma ReservationsStaySafe(run: Run, selected: seq<Slot>, s: Slot)
    requires ReservationsSafe(run, selected) && !Reserved(run, s.workItemId)
    requires forall i :: 0 <= i < |selected| ==> selected[i].workItemId != s.workItemId
    ensures ReservationsSafe(run, selected + [s])
  {
  }

  lemma TakeStaysSafe(run: Run, t: Tentative, s: Slot)
    requires Safe(run, t) && !Refused(run, s, t)
    requires forall i :: 0 <= i < |t.selected| ==> t.selected[i].workItemId != s.workItemId
    ensures Safe(run, Take(t, s))
  {
    hide PoolsSafe, LanesSafe, MutexesSafe, ExclusionsSafe, ReservationsSafe, Overdrawn, LaneFull, MutexTaken, Excluded, Reserved;
    ReservationsStaySafe(run, t.selected, s);
    PoolsStaySafe(run.resourcePools, t.resources, t.selected, ResourcesOf(), s);
    PoolsStaySafe(run.operationalPools, t.operational, t.selected, OperationalOf(), s);
    LanesStaySafe(run, t, s);
    MutexesStaySafe(run, t, s);
    ExclusionsStaySafe(run, t.selected, s);
  }

  // ---------- along the selection ----------

  /** The selected slots are ready ones. */
  predicate FromReady(ready: set<Slot>, t: Tentative) {
    forall i :: 0 <= i < |t.selected| ==> t.selected[i] in ready
  }

  lemma ChosenFits(run: Run, ready: set<Slot>, t: Tentative, s: Slot)
    requires OnePerItem(ready) && DistinctSet(ready) && FromReady(ready, t) && s in Candidates(run, ready, t)
    ensures !Refused(run, s, t) && s in ready
    ensures forall i :: 0 <= i < |t.selected| ==> t.selected[i].workItemId != s.workItemId
  {
    hide Refused;
    forall i | 0 <= i < |t.selected| ensures t.selected[i].workItemId != s.workItemId {
      assert t.selected[i] in t.selected;
    }
  }

  lemma {:induction false} GreedySafe(run: Run, ready: set<Slot>, t: Tentative)
    requires OnePerItem(ready) && DistinctSet(ready) && FromReady(ready, t) && Safe(run, t)
    ensures Safe(run, Greedy(run, ready, t)) && FromReady(ready, Greedy(run, ready, t))
    decreases |Open(ready, t)|
  {
    hide Safe, Candidates, OnePerItem;
    var candidates := Candidates(run, ready, t);
    if candidates != {} {
      CandidatesDistinct(run, ready, t);
      var s := First(candidates);
      ChosenFits(run, ready, t, s);
      TakeStaysSafe(run, t, s);
      ChosenOpen(run, ready, t, s);
      TakeShrinks(ready, t, s);
      GreedySafe(run, ready, Take(t, s));
    }
  }

  lemma CandidatesDistinct(run: Run, ready: set<Slot>, t: Tentative)
    requires DistinctSet(ready)
    ensures DistinctSet(Candidates(run, ready, t))
  {
  }

  lemma ChosenOpen(run: Run, ready: set<Slot>, t: Tentative, s: Slot)
    requires DistinctSet(ready) && s in Candidates(run, ready, t)
    ensures s in Open(ready, t)
  {
  }

  /** Every selected batch is jointly safe with what is already held. */
  lemma BatchIsSafe(run: Run, ready: set<Slot>)
    requires OnePerItem(ready) && DistinctSet(ready)
    ensures Safe(run, Greedy(run, ready, Initially(run)))
    ensures FromReady(ready, Greedy(run, ready, Initially(run)))
  {
    hide Safe, Greedy;
    InitiallySafe(run);
    GreedySafe(run, ready, Initially(run));
  }

  /** The selection is maximal: when it stops, no open ready slot is admissible. */
  lemma {:induction false} GreedyMaximal(run: Run, ready: set<Slot>, t: Tentative)
    requires DistinctSet(ready)
    ensures Candidates(run, ready, Greedy(run, ready, t)) == {}
    decreases |Open(ready, t)|
  {
    hide Candidates;
    var candidates := Candidates(run, ready, t);
    if candidates != {} {
      CandidatesDistinct(run, ready, t);
      var s := First(candidates);
      ChosenOpen(run, ready, t, s);
      TakeShrinks(ready, t, s);
      GreedyMaximal(run, ready, Take(t, s));
    }
  }

  // ---------- refusals are never withdrawn ----------

  lemma OverdrawnStays(pools: map<Id, Pool>, held: map<Id, int>, more: map<Id, nat>, demand: map<Id, nat>)
    requires Overdrawn(pools, held, demand)
    ensures Overdrawn(pools, Add(held, more), demand)
  {
    var id :| id in demand && (id !in pools || Amount(held, id) + demand[id] > pools[id].capacity);
    assert Amount(Add(held, more), id) >= Amount(held, id);
  }

  lemma ExcludedStays(run: Run, selected: seq<Slot>, more: Slot, s: Slot)
    requires Excluded(run, selected, s)
    ensures Excluded(run, selected + [more], s)
  {
    var k :| 0 <= k < |run.exclusions| && ExcludedBy(run, selected, run.exclusions[k], s);
    var e := run.exclusions[k];
    var id :| id in e.workItemIds && MemberActive(run, selected, e, s.workItemId, id);
    if exists i :: 0 <= i < |selected| && selected[i].workItemId == id && selected[i].stage in e.phases {
      var i :| 0 <= i < |selected| && selected[i].workItemId == id && selected[i].stage in e.phases;
      assert (selected + [more])[i] == selected[i];
    }
    assert MemberActive(run, selected + [more], e, s.workItemId, id);
    assert ExcludedBy(run, selected + [more], e, s);
  }

  lemma LaneFullStays(run: Run, t: Tentative, chosen: Slot, s: Slot)
    requires LaneFull(run, s, t) && chosen.workItemId != s.workItemId
    ensures LaneFull(run, s, Take(t, chosen))
  {
    var lanes := t.lanes + {chosen.workItemId};
    if chosen.workItemId in t.lanes {
      assert lanes == t.lanes;
    }
  }

  /** Taking another work item's slot never lifts a refusal. */
  lemma RefusalStays(run: Run, t: Tentative, chosen: Slot, s: Slot)
    requires Refused(run, s, t) && chosen.workItemId != s.workItemId
    ensures Refused(run, s, Take(t, chosen))
  {
    hide LaneFull, Reserved, Overdrawn, Excluded, Add;
    if LaneFull(run, s, t) {
      LaneFullStays(run, t, chosen, s);
    }
    if Overdrawn(run.resourcePools, t.resources, s.resources) {
      OverdrawnStays(run.resourcePools, t.resources, chosen.resources, s.resources);
    }
    if Overdrawn(run.operationalPools, t.operational, s.operational) {
      OverdrawnStays(run.operationalPools, t.operational, chosen.operational, s.operational);
    }
    if Excluded(run, t.selected, s) {
      ExcludedStays(run, t.selected, chosen, s);
    }
  }

  lemma OtherItem(run: Run, ready: set<Slot>, t: Tentative, s: Slot, chosen: Slot)
    requires OnePerItem(ready) && DistinctSet(ready) && s in ready && Refused(run, s, t) && chosen in Candidates(run, ready, t)
    ensures chosen.workItemId != s.workItemId && chosen != s && chosen in ready
  {
    hide Refused;
  }

  /** A slot refused at some point is not selected afterwards and is still refused at the end. */
  lemma {:induction false} RefusedNeverSelected(run: Run, ready: set<Slot>, t: Tentative, s: Slot)
    requires OnePerItem(ready) && DistinctSet(ready) && s in Open(ready, t) && Refused(run, s, t)
    ensures s in Open(ready, Greedy(run, ready, t)) && Refused(run, s, Greedy(run, ready, t))
    decreases |Open(ready, t)|
  {
    hide Refused, Candidates, OnePerItem;
    var candidates := Candidates(run, ready, t);
    if candidates != {} {
      CandidatesDistinct(run, ready, t);
      var chosen := First(candidates);
      OtherItem(run, ready, t, s, chosen);
      ChosenOpen(run, ready, t, chosen);
      RefusalStays(run, t, chosen, s);
      TakeShrinks(ready, t, chosen);
      RefusedNeverSelected(run, ready, Take(t, chosen), s);
    }
  }

  // ---------- the top waiter ----------

  predicate Spares(run: Run, selected: seq<Slot>, from: nat, w: Slot) {
    forall i :: from <= i < |selected| ==> selected[i].workItemId in ActiveLanes(run) || !Competes(w, selected[i])
  }

  lemma TopWaits(run: Run, ready: set<Slot>, t: Tentative, w: Slot)
    requires DistinctSet(ready) && IsFirst(w, ready) && w.fairnessReserved && w in Open(ready, t) && Refused(run, w, t)
    ensures Waiters(run, ready, t) != {} && First(Waiters(run, ready, t)) == w
  {
    hide Refused, Before;
    var waiters := Waiters(run, ready, t);
    assert w in waiters;
    assert IsFirst(w, waiters);
    FirstUnique(w, First(waiters), waiters);
  }

  lemma ChosenSpares(run: Run, ready: set<Slot>, t: Tentative, w: Slot, chosen: Slot)
    requires OnePerItem(ready) && DistinctSet(ready) && IsFirst(w, ready) && w.fairnessReserved && w in Open(ready, t) && Refused(run, w, t)
    requires chosen in Candidates(run, ready, t)
    ensures chosen.workItemId in ActiveLanes(run) || !Competes(w, chosen)
  {
    hide Refused, Competes, IsFirst, Waiters;
    TopWaits(run, ready, t, w);
    OtherItem(run, ready, t, w, chosen);
    assert Admissible(run, ready, t, chosen);
  }

  lemma {:induction false} GreedySpares(run: Run, ready: set<Slot>, t: Tentative, w: Slot, from: nat)
    requires OnePerItem(ready) && DistinctSet(ready) && IsFirst(w, ready) && w.fairnessReserved && w in Open(ready, t) && Refused(run, w, t)
    requires from <= |t.selected| && Spares(run, t.selected, from, w)
    ensures Spares(run, Greedy(run, ready, t).selected, from, w)
    decreases |Open(ready, t)|
  {
    hide Refused, Candidates, OnePerItem, IsFirst, Competes;
    var candidates := Candidates(run, ready, t);
    if candidates != {} {
      CandidatesDistinct(run, ready, t);
      var chosen := First(candidates);
      FirstIsReady(chosen, candidates);
      ChosenSpares(run, ready, t, w, chosen);
      OtherItem(run, ready, t, w, chosen);
      ChosenOpen(run, ready, t, chosen);
      RefusalStays(run, t, chosen, w);
      TakeShrinks(ready, t, chosen);
      GreedySpares(run, ready, Take(t, chosen), w, from);
    }
  }

  /**
   * When the first ready slot is fairness-reserved and refused at the start, nothing selected
   * outside the already active lanes takes a mutex or a pool it needs, and it is not selected; so
   * only a selection in an active lane can bypass it.
   */
  lemma TopWaiterIsProtected(run: Run, ready: set<Slot>, w: Slot)
    requires OnePerItem(ready) && DistinctSet(ready) && IsFirst(w, ready) && w.fairnessReserved && Refused(run, w, Initially(run))
    ensures var selected := Greedy(run, ready, Initially(run)).selected;
            && w !in selected
            && (forall i :: 0 <= i < |selected| && Competes(w, selected[i]) ==> selected[i].workItemId in ActiveLanes(run))
  {
    hide Refused, Greedy, IsFirst, OnePerItem, Competes;
    FirstIsReady(w, ready);
    RefusedNeverSelected(run, ready, Initially(run), w);
    GreedySpares(run, ready, Initially(run), w, 0);
  }

  lemma FirstIsReady(w: Slot, ready: set<Slot>)
    requires IsFirst(w, ready)
    ensures w in ready
  {
  }
}
