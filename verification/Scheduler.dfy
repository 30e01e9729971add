/**
 * The greedy batch scheduler: admission checks against lanes, mutexes, pools and dynamic
 * exclusions, a fairness reservation for refused waiters, and the selection loop.
 */
module Scheduler {
  import opened Wrappers
  import opened SlotOrder

  datatype Reservation = Reservation(workItemId: Id, stage: nat, mutexes: set<Id>, live: bool)
  datatype Pool = Pool(inUse: int, capacity: int)
  datatype Lane = Lane(admissionSequence: int, released: bool)
  datatype Exclusion = Exclusion(active: bool, workItemIds: set<Id>, phases: set<nat>)

  /** The parts of the run the scheduler reads. A resource pool's capacity is the smaller of its two limits. */
  datatype Run = Run(
    maxActiveNodes: nat,
    lanes: map<Id, Lane>,
    reservations: seq<Reservation>,
    resourcePools: map<Id, Pool>,
    operationalPools: map<Id, Pool>,
    exclusions: seq<Exclusion>,
    currentStage: map<Id, nat>)

  datatype Code =
    | LaneCapacity | ExistingReservation | Mutex | ResourceCapacity | OperationalCapacity | DynamicExclusion | FairnessReservation

  /** What the batch holds so far, on top of the run. */
  datatype Tentative = Tentative(
    selected: seq<Slot>,
    lanes: set<Id>,
    resources: map<Id, int>,
    operational: map<Id, int>,
    mutexes: set<Id>)

  // ---------- admission ----------

  predicate LaneActive(run: Run, id: Id) {
    id in run.lanes && !run.lanes[id].released
  }

  function ActiveLanes(run: Run): set<Id> {
    set id | id in run.lanes && !run.lanes[id].released
  }

  function InUse(pools: map<Id, Pool>): map<Id, int> {
    map id | id in pools :: pools[id].inUse
  }

  function HeldMutexes(run: Run): set<Id> {
    set i, m | 0 <= i < |run.reservations| && run.reservations[i].live && m in run.reservations[i].mutexes :: m
  }

  function Initially(run: Run): Tentative {
    Tentative([], ActiveLanes(run), InUse(run.resourcePools), InUse(run.operationalPools), HeldMutexes(run))
  }

  function Amount(held: map<Id, int>, id: Id): int {
    if id in held then held[id] else 0
  }

  predicate Reserved(run: Run, workItemId: Id) {
    exists i :: 0 <= i < |run.reservations| && run.reservations[i].live && run.reservations[i].workItemId == workItemId
  }

  /** Some demanded pool is missing or would go past its capacity. */
  predicate Overdrawn(pools: map<Id, Pool>, held: map<Id, int>, demand: map<Id, nat>) {
    exists id :: id in demand && (id !in pools || Amount(held, id) + demand[id] > pools[id].capacity)
  }

  predicate LanePrecedes(run: Run, left: Id, right: Id) {
    LaneActive(run, left)
    && (LaneActive(run, right) ==>
          run.lanes[left].admissionSequence < run.lanes[right].admissionSequence
          || (run.lanes[left].admissionSequence == run.lanes[right].admissionSequence && left < right))
  }

  /** Another member of the exclusion is active in one of its phases. */
  predicate MemberActive(run: Run, selected: seq<Slot>, e: Exclusion, workItemId: Id, id: Id) {
    || (id != workItemId && LaneActive(run, id) && id in run.currentStage && run.currentStage[id] in e.phases && LanePrecedes(run, id, workItemId))
    || (exists i :: 0 <= i < |run.reservations| && run.reservations[i].live && run.reservations[i].workItemId == id && run.reservations[i].stage in e.phases)
    || (exists i :: 0 <= i < |selected| && selected[i].workItemId == id && selected[i].stage in e.phases)
  }

  predicate ExcludedBy(run: Run, selected: seq<Slot>, e: Exclusion, s: Slot) {
    e.active && s.workItemId in e.workItemIds && s.stage in e.phases && exists id :: id in e.workItemIds && MemberActive(run, selected, e, s.workItemId, id)
  }

  predicate Excluded(run: Run, selected: seq<Slot>, s: Slot) {
    exists k :: 0 <= k < |run.exclusions| && ExcludedBy(run, selected, run.exclusions[k], s)
  }

  predicate LaneFull(run: Run, s: Slot, t: Tentative) {
    s.workItemId !in t.lanes && |t.lanes| >= run.maxActiveNodes
  }

  predicate MutexTaken(s: Slot, t: Tentative) {
    exists m :: m in s.mutexes && m in t.mutexes
  }

  /** The refusal codes of a slot, before fairness. */
  function WithAdmission(run: Run, s: Slot, t: Tentative): set<Code> {
    (if LaneFull(run, s, t) then {LaneCapacity} else {})
    + (if Reserved(run, s.workItemId) then {ExistingReservation} else {})
    + (if MutexTaken(s, t) then {Mutex} else {})
    + (if Overdrawn(run.resourcePools, t.resources, s.resources) then {ResourceCapacity} else {})
    + (if Overdrawn(run.operationalPools, t.operational, s.operational) then {OperationalCapacity} else {})
    + (if Excluded(run, t.selected, s) then {DynamicExclusion} else {})
  }

  predicate Refused(run: Run, s: Slot, t: Tentative) {
    LaneFull(run, s, t) || Reserved(run, s.workItemId) || MutexTaken(s, t)
    || Overdrawn(run.resourcePools, t.resources, s.resources) || Overdrawn(run.operationalPools, t.operational, s.operational)
    || Excluded(run, t.selected, s)
  }

  lemma RefusedIffCodes(run: Run, s: Slot, t: Tentative)
    ensures Refused(run, s, t) <==> WithAdmission(run, s, t) != {}
    ensures FairnessReservation !in WithAdmission(run, s, t)
  {
    hide LaneFull, Reserved, MutexTaken, Overdrawn, Excluded;
    assert LaneFull(run, s, t) ==> LaneCapacity in WithAdmission(run, s, t);
    assert Reserved(run, s.workItemId) ==> ExistingReservation in WithAdmission(run, s, t);
    assert MutexTaken(s, t) ==> Mutex in WithAdmission(run, s, t);
    assert Overdrawn(run.resourcePools, t.resources, s.resources) ==> ResourceCapacity in WithAdmission(run, s, t);
    assert Overdrawn(run.operationalPools, t.operational, s.operational) ==> OperationalCapacity in WithAdmission(run, s, t);
    assert Excluded(run, t.selected, s) ==> DynamicExclusion in WithAdmission(run, s, t);
  }

  /** The waiter needs a mutex or a pool that the other slot takes. */
  predicate Competes(waiter: Slot, other: Slot) {
    || (exists m :: m in waiter.mutexes && m in other.mutexes)
    || (exists id :: id in waiter.resources && id in other.resources && other.resources[id] > 0)
    || (exists id :: id in waiter.operational && id in other.operational && other.operational[id] > 0)
  }

  /** A candidate is held back for the waiter unless it already has a lane or does not compete. */
  predicate HeldBack(run: Run, waiter: Slot, s: Slot) {
    s.slotId != waiter.slotId && s.workItemId !in ActiveLanes(run) && Competes(waiter, s)
  }

  // ---------- one pass of the loop ----------

  ghost function Open(ready: set<Slot>, t: Tentative): set<Slot> {
    set s | s in ready && s !in t.selected
  }

  ghost function Waiters(run: Run, ready: set<Slot>, t: Tentative): set<Slot> {
    set s | s in Open(ready, t) && s.fairnessReserved && Refused(run, s, t)
  }

  ghost predicate Admissible(run: Run, ready: set<Slot>, t: Tentative, s: Slot)
    requires DistinctSet(ready)
  {
    !Refused(run, s, t) && (Waiters(run, ready, t) != {} ==> !HeldBack(run, First(Waiters(run, ready, t)), s))
  }

  ghost function Candidates(run: Run, ready: set<Slot>, t: Tentative): set<Slot>
    requires DistinctSet(ready)
  {
    set s | s in Open(ready, t) && Admissible(run, ready, t, s)
  }

  function Add(held: map<Id, int>, demand: map<Id, nat>): (r: map<Id, int>)
    ensures forall id :: Amount(r, id) == Amount(held, id) + (if id in demand then demand[id] else 0)
  {
    map id | id in held.Keys + demand.Keys :: Amount(held, id) + (if id in demand then demand[id] else 0)
  }

  function Take(t: Tentative, s: Slot): Tentative {
    Tentative(t.selected + [s], t.lanes + {s.workItemId}, Add(t.resources, s.resources), Add(t.operational, s.operational), t.mutexes + s.mutexes)
  }

  /** The whole selection, as a function of the set of ready slots. */
  ghost function Greedy(run: Run, ready: set<Slot>, t: Tentative): Tentative
    requires DistinctSet(ready)
    decreases |Open(ready, t)|
  {
    var candidates := Candidates(run, ready, t);
    if candidates == {} then t
    else
      var chosen := First(candidates);
      TakeShrinks(ready, t, chosen);
      Greedy(run, ready, Take(t, chosen))
  }

  lemma TakeShrinks(ready: set<Slot>, t: Tentative, s: Slot)
    requires s in Open(ready, t)
    ensures Open(ready, Take(t, s)) == Open(ready, t) - {s}
    ensures |Open(ready, Take(t, s))| < |Open(ready, t)|
  {
    assert Open(ready, Take(t, s)) == Open(ready, t) - {s};
  }
}
