/**
 * The conductor lock of one run directory as a state machine of atomic filesystem steps.
 *
 * Any number of processes interleave, each running one store operation at a time: a mutation, an
 * initialization, or a dead-owner recovery. A lock directory is published and retired by rename;
 * renaming onto a quarantine name that already exists fails. A process may crash at any step; a
 * process once found dead stays dead.
 */
module StoreLock {
  import opened Wrappers

  type Process = nat

  datatype Kind = Mutate | Initialize

  /** Where a process is in its current operation. Recovery states carry the owner proven dead. */
  datatype Pc =
    | Idle
    // publishing and releasing the conductor lock
    | Starting(kind: Kind)
    | NoRecoverySeen(kind: Kind)
    | Cleared(kind: Kind)
    | Published(kind: Kind)
    | Rechecked(kind: Kind)
    | Withdrawing
    | Inside(kind: Kind)
    | Leaving
    | Retiring
    // an initializer retiring a stale conductor lock
    | InitExamining
    | InitSaw(seen: Process)
    | InitDead(seen: Process)
    | InitPending(seen: Process)
    // acquiring the recovery lock
    | RecRequested(target: Process)
    | RecBlocked(target: Process)
    | RecSaw(target: Process, seen: Process)
    | RecDead(target: Process, seen: Process)
    | RecPending(target: Process, seen: Process)
    | RecRetry(target: Process)
    // recovering under the recovery lock
    | Recovering(target: Process)
    | Inspecting(target: Process)
    | Inspected(target: Process, visible: Option<Process>)
    | Bound(target: Process)
    | Looking(target: Process)
    | Seen(target: Process, visible: Option<Process>)
    | Moving(target: Process, seen: Process)
    | Quarantined(target: Process, visible: Option<Process>)
    | Replacing(target: Process)
    | RecoveredInside(target: Process)
    | RecLeaving(ok: bool)
    | RecRetiring(ok: bool)
    | RecDropping(ok: bool)
    | RecUnlocking
    | RecUnlockSaw

  datatype Snapshot = Absent | Present(revision: nat, owner: Option<Process>)

  datatype State = State(
    lock: Option<Process>,
    recovery: Option<Process>,
    intent: Option<Process>,
    snapshot: Snapshot,
    initQuarantine: set<Process>,
    staleQuarantine: set<Process>,
    replacementQuarantine: set<Process>,
    recoveryQuarantine: set<Process>,
    dead: set<Process>,
    pcs: map<Process, Pc>)

  datatype Operation = DoMutate | DoInitialize | DoRecover(target: Process)

  datatype Action =
    | Begin(p: Process, operation: Operation)
    | Go(p: Process)
    | Commit(p: Process, owner: Option<Process>)
    | Abort(p: Process)
    | Crash(p: Process)

  const INITIAL: State := State(None, None, None, Absent, {}, {}, {}, {}, {}, map[])

  function At(s: State, p: Process): Pc {
    if p in s.pcs then s.pcs[p] else Idle
  }

  function Put(pcs: map<Process, Pc>, p: Process, pc: Pc): map<Process, Pc> {
    pcs[p := pc]
  }

  function To(s: State, p: Process, pc: Pc): State {
    s.(pcs := Put(s.pcs, p, pc))
  }

  function Owner(s: State): Option<Process> {
    if s.snapshot.Present? then s.snapshot.owner else None
  }

  // ---------- the steps ----------

  /** Checking the recovery markers, publishing, checking again, and releasing. */
  function LockStep(s: State, p: Process): State {
    match At(s, p)
    case Starting(k) => To(s, p, if s.recovery.Some? then Idle else NoRecoverySeen(k))
    case NoRecoverySeen(k) => To(s, p, if s.intent.Some? then Idle else Cleared(k))
    case Cleared(k) => if s.lock.Some? then To(s, p, Idle) else To(s.(lock := Some(p)), p, Published(k))
    case Published(k) => To(s, p, if s.recovery.Some? then Withdrawing else Rechecked(k))
    case Rechecked(k) => To(s, p, if s.intent.Some? then Withdrawing else Inside(k))
    case Withdrawing => To(s, p, if s.lock == Some(p) then Leaving else Idle)
    case Inside(_) => To(s, p, Leaving)
    case Leaving => To(s, p, if s.lock == Some(p) then Retiring else Idle)
    case Retiring => To(s.(lock := None), p, Idle)
    case _ => s
  }

  /** An initializer examines the visible lock, asks whether its owner is dead, and moves it aside. */
  function InitStep(s: State, p: Process): State {
    match At(s, p)
    case InitExamining => To(s, p, if s.lock.Some? then InitSaw(s.lock.value) else Starting(Initialize))
    case InitSaw(x) => To(s, p, if x in s.dead then InitDead(x) else Idle)
    case InitDead(x) => To(s, p, if x in s.initQuarantine then Idle else InitPending(x))
    case InitPending(x) =>
      if s.lock.None? || x in s.initQuarantine then To(s, p, Idle)
      else To(s.(lock := None, initQuarantine := s.initQuarantine + {x}), p, Starting(Initialize))
    case _ => s
  }

  /** Publishing the recovery lock, retiring one dead holder at most. */
  function AcquireStep(s: State, p: Process): State {
    match At(s, p)
    case RecRequested(t) => if s.recovery.Some? then To(s, p, RecBlocked(t)) else To(s.(recovery := Some(p)), p, Recovering(t))
    case RecBlocked(t) => To(s, p, if s.recovery.Some? then RecSaw(t, s.recovery.value) else Idle)
    case RecSaw(t, x) => To(s, p, if x in s.dead then RecDead(t, x) else Idle)
    case RecDead(t, x) => To(s, p, if x in s.recoveryQuarantine then Idle else RecPending(t, x))
    case RecPending(t, x) =>
      if s.recovery.None? || x in s.recoveryQuarantine then To(s, p, Idle)
      else To(s.(recovery := None, recoveryQuarantine := s.recoveryQuarantine + {x}), p, RecRetry(t))
    case RecRetry(t) => if s.recovery.Some? then To(s, p, Idle) else To(s.(recovery := Some(p)), p, Recovering(t))
    case _ => s
  }

  /** Binding the recovery to one dead owner by a durable intent. */
  function BindStep(s: State, p: Process): State {
    match At(s, p)
    case Recovering(t) =>
      if s.intent == Some(t) then To(s, p, Bound(t))
      else if s.intent.Some? && Owner(s) == s.intent then To(s, p, RecUnlocking)
      else To(s.(intent := None), p, Inspecting(t))
    case Inspecting(t) => To(s, p, Inspected(t, s.lock))
    case Inspected(t, v) =>
      if Owner(s) == Some(t) && (v == Some(t) || v == None) && t in s.dead && s.intent.None?
      then To(s.(intent := Some(t)), p, Bound(t))
      else To(s, p, RecUnlocking)
    case Bound(t) => To(s, p, if Owner(s) == Some(t) && t in s.dead then Looking(t) else RecUnlocking)
    case _ => s
  }

  /** Moving the stale or abandoned lock aside and publishing the replacement. */
  function ReplaceStep(s: State, p: Process): State {
    match At(s, p)
    case Looking(t) => To(s, p, Seen(t, s.lock))
    case Seen(t, v) =>
      if v == None || v == Some(p) then To(s, p, Quarantined(t, v))
      else if v == Some(t) then To(s, p, if t in s.staleQuarantine then RecUnlocking else Moving(t, t))
      else To(s, p, if v.value in s.dead && v.value !in s.replacementQuarantine then Moving(t, v.value) else RecUnlocking)
    case Moving(t, x) =>
      if s.lock.None? || (if x == t then x in s.staleQuarantine else x in s.replacementQuarantine) then To(s, p, RecUnlocking)
      else if x == t then To(s.(lock := None, staleQuarantine := s.staleQuarantine + {x}), p, Quarantined(t, Some(x)))
      else To(s.(lock := None, replacementQuarantine := s.replacementQuarantine + {x}), p, Quarantined(t, Some(x)))
    case Quarantined(t, v) =>
      if t !in s.staleQuarantine && v.Some? then To(s, p, if v == Some(p) then RecLeaving(false) else RecUnlocking)
      else To(s.(staleQuarantine := s.staleQuarantine + {t}), p, if v == Some(p) then RecoveredInside(t) else Replacing(t))
    case Replacing(t) => if s.lock.Some? then To(s, p, RecUnlocking) else To(s.(lock := Some(p)), p, RecoveredInside(t))
    case _ => s
  }

  /** Leaving a recovery: the conductor lock first, then the intent, then the recovery lock. */
  function UnwindStep(s: State, p: Process): State {
    match At(s, p)
    case RecoveredInside(t) => To(s, p, RecLeaving(false))
    case RecLeaving(ok) => To(s, p, if s.lock == Some(p) then RecRetiring(ok) else RecDropping(ok))
    case RecRetiring(ok) => To(s.(lock := None), p, RecDropping(ok))
    case RecDropping(ok) => To(if ok then s.(intent := None) else s, p, RecUnlocking)
    case RecUnlocking => To(s, p, if s.recovery == Some(p) then RecUnlockSaw else Idle)
    case RecUnlockSaw => To(s.(recovery := None), p, Idle)
    case _ => s
  }

  datatype Part = LockPart | InitPart | AcquirePart | BindPart | ReplacePart | UnwindPart | NoPart

  function PartOf(pc: Pc): Part {
    match pc
    case Idle => NoPart
    case Starting(_) | NoRecoverySeen(_) | Cleared(_) | Published(_) | Rechecked(_) | Withdrawing | Inside(_) | Leaving | Retiring => LockPart
    case InitExamining | InitSaw(_) | InitDead(_) | InitPending(_) => InitPart
    case RecRequested(_) | RecBlocked(_) | RecSaw(_, _) | RecDead(_, _) | RecPending(_, _) | RecRetry(_) => AcquirePart
    case Recovering(_) | Inspecting(_) | Inspected(_, _) | Bound(_) => BindPart
    case Looking(_) | Seen(_, _) | Moving(_, _) | Quarantined(_, _) | Replacing(_) => ReplacePart
    case RecoveredInside(_) | RecLeaving(_) | RecRetiring(_) | RecDropping(_) | RecUnlocking | RecUnlockSaw => UnwindPart
  }

  function GoStep(s: State, p: Process): State {
    match PartOf(At(s, p))
    case LockPart => LockStep(s, p)
    case InitPart => InitStep(s, p)
    case AcquirePart => AcquireStep(s, p)
    case BindPart => BindStep(s, p)
    case ReplacePart => ReplaceStep(s, p)
    case UnwindPart => UnwindStep(s, p)
    case NoPart => s
  }

  function BeginStep(s: State, p: Process, operation: Operation): State {
    if At(s, p) != Idle then s
    else
      match operation
      case DoMutate => To(s, p, Starting(Mutate))
      case DoInitialize => if s.snapshot.Present? && s.snapshot.revision != 0 then s else To(s, p, InitExamining)
      case DoRecover(t) => To(s, p, RecRequested(t))
  }

  /**
   * A snapshot is written only inside: an initializer writes the first one, a mutator attaches
   * itself to an unowned run or acts as the current owner, a recoverer attaches itself.
   */
  function CommitStep(s: State, p: Process, owner: Option<Process>): State {
    match At(s, p)
    case Inside(Initialize) => To(if s.snapshot.Absent? then s.(snapshot := Present(0, None)) else s, p, Leaving)
    case Inside(Mutate) =>
      if s.snapshot.Present? && (s.snapshot.owner == Some(p) || (s.snapshot.owner == None && owner == Some(p)))
      then To(s.(snapshot := Present(s.snapshot.revision + 1, owner)), p, Leaving)
      else To(s, p, Leaving)
    case RecoveredInside(t) =>
      if s.snapshot.Present? then To(s.(snapshot := Present(s.snapshot.revision + 1, Some(p))), p, RecLeaving(true))
      else To(s, p, RecLeaving(false))
    case _ => s
  }

  /** An operation that throws unwinds through its cleanup. */
  function AbortStep(s: State, p: Process): State {
    match PartOf(At(s, p))
    case LockPart => (match At(s, p) case Inside(_) => To(s, p, Leaving) case Starting(_) | NoRecoverySeen(_) | Cleared(_) => To(s, p, Idle) case _ => s)
    case InitPart | AcquirePart => To(s, p, Idle)
    case BindPart | ReplacePart => To(s, p, RecUnlocking)
    case UnwindPart => if At(s, p).RecoveredInside? then To(s, p, RecLeaving(false)) else s
    case NoPart => s
  }

  function Step(s: State, a: Action): State {
    if a.p in s.dead then s
    else
      match a
      case Begin(p, operation) => BeginStep(s, p, operation)
      case Go(p) => GoStep(s, p)
      case Commit(p, owner) => CommitStep(s, p, owner)
      case Abort(p) => AbortStep(s, p)
      case Crash(p) => s.(dead := s.dead + {p})
  }

  function Exec(s: State, run: seq<Action>): State {
    if run == [] then s else Step(Exec(s, run[..|run| - 1]), run[|run| - 1])
  }

  // ---------- who writes ----------

  /** Who may write this successor: an initializer the first, the owner or an attaching mutator or a recoverer a later one. */
  predicate Entitled(s: State, p: Process, next: Snapshot) {
    || (At(s, p) == Inside(Initialize) && s.snapshot == Absent && next == Present(0, None))
    || (At(s, p) == Inside(Mutate) && s.snapshot.Present? && s.snapshot.owner == Some(p) && next.Present? && next.revision == s.snapshot.revision + 1)
    || (At(s, p) == Inside(Mutate) && s.snapshot.Present? && s.snapshot.owner == None && next == Present(s.snapshot.revision + 1, Some(p)))
    || (At(s, p).RecoveredInside? && s.snapshot.Present? && next == Present(s.snapshot.revision + 1, Some(p)))
  }

  /** Only a process inside changes the snapshot, and only as it is entitled to. */
  lemma WritersAreEntitled(s: State, a: Action)
    requires Step(s, a).snapshot != s.snapshot
    ensures a.Commit? && a.p !in s.dead && Critical(At(s, a.p)) && Entitled(s, a.p, Step(s, a).snapshot)
  {
    hide LockStep, InitStep, AcquireStep, BindStep, ReplaceStep, UnwindStep;
    if a.Go? && a.p !in s.dead {
      GoKeepsSnapshot(s, a.p);
    }
  }

  lemma GoKeepsSnapshot(s: State, p: Process)
    ensures GoStep(s, p).snapshot == s.snapshot
  {
  }

  /** Whoever is entitled to a successor gets it written by its commit. */
  lemma EntitledWrites(s: State, p: Process, next: Snapshot)
    requires p !in s.dead && Entitled(s, p, next)
    ensures Step(s, Commit(p, next.owner)).snapshot == next
  {
  }

  // ---------- what is to be excluded ----------

  /** A process past publication and not yet past its release. */
  predicate Holding(pc: Pc) {
    match pc
    case Published(_) | Rechecked(_) | Withdrawing | Inside(_) | Leaving | Retiring => true
    case RecoveredInside(_) | RecLeaving(_) | RecRetiring(_) => true
    case _ => false
  }

  /**
   * A process that goes on without looking at the lock again: inside, about to be, or about to remove it. The others
   * that hold it look once more and leave it alone if it is no longer theirs.
   */
  predicate Exposed(pc: Pc) {
    match pc
    case Published(_) | Rechecked(_) | Inside(_) | Retiring => true
    case RecoveredInside(_) | RecRetiring(_) => true
    case _ => false
  }

  /** A process that may read the current snapshot and write its successor. */
  predicate Critical(pc: Pc) {
    pc.Inside? || pc.RecoveredInside?
  }

  /** At most one live process is in the critical section. */
  ghost predicate Exclusive(s: State) {
    forall p, q :: p !in s.dead && q !in s.dead && Critical(At(s, p)) && Critical(At(s, q)) ==> p == q
  }

  predicate SawItself(pc: Pc, p: Process) {
    match pc
    case Seen(_, v) => v == Some(p)
    case Quarantined(_, v) => v == Some(p)
    case Moving(_, x) => x == p
    case _ => false
  }

  /** The visible lock is the process's own when it is exposed, and only while it holds it. */
  predicate Tied(s: State, p: Process) {
    (Exposed(At(s, p)) ==> s.lock == Some(p)) && (s.lock == Some(p) ==> Holding(At(s, p))) && !SawItself(At(s, p), p)
  }

  ghost predicate Guarded(s: State) {
    forall p :: p !in s.dead ==> Tied(s, p)
  }

  /** A rename that moves aside the lock of a live holder that will not look at it again. */
  predicate Theft(s: State, a: Action) {
    && a.Go? && a.p !in s.dead
    && s.lock.Some? && s.lock.value !in s.dead && Exposed(At(s, s.lock.value))
    && match At(s, a.p)
       case InitPending(x) => x !in s.initQuarantine
       case Moving(t, x) => if x == t then x !in s.staleQuarantine else x !in s.replacementQuarantine
       case _ => false
  }

  // ---------- exactly when exclusion is kept ----------

  lemma GuardedIsExclusive(s: State)
    requires Guarded(s)
    ensures Exclusive(s)
  {
    forall p, q | p !in s.dead && q !in s.dead && Critical(At(s, p)) && Critical(At(s, q)) ensures p == q {
      assert Tied(s, p) && Tied(s, q);
    }
  }

  lemma InitialGuarded()
    ensures Guarded(INITIAL)
  {
  }

  lemma LockStepGuarded(s: State, p: Process)
    requires Guarded(s) && p !in s.dead && PartOf(At(s, p)) == LockPart
    ensures Guarded(LockStep(s, p))
  {
    var s' := LockStep(s, p);
    assert Tied(s, p);
    forall q | q !in s'.dead ensures Tied(s', q) {
      assert Tied(s, q);
    }
  }

  lemma InitStepGuarded(s: State, p: Process)
    requires Guarded(s) && p !in s.dead && PartOf(At(s, p)) == InitPart
    requires !Theft(s, Go(p))
    ensures Guarded(InitStep(s, p))
  {
    var s' := InitStep(s, p);
    assert Tied(s, p);
    forall q | q !in s'.dead ensures Tied(s', q) {
      assert Tied(s, q);
    }
  }

  lemma AcquireStepGuarded(s: State, p: Process)
    requires Guarded(s) && p !in s.dead && PartOf(At(s, p)) == AcquirePart
    ensures Guarded(AcquireStep(s, p))
  {
    var s' := AcquireStep(s, p);
    assert Tied(s, p);
    forall q | q !in s'.dead ensures Tied(s', q) {
      assert Tied(s, q);
    }
  }

  lemma BindStepGuarded(s: State, p: Process)
    requires Guarded(s) && p !in s.dead && PartOf(At(s, p)) == BindPart
    ensures Guarded(BindStep(s, p))
  {
    var s' := BindStep(s, p);
    assert Tied(s, p);
    forall q | q !in s'.dead ensures Tied(s', q) {
      assert Tied(s, q);
    }
  }

  lemma ReplaceStepGuarded(s: State, p: Process)
    requires Guarded(s) && p !in s.dead && PartOf(At(s, p)) == ReplacePart
    requires !Theft(s, Go(p))
    ensures Guarded(ReplaceStep(s, p))
  {
    var s' := ReplaceStep(s, p);
    assert Tied(s, p);
    forall q | q !in s'.dead ensures Tied(s', q) {
      assert Tied(s, q);
    }
  }

  lemma UnwindStepGuarded(s: State, p: Process)
    requires Guarded(s) && p !in s.dead && PartOf(At(s, p)) == UnwindPart
    ensures Guarded(UnwindStep(s, p))
  {
    var s' := UnwindStep(s, p);
    assert Tied(s, p);
    forall q | q !in s'.dead ensures Tied(s', q) {
      assert Tied(s, q);
    }
  }

  /** Whatever a process does, exclusion survives the step unless the step is a theft. */
  lemma StepKeepsGuarded(s: State, a: Action)
    requires Guarded(s) && !Theft(s, a)
    ensures Guarded(Step(s, a))
  {
    hide LockStep, InitStep, AcquireStep, BindStep, ReplaceStep, UnwindStep, Theft;
    if a.p !in s.dead {
      match a
      case Go(p) =>
        match PartOf(At(s, p)) {
          case LockPart => LockStepGuarded(s, p);
          case InitPart => InitStepGuarded(s, p);
          case AcquirePart => AcquireStepGuarded(s, p);
          case BindPart => BindStepGuarded(s, p);
          case ReplacePart => ReplaceStepGuarded(s, p);
          case UnwindPart => UnwindStepGuarded(s, p);
          case NoPart =>
        }
      case Begin(p, operation) => BeginGuarded(s, p, operation);
      case Commit(p, owner) => CommitGuarded(s, p, owner);
      case Abort(p) => AbortGuarded(s, p);
      case Crash(p) => CrashGuarded(s, p);
    }
  }

  lemma BeginGuarded(s: State, p: Process, operation: Operation)
    requires Guarded(s) && p !in s.dead
    ensures Guarded(BeginStep(s, p, operation))
  {
    var s' := BeginStep(s, p, operation);
    assert Tied(s, p);
    forall q | q !in s'.dead ensures Tied(s', q) {
      assert Tied(s, q);
    }
  }

  lemma CommitGuarded(s: State, p: Process, owner: Option<Process>)
    requires Guarded(s) && p !in s.dead
    ensures Guarded(CommitStep(s, p, owner))
  {
    var s' := CommitStep(s, p, owner);
    assert Tied(s, p);
    forall q | q !in s'.dead ensures Tied(s', q) {
      assert Tied(s, q);
    }
  }

  lemma AbortGuarded(s: State, p: Process)
    requires Guarded(s) && p !in s.dead
    ensures Guarded(AbortStep(s, p))
  {
    var s' := AbortStep(s, p);
    assert Tied(s, p);
    forall q | q !in s'.dead ensures Tied(s', q) {
      assert Tied(s, q);
    }
  }

  lemma CrashGuarded(s: State, p: Process)
    requires Guarded(s)
    ensures Guarded(s.(dead := s.dead + {p}))
  {
    var s' := s.(dead := s.dead + {p});
    forall q | q !in s'.dead ensures Tied(s', q) {
      assert Tied(s, q);
    }
  }

  /** A theft leaves its victim exposed without a visible lock. */
  lemma TheftBreaksGuarded(s: State, a: Action)
    requires Guarded(s) && Theft(s, a)
    ensures !Guarded(Step(s, a))
  {
    var victim := s.lock.value;
    assert Tied(s, a.p);
    assert victim != a.p;
    assert At(Step(s, a), victim) == At(s, victim);
    assert !Tied(Step(s, a), victim);
  }

  /** No step of the run is a theft. */
  predicate NoTheft(s: State, run: seq<Action>) {
    run == [] || (NoTheft(s, run[..|run| - 1]) && !Theft(Exec(s, run[..|run| - 1]), run[|run| - 1]))
  }

  ghost predicate GuardedThroughout(s: State, run: seq<Action>) {
    forall i :: 0 <= i <= |run| ==> Guarded(Exec(s, run[..i]))
  }

  /**
   * The lock of every exposed live process stays visible throughout a run exactly when no retirement in the run
   * is a theft; and then at most one live process is ever inside.
   */
  lemma {:induction false} ExclusionExactly(run: seq<Action>)
    ensures GuardedThroughout(INITIAL, run) <==> NoTheft(INITIAL, run)
    ensures NoTheft(INITIAL, run) ==> Exclusive(Exec(INITIAL, run))
    decreases |run|
  {
    hide Step, Theft, Guarded, Exclusive;
    if run == [] {
      InitialGuarded();
      GuardedIsExclusive(INITIAL);
    } else {
      var before := run[..|run| - 1];
      ExclusionExactly(before);
      assert forall i :: 0 <= i <= |before| ==> before[..i] == run[..i];
      assert run[..|run|] == run;
      var s, a := Exec(INITIAL, before), run[|run| - 1];
      if NoTheft(INITIAL, before) {
        assert before[..|before|] == before;
        assert Guarded(s);
        if Theft(s, a) {
          TheftBreaksGuarded(s, a);
          assert !Guarded(Exec(INITIAL, run[..|run|]));
        } else {
          StepKeepsGuarded(s, a);
          GuardedIsExclusive(Step(s, a));
          GuardedPrefixes(run);
        }
      } else {
        var i :| 0 <= i <= |before| && !Guarded(Exec(INITIAL, before[..i]));
        assert !Guarded(Exec(INITIAL, run[..i]));
      }
    }
  }

  lemma GuardedPrefixes(run: seq<Action>)
    requires run != [] && GuardedThroughout(INITIAL, run[..|run| - 1]) && Guarded(Exec(INITIAL, run))
    ensures GuardedThroughout(INITIAL, run)
  {
    hide Guarded, Exec;
    var before := run[..|run| - 1];
    forall i | 0 <= i <= |run| ensures Guarded(Exec(INITIAL, run[..i])) {
      if i < |run| {
        assert run[..i] == before[..i];
      } else {
        assert run[..i] == run;
      }
    }
  }
}
