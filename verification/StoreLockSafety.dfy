/**
 * When the conductor lock is safe. Exclusion holds on every run in which (a) no process dies
 * between the inspection of its lock and the verdict on it, and (b) no initializer and recoverer
 * have both examined the same dead lock at once. Each condition alone is not enough: StoreLockRaces
 * has runs that break only one of them and put two live processes inside together.
 */
module StoreLockSafety {
  import opened Wrappers
  import opened StoreLock

  /** The process whose inspected lock still waits for its verdict. */
  predicate AwaitsVerdict(pc: Pc, x: Process) {
    match pc
    case InitSaw(y) => y == x
    case RecSaw(_, y) => y == x
    case Seen(_, v) => v == Some(x)
    case _ => false
  }

  predicate InitExamined(pc: Pc, x: Process) {
    match pc
    case InitSaw(y) => y == x
    case InitDead(y) => y == x
    case InitPending(y) => y == x
    case _ => false
  }

  predicate RecoveryExamined(pc: Pc, x: Process) {
    match pc
    case Seen(_, v) => v == Some(x)
    case Moving(_, y) => y == x
    case _ => false
  }

  ghost predicate CalmDeath(s: State, a: Action) {
    a.Crash? ==> forall p :: p !in s.dead ==> !AwaitsVerdict(At(s, p), a.p)
  }

  ghost predicate NoOverlap(s: State) {
    forall p, q, x :: p !in s.dead && q !in s.dead && x in s.dead && InitExamined(At(s, p), x) ==> !RecoveryExamined(At(s, q), x)
  }

  /** Conditions (a) and (b), at every step of a run. */
  ghost predicate Undisturbed(run: seq<Action>)
    decreases |run|
  {
    run == [] ||
      var before := run[..|run| - 1];
      Undisturbed(before) && CalmDeath(Exec(INITIAL, before), run[|run| - 1]) && NoOverlap(Exec(INITIAL, run))
  }

  predicate HoldsRecovery(pc: Pc) {
    PartOf(pc) == BindPart || PartOf(pc) == ReplacePart || PartOf(pc) == UnwindPart
  }

  /** A dead lock that was examined is still where it was, or its one quarantine name is taken. */
  predicate Placed(s: State, pc: Pc) {
    match pc
    case InitSaw(x) => x in s.dead ==> s.lock == Some(x) || x in s.initQuarantine
    case InitDead(x) => x in s.dead && (s.lock == Some(x) || x in s.initQuarantine)
    case InitPending(x) => x in s.dead && (s.lock == Some(x) || x in s.initQuarantine)
    case RecSaw(_, x) => x in s.dead ==> s.recovery == Some(x) || x in s.recoveryQuarantine
    case RecDead(_, x) => x in s.dead && (s.recovery == Some(x) || x in s.recoveryQuarantine)
    case RecPending(_, x) => x in s.dead && (s.recovery == Some(x) || x in s.recoveryQuarantine)
    case Looking(t) => t in s.dead
    case Seen(t, v) => t in s.dead && (v.Some? && v.value in s.dead ==> s.lock == v)
    case Moving(_, x) => x in s.dead && s.lock == Some(x)
    case _ => true
  }

  predicate Sound(s: State, p: Process) {
    && Tied(s, p)
    && (HoldsRecovery(At(s, p)) <==> s.recovery == Some(p))
    && Placed(s, At(s, p))
  }

  ghost predicate Inv(s: State) {
    forall p :: p !in s.dead ==> Sound(s, p)
  }

  lemma InvNoTheft(s: State, a: Action)
    requires Inv(s)
    ensures !Theft(s, a)
  {
    if a.p !in s.dead {
      assert Sound(s, a.p);
    }
  }

  lemma LockStepKeepsInv(s: State, p: Process)
    requires Inv(s) && p !in s.dead && PartOf(At(s, p)) == LockPart
    ensures Inv(LockStep(s, p))
  {
    var s' := LockStep(s, p);
    assert Sound(s, p);
    forall q | q !in s'.dead ensures Sound(s', q) {
      assert Sound(s, q);
    }
  }

  predicate InitPendingMoves(s: State, p: Process) {
    At(s, p).InitPending? && s.lock.Some? && At(s, p).seen !in s.initQuarantine
  }

  lemma InitStepKeepsInv(s: State, p: Process)
    requires Inv(s) && p !in s.dead && PartOf(At(s, p)) == InitPart
    requires NoOverlap(s)
    ensures Inv(InitStep(s, p))
  {
    var s' := InitStep(s, p);
    assert Sound(s, p);
    forall q | q !in s'.dead ensures Sound(s', q) {
      assert Sound(s, q);
      if InitPendingMoves(s, p) { assert !RecoveryExamined(At(s, q), At(s, p).seen); }
    }
  }

  lemma AcquireStepKeepsInv(s: State, p: Process)
    requires Inv(s) && p !in s.dead && PartOf(At(s, p)) == AcquirePart
    ensures Inv(AcquireStep(s, p))
  {
    var s' := AcquireStep(s, p);
    assert Sound(s, p);
    forall q | q !in s'.dead ensures Sound(s', q) {
      assert Sound(s, q);
    }
  }

  lemma BindStepKeepsInv(s: State, p: Process)
    requires Inv(s) && p !in s.dead && PartOf(At(s, p)) == BindPart
    ensures Inv(BindStep(s, p))
  {
    var s' := BindStep(s, p);
    assert Sound(s, p);
    forall q | q !in s'.dead ensures Sound(s', q) {
      assert Sound(s, q);
    }
  }

  lemma ReplaceStepKeepsInv(s: State, p: Process)
    requires Inv(s) && p !in s.dead && PartOf(At(s, p)) == ReplacePart
    requires NoOverlap(s)
    ensures Inv(ReplaceStep(s, p))
  {
    var s' := ReplaceStep(s, p);
    forall q | q !in s'.dead ensures Sound(s', q) {
      assert Sound(s, p) && Sound(s, q);
      if At(s, p).Moving? {
        if s.lock.Some? { assert !InitExamined(At(s, q), At(s, p).seen); }
        MovingKeepsSound(s, p, q);
      } else {
        ReplacingKeepsSound(s, p, q);
      }
    }
  }

  lemma MovingKeepsSound(s: State, p: Process, q: Process)
    requires p !in s.dead && q !in s.dead && At(s, p).Moving? && Sound(s, p) && Sound(s, q)
    requires s.lock.Some? ==> !InitExamined(At(s, q), At(s, p).seen)
    ensures Sound(ReplaceStep(s, p), q)
  {
  }

  lemma ReplacingKeepsSound(s: State, p: Process, q: Process)
    requires p !in s.dead && q !in s.dead && PartOf(At(s, p)) == ReplacePart && !At(s, p).Moving? && Sound(s, p) && Sound(s, q)
    ensures Sound(ReplaceStep(s, p), q)
  {
    if p == q {
      ReplacingKeepsItself(s, p);
    } else {
      ReplacingKeepsOther(s, p, q);
    }
  }

  lemma ReplacingKeepsItself(s: State, p: Process)
    requires p !in s.dead && PartOf(At(s, p)) == ReplacePart && !At(s, p).Moving? && Sound(s, p)
    ensures Sound(ReplaceStep(s, p), p)
  {
  }

  lemma ReplacingKeepsOther(s: State, p: Process, q: Process)
    requires p != q && p !in s.dead && q !in s.dead && PartOf(At(s, p)) == ReplacePart && !At(s, p).Moving? && Sound(s, p) && Sound(s, q)
    ensures Sound(ReplaceStep(s, p), q)
  {
  }

  lemma UnwindStepKeepsInv(s: State, p: Process)
    requires Inv(s) && p !in s.dead && PartOf(At(s, p)) == UnwindPart
    ensures Inv(UnwindStep(s, p))
  {
    var s' := UnwindStep(s, p);
    assert Sound(s, p);
    forall q | q !in s'.dead ensures Sound(s', q) {
      assert Sound(s, q);
    }
  }

  lemma BeginKeepsInv(s: State, p: Process, operation: Operation)
    requires Inv(s) && p !in s.dead
    ensures Inv(BeginStep(s, p, operation))
  {
    var s' := BeginStep(s, p, operation);
    forall q | q !in s'.dead ensures Sound(s', q) {
      assert Sound(s, q);
    }
  }

  lemma CommitKeepsInv(s: State, p: Process, owner: Option<Process>)
    requires Inv(s) && p !in s.dead
    ensures Inv(CommitStep(s, p, owner))
  {
    var s' := CommitStep(s, p, owner);
    forall q | q !in s'.dead ensures Sound(s', q) {
      assert Sound(s, q);
    }
  }

  lemma AbortKeepsInv(s: State, p: Process)
    requires Inv(s) && p !in s.dead
    ensures Inv(AbortStep(s, p))
  {
    var s' := AbortStep(s, p);
    forall q | q !in s'.dead ensures Sound(s', q) {
      assert Sound(s, q);
    }
  }

  lemma CrashKeepsInv(s: State, p: Process)
    requires Inv(s) && CalmDeath(s, Crash(p))
    ensures Inv(s.(dead := s.dead + {p}))
  {
    var s' := s.(dead := s.dead + {p});
    forall q | q !in s'.dead ensures Sound(s', q) {
      assert Sound(s, q);
    }
  }

  lemma StepKeepsInv(s: State, a: Action)
    requires Inv(s) && NoOverlap(s) && CalmDeath(s, a)
    ensures Inv(Step(s, a))
  {
    hide LockStep, InitStep, AcquireStep, BindStep, ReplaceStep, UnwindStep, BeginStep, CommitStep, AbortStep, Inv, NoOverlap;
    if a.p !in s.dead {
      match a
      case Go(p) =>
        match PartOf(At(s, p)) {
          case LockPart => LockStepKeepsInv(s, p);
          case InitPart => InitStepKeepsInv(s, p);
          case AcquirePart => AcquireStepKeepsInv(s, p);
          case BindPart => BindStepKeepsInv(s, p);
          case ReplacePart => ReplaceStepKeepsInv(s, p);
          case UnwindPart => UnwindStepKeepsInv(s, p);
          case NoPart =>
        }
      case Begin(p, operation) => BeginKeepsInv(s, p, operation);
      case Commit(p, owner) => CommitKeepsInv(s, p, owner);
      case Abort(p) => AbortKeepsInv(s, p);
      case Crash(p) => CrashKeepsInv(s, p);
    }
  }

  lemma {:induction false} UndisturbedInv(run: seq<Action>)
    requires Undisturbed(run)
    ensures Inv(Exec(INITIAL, run)) && NoOverlap(Exec(INITIAL, run)) && NoTheft(INITIAL, run)
    decreases |run|
  {
    hide Step, Theft, CalmDeath;
    if run != [] {
      var before := run[..|run| - 1];
      UndisturbedInv(before);
      InvNoTheft(Exec(INITIAL, before), run[|run| - 1]);
      StepKeepsInv(Exec(INITIAL, before), run[|run| - 1]);
    }
  }

  /**
   * Mutators, initializers, recoverers and crashes in any interleaving that meets (a) and (b): no
   * retirement is a theft and at most one live process is inside.
   */
  lemma UndisturbedRunsExclude(run: seq<Action>)
    requires Undisturbed(run)
    ensures NoTheft(INITIAL, run) && Exclusive(Exec(INITIAL, run))
  {
    hide *;
    UndisturbedInv(run);
    ExclusionExactly(run);
  }
}
