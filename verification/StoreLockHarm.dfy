/**
 * Every theft does harm: once a retirement has taken the lock of an exposed process that is not itself the one
 * recovering, the run can go on without another theft to two live processes inside.
 */
module StoreLockHarm {
  import opened Wrappers
  import opened StoreLock
  import opened StoreLockSafety
  import opened StoreLockRuns

  // ---------- what holds in every reachable state, thefts or not ----------

  predicate Tidy(s: State, p: Process) {
    && (s.recovery == Some(p) ==> HoldsRecovery(At(s, p)))
    && match At(s, p)
       case RecDead(_, x) => x in s.dead
       case RecPending(_, x) => x in s.dead
       case _ => true
  }

  /** A live holder of the recovery lock is recovering, a retired one is dead, and so is the target of an intent. */
  ghost predicate Orderly(s: State) {
    && (forall p :: p !in s.dead ==> Tidy(s, p))
    && (s.recovery.Some? ==> s.recovery.value !in s.recoveryQuarantine)
    && s.recoveryQuarantine <= s.dead
    && (s.intent.Some? ==> s.intent.value in s.dead)
  }

  lemma ConductorStepOrderly(s: State, p: Process)
    requires Orderly(s) && p !in s.dead && (PartOf(At(s, p)) == LockPart || PartOf(At(s, p)) == InitPart)
    ensures Orderly(GoStep(s, p))
  {
    forall q | q !in s.dead ensures Tidy(GoStep(s, p), q) {
      assert Tidy(s, p) && Tidy(s, q);
    }
  }

  lemma AcquireStepOrderly(s: State, p: Process)
    requires Orderly(s) && p !in s.dead && PartOf(At(s, p)) == AcquirePart
    ensures Orderly(AcquireStep(s, p))
  {
    assert Tidy(s, p);
    forall q | q !in s.dead ensures Tidy(AcquireStep(s, p), q) {
      assert Tidy(s, q);
    }
  }

  lemma BindStepOrderly(s: State, p: Process)
    requires Orderly(s) && p !in s.dead && PartOf(At(s, p)) == BindPart
    ensures Orderly(BindStep(s, p))
  {
    assert Tidy(s, p);
    forall q | q !in s.dead ensures Tidy(BindStep(s, p), q) {
      assert Tidy(s, q);
    }
  }

  lemma ReplaceStepOrderly(s: State, p: Process)
    requires Orderly(s) && p !in s.dead && PartOf(At(s, p)) == ReplacePart
    ensures Orderly(ReplaceStep(s, p))
  {
    assert Tidy(s, p);
    forall q | q !in s.dead ensures Tidy(ReplaceStep(s, p), q) {
      assert Tidy(s, q);
    }
  }

  lemma UnwindStepOrderly(s: State, p: Process)
    requires Orderly(s) && p !in s.dead && PartOf(At(s, p)) == UnwindPart
    ensures Orderly(UnwindStep(s, p))
  {
    forall q | q !in s.dead ensures Tidy(UnwindStep(s, p), q) {
      assert Tidy(s, p) && Tidy(s, q);
    }
  }

  lemma BeginOrderly(s: State, p: Process, operation: Operation)
    requires Orderly(s) && p !in s.dead
    ensures Orderly(BeginStep(s, p, operation))
  {
    assert Tidy(s, p);
    forall q | q !in s.dead ensures Tidy(BeginStep(s, p, operation), q) {
      assert Tidy(s, q);
    }
  }

  /** A step that leaves the recovery markers alone has only its own place to account for. */
  lemma ElsewhereOrderly(s: State, t: State, p: Process)
    requires Orderly(s) && Tidy(t, p) && forall q :: q != p ==> At(t, q) == At(s, q)
    requires t.recovery == s.recovery && t.recoveryQuarantine == s.recoveryQuarantine && t.intent == s.intent && t.dead == s.dead
    ensures Orderly(t)
  {
    forall q | q !in t.dead && q != p ensures Tidy(t, q) {
      assert Tidy(s, q);
    }
  }

  lemma CommitOrderly(s: State, p: Process, owner: Option<Process>)
    requires Orderly(s) && p !in s.dead
    ensures Orderly(CommitStep(s, p, owner))
  {
    assert Tidy(s, p);
    var t := CommitStep(s, p, owner);
    assert Tidy(t, p);
    hide CommitStep, Tidy;
    OthersKeepPlaceInCommit(s, p, owner);
    ElsewhereOrderly(s, t, p);
  }

  lemma OthersKeepPlaceInCommit(s: State, p: Process, owner: Option<Process>)
    ensures var t := CommitStep(s, p, owner);
            && (forall q :: q != p ==> At(t, q) == At(s, q))
            && t.recovery == s.recovery && t.recoveryQuarantine == s.recoveryQuarantine && t.intent == s.intent && t.dead == s.dead
  {
  }

  lemma AbortOrderly(s: State, p: Process)
    requires Orderly(s) && p !in s.dead
    ensures Orderly(AbortStep(s, p))
  {
    assert Tidy(s, p);
    forall q | q !in s.dead ensures Tidy(AbortStep(s, p), q) {
      assert Tidy(s, q);
    }
  }

  lemma CrashOrderly(s: State, p: Process)
    requires Orderly(s)
    ensures Orderly(s.(dead := s.dead + {p}))
  {
    var s' := s.(dead := s.dead + {p});
    forall q | q !in s'.dead ensures Tidy(s', q) {
      assert Tidy(s, q);
    }
  }

  lemma StepOrderly(s: State, a: Action)
    requires Orderly(s)
    ensures Orderly(Step(s, a))
  {
    hide LockStep, InitStep, AcquireStep, BindStep, ReplaceStep, UnwindStep, BeginStep, CommitStep, AbortStep, Orderly;
    if a.p !in s.dead {
      match a
      case Go(p) =>
        match PartOf(At(s, p)) {
          case LockPart => ConductorStepOrderly(s, p);
          case InitPart => ConductorStepOrderly(s, p);
          case AcquirePart => AcquireStepOrderly(s, p);
          case BindPart => BindStepOrderly(s, p);
          case ReplacePart => ReplaceStepOrderly(s, p);
          case UnwindPart => UnwindStepOrderly(s, p);
          case NoPart =>
        }
      case Begin(p, operation) => BeginOrderly(s, p, operation);
      case Commit(p, owner) => CommitOrderly(s, p, owner);
      case Abort(p) => AbortOrderly(s, p);
      case Crash(p) => CrashOrderly(s, p);
    }
  }

  lemma {:induction false} RunOrderly(run: seq<Action>)
    ensures Orderly(Exec(INITIAL, run))
    decreases |run|
  {
    hide Step, Orderly;
    if run == [] {
      InitialOrderly();
    } else {
      RunOrderly(run[..|run| - 1]);
      StepOrderly(Exec(INITIAL, run[..|run| - 1]), run[|run| - 1]);
    }
  }

  lemma InitialOrderly()
    ensures Orderly(INITIAL)
  {
  }

  // ---------- a newcomer ----------

  lemma {:induction false} Above(avoid: set<Process>) returns (r: Process)
    ensures forall x :: x in avoid ==> x < r
  {
    if avoid == {} {
      r := 0;
    } else {
      var x :| x in avoid;
      var rest := avoid - {x};
      var below := Above(rest);
      r := if below <= x then x + 1 else below;
      forall y | y in avoid ensures y < r {
        assert y == x || y in rest;
      }
    }
  }

  /** A process that has done nothing yet, other than the given ones. */
  lemma Newcomer(s: State, avoid: set<Process>) returns (r: Process)
    ensures r !in avoid && r !in s.dead && At(s, r) == Idle
  {
    r := Above(avoid + s.dead + s.pcs.Keys);
  }

  /** With no lock and no marker a newcomer gets inside. */
  lemma NewcomerEnters(s: State, avoid: set<Process>) returns (z: Process, k: Kind, run: seq<Action>)
    requires s.lock == None && s.recovery == None && s.intent == None
    ensures z !in avoid && z !in s.dead
    ensures Leads(Theftless, s, run, To(s.(lock := Some(z)), z, Inside(k)))
  {
    hide Leads, Gos;
    z := Newcomer(s, avoid);
    Overwrites(z);
    if s.snapshot.Present? {
      k := Mutate;
      run := [Begin(z, DoMutate)] + Gos(z, 5);
      Begins(Theftless, s, z, DoMutate);
      Enters(Theftless, To(s, z, Starting(Mutate)), z, Mutate);
      Joins(Theftless, s, [Begin(z, DoMutate)], To(s, z, Starting(Mutate)), Gos(z, 5), To(s.(lock := Some(z)), z, Inside(k)));
    } else {
      k := Initialize;
      run := [Begin(z, DoInitialize)] + Gos(z, 6);
      Begins(Theftless, s, z, DoInitialize);
      EntersToInitialize(Theftless, To(s, z, InitExamining), z);
      Joins(Theftless, s, [Begin(z, DoInitialize)], To(s, z, InitExamining), Gos(z, 6), To(s.(lock := Some(z)), z, Inside(k)));
    }
  }

  // ---------- clearing the markers ----------

  /** No lock, only dead recoverers, and a live exposed process. */
  ghost predicate Quieted(s: State, v: Process) {
    && s.lock == None && v !in s.dead && Exposed(At(s, v))
    && (s.recovery.Some? ==> s.recovery.value in s.dead && s.recovery.value !in s.recoveryQuarantine)
    && (s.intent.Some? ==> s.intent.value in s.dead)
  }

  /** If somebody else is recovering, it crashes. */
  lemma RecovererDies(s: State, v: Process) returns (run: seq<Action>, t: State)
    requires Orderly(s) && s.lock == None && v !in s.dead && Exposed(At(s, v)) && s.recovery != Some(v)
    ensures Leads(Theftless, s, run, t) && Quieted(t, v) && At(t, v) == At(s, v)
  {
    hide Leads;
    if s.recovery.Some? && s.recovery.value !in s.dead {
      var q := s.recovery.value;
      Crashes(Theftless, s, q);
      run, t := [Crash(q)], s.(dead := s.dead + {q});
    } else {
      Stays(Theftless, s);
      run, t := [], s;
    }
  }

  lemma AcquiresAnyhow(s: State, r: Process, target: Process) returns (run: seq<Action>, t: State)
    requires s.recovery.Some? ==> s.recovery.value in s.dead && s.recovery.value !in s.recoveryQuarantine
    requires r !in s.dead && At(s, r) == Idle
    ensures Leads(Theftless, s, run, t)
    ensures t == To(s.(recovery := Some(r), recoveryQuarantine := t.recoveryQuarantine), r, Recovering(target))
  {
    hide Leads, Gos;
    Overwrites(r);
    Begins(Theftless, s, r, DoRecover(target));
    var asked := To(s, r, RecRequested(target));
    var n: nat;
    if s.recovery == None {
      n, t := 1, To(s.(recovery := Some(r)), r, Recovering(target));
      Acquires(Theftless, asked, r, target);
    } else {
      var q := s.recovery.value;
      n, t := 6, To(s.(recovery := Some(r), recoveryQuarantine := s.recoveryQuarantine + {q}), r, Recovering(target));
      TakesOver(Theftless, asked, r, target, q);
    }
    run := [Begin(r, DoRecover(target))] + Gos(r, n);
    Joins(Theftless, s, [Begin(r, DoRecover(target))], asked, Gos(r, n), t);
  }

  /** A recovery of somebody who is not the owner clears both markers. */
  lemma ClearsStale(s: State, r: Process) returns (run: seq<Action>, t: State)
    requires r !in s.dead && At(s, r) == Recovering(r) && s.recovery == Some(r) && Owner(s) != Some(r) && s.intent != Some(r)
    requires s.intent.Some? ==> Owner(s) != s.intent
    ensures Leads(Theftless, s, run, t) && t == To(s.(intent := None, recovery := None), r, Idle)
  {
    hide Leads, Gos;
    Overwrites(r);
    run := Gos(r, 3) + Gos(r, 2);
    t := To(s.(intent := None, recovery := None), r, Idle);
    Declines(Theftless, s, r, r);
    var declined := To(s.(intent := None), r, RecUnlocking);
    Unlocks(Theftless, declined, r);
    Joins(Theftless, s, Gos(r, 3), declined, Gos(r, 2), t);
  }

  /** A recovery bound to the dead owner is carried through. */
  lemma CarriesThrough(s: State, r: Process, i: Process) returns (run: seq<Action>, t: State)
    requires r !in s.dead && At(s, r) == Recovering(i) && s.recovery == Some(r) && s.lock == None
    requires i in s.dead && s.intent == Some(i) && Owner(s) == Some(i)
    ensures Leads(Theftless, s, run, t) && t.lock == None && t.recovery == None && t.intent == None && t.dead == s.dead
    ensures forall p :: p != r ==> At(t, p) == At(s, p)
  {
    hide Leads, Gos;
    Overwrites(r);
    BindsAgain(Theftless, s, r, i);
    var looking := To(s, r, Looking(i));
    FindsNoLock(Theftless, looking, r, i);
    var replacing := To(s.(staleQuarantine := s.staleQuarantine + {i}), r, Replacing(i));
    JoinsGos(Theftless, s, r, 2, looking, 3, replacing);
    PublishesReplacement(Theftless, replacing, r, i);
    var inside := To(replacing.(lock := Some(r)), r, RecoveredInside(i));
    JoinsGos(Theftless, s, r, 5, replacing, 1, inside);
    Concludes(Theftless, inside, r, i);
    t := To(inside.(lock := None, intent := None, recovery := None, snapshot := Present(s.snapshot.revision + 1, Some(r))), r, Idle);
    run := Gos(r, 6) + ([Commit(r, Some(r))] + Gos(r, 5));
    Joins(Theftless, s, Gos(r, 6), inside, [Commit(r, Some(r))] + Gos(r, 5), t);
  }

  /** A newcomer's recovery leaves no lock and no marker behind. */
  lemma Frees(s: State, v: Process) returns (run: seq<Action>, t: State)
    requires Quieted(s, v)
    ensures Leads(Theftless, s, run, t) && t.lock == None && t.recovery == None && t.intent == None
    ensures v !in t.dead && At(t, v) == At(s, v)
  {
    hide Leads, Exposed;
    var owner := if Owner(s).Some? then {Owner(s).value} else {};
    var intended := if s.intent.Some? then {s.intent.value} else {};
    var r := Newcomer(s, owner + intended + {v});
    var recoverOwner := s.intent.Some? && Owner(s) == s.intent;
    var target := if recoverOwner then s.intent.value else r;
    var begin, a := AcquiresAnyhow(s, r, target);
    var rest;
    if recoverOwner {
      rest, t := CarriesThrough(a, r, target);
    } else {
      rest, t := ClearsStale(a, r);
    }
    run := begin + rest;
    Joins(Theftless, s, begin, a, rest, t);
  }

  // ---------- two inside ----------

  lemma BothInside(s: State, p: Process, q: Process)
    requires p != q && p !in s.dead && q !in s.dead && Critical(At(s, p)) && Critical(At(s, q))
    ensures !Exclusive(s)
  {
  }

  /** The exposed process goes inside, unless it is leaving. */
  lemma VictimEnters(s: State, v: Process) returns (run: seq<Action>, t: State)
    requires s.lock == None && s.recovery == None && s.intent == None && v !in s.dead && Exposed(At(s, v))
    requires !At(s, v).Retiring? && !At(s, v).RecRetiring?
    ensures Leads(Theftless, s, run, t) && Critical(At(t, v))
    ensures t == s.(pcs := t.pcs)
  {
    hide Leads, Gos;
    match At(s, v)
    case Published(k) =>
      Rechecks(Theftless, s, v, k);
      run, t := Gos(v, 2), To(s, v, Inside(k));
    case Rechecked(k) =>
      FirstQuiet(Theftless, s, v, To(s, v, Inside(k)));
      run, t := Gos(v, 1), To(s, v, Inside(k));
    case _ =>
      Stays(Theftless, s);
      run, t := [], s;
  }

  lemma VictimMeetsNewcomer(s: State, v: Process) returns (run: seq<Action>, t: State)
    requires s.lock == None && s.recovery == None && s.intent == None && v !in s.dead && Exposed(At(s, v))
    requires !At(s, v).Retiring? && !At(s, v).RecRetiring?
    ensures Leads(Theftless, s, run, t) && !Exclusive(t)
  {
    hide Leads, Exclusive, Exposed;
    var first, inside := VictimEnters(s, v);
    var z, k, second := NewcomerEnters(inside, {v});
    run, t := first + second, To(inside.(lock := Some(z)), z, Inside(k));
    Joins(Theftless, s, first, inside, second, t);
    BothInside(t, v, z);
  }

  /** A process that retires a lock it no longer has removes a newcomer's, and a second newcomer enters. */
  lemma VictimRemovesNewcomer(s: State, v: Process) returns (run: seq<Action>, t: State)
    requires s.lock == None && s.recovery == None && s.intent == None && v !in s.dead
    requires At(s, v).Retiring? || At(s, v).RecRetiring?
    ensures Leads(Theftless, s, run, t) && !Exclusive(t)
  {
    hide Leads, Exclusive, Gos;
    var y, k, first := NewcomerEnters(s, {v});
    var a := To(s.(lock := Some(y)), y, Inside(k));
    var b := To(a.(lock := None), v, if At(s, v).Retiring? then Idle else RecDropping(At(s, v).ok));
    FirstQuiet(Theftless, a, v, b);
    var z, l, second := NewcomerEnters(b, {v, y});
    t := To(b.(lock := Some(z)), z, Inside(l));
    Joins(Theftless, s, first, a, Gos(v, 1), b);
    Joins(Theftless, s, first + Gos(v, 1), b, second, t);
    run := first + Gos(v, 1) + second;
    BothInside(t, y, z);
  }

  lemma ExposedIsHarmed(s: State, v: Process) returns (run: seq<Action>, t: State)
    requires Orderly(s) && s.lock == None && v !in s.dead && Exposed(At(s, v)) && s.recovery != Some(v)
    ensures Leads(Theftless, s, run, t) && !Exclusive(t)
  {
    hide Leads, Orderly, Exclusive;
    var first, a := RecovererDies(s, v);
    var second, b := Frees(a, v);
    Joins(Theftless, s, first, a, second, b);
    var third;
    if At(s, v).Retiring? || At(s, v).RecRetiring? {
      third, t := VictimRemovesNewcomer(b, v);
    } else {
      third, t := VictimMeetsNewcomer(b, v);
    }
    run := first + second + third;
    Joins(Theftless, s, first + second, b, third, t);
  }

  lemma TheftTakes(s: State, a: Action)
    requires Theft(s, a)
    ensures var v, t := s.lock.value, Step(s, a);
            t.lock == None && v !in t.dead && v !in s.dead && t.recovery == s.recovery && (v != a.p ==> At(t, v) == At(s, v))
    ensures a.p != s.lock.value
  {
  }

  /** A process outside recovery never holds the recovery lock. */
  lemma OutsideRecovery(s: State, v: Process)
    requires Orderly(s) && v !in s.dead && PartOf(At(s, v)) == LockPart
    ensures s.recovery != Some(v)
  {
    assert Tidy(s, v);
  }

  /** The victim is a mutator or an initializer, or a recoverer that has lost its recovery lock as well. */
  predicate Unprotected(s: State, v: Process) {
    PartOf(At(s, v)) == LockPart || s.recovery != Some(v)
  }

  /** Any reachable theft of an unprotected victim can be followed, with no further theft, by two live processes inside. */
  lemma TheftIsHarmful(run: seq<Action>, a: Action) returns (more: seq<Action>)
    requires Theft(Exec(INITIAL, run), a) && Unprotected(Exec(INITIAL, run), Exec(INITIAL, run).lock.value)
    ensures var t := Step(Exec(INITIAL, run), a);
            NoTheft(t, more) && !Exclusive(Exec(t, more))
  {
    var s := Exec(INITIAL, run);
    TheftTakes(s, a);
    RunOrderly(run);
    hide Step, Exec, Orderly, Exclusive, NoTheft, Follows;
    StepOrderly(s, a);
    if s.recovery == Some(s.lock.value) {
      OutsideRecovery(s, s.lock.value);
    }
    var end;
    more, end := ExposedIsHarmed(Step(s, a), s.lock.value);
    TheftlessIsNoTheft(Step(s, a), more);
  }

  /** Whatever follows without theft, at most one live process is inside. */
  ghost predicate Safe(s: State) {
    forall more :: NoTheft(s, more) ==> Exclusive(Exec(s, more))
  }

  /**
   * After a run without theft, a step leaves exclusion safe in every continuation without theft exactly when the step
   * is no theft.
   */
  lemma SafeExactly(run: seq<Action>, a: Action)
    requires NoTheft(INITIAL, run)
    requires Theft(Exec(INITIAL, run), a) ==> Unprotected(Exec(INITIAL, run), Exec(INITIAL, run).lock.value)
    ensures Safe(Step(Exec(INITIAL, run), a)) <==> !Theft(Exec(INITIAL, run), a)
  {
    hide Step, Exec, Exclusive, NoTheft, Theft;
    var s := Exec(INITIAL, run);
    if Theft(s, a) {
      var more := TheftIsHarmful(run, a);
    } else {
      forall more | NoTheft(Step(s, a), more) ensures Exclusive(Exec(Step(s, a), more)) {
        ExclusiveAfter(run, a, more);
      }
    }
  }

  lemma ExclusiveAfter(run: seq<Action>, a: Action, more: seq<Action>)
    requires var s := Exec(INITIAL, run);
             NoTheft(INITIAL, run) && !Theft(s, a) && NoTheft(Step(s, a), more)
    ensures Exclusive(Exec(Step(Exec(INITIAL, run), a), more))
  {
    hide Step, Exec, Exclusive, NoTheft, Theft, Follows;
    var s := Exec(INITIAL, run);
    TheftlessIsNoTheft(INITIAL, run);
    TheftlessIsNoTheft(Step(s, a), more);
    Extends(Theftless, INITIAL, run, s, a);
    Joins(Theftless, INITIAL, run + [a], Step(s, a), more, Exec(Step(s, a), more));
    TheftlessIsNoTheft(INITIAL, run + [a] + more);
    ExclusionExactly(run + [a] + more);
  }
}
