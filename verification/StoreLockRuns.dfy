/**
 * Runs of the conductor lock put together from stretches of consecutive steps of one process. A rule limits what
 * each step may be; every stretch says where it leads and holds under every rule its steps obey.
 */
module StoreLockRuns {
  import opened Wrappers
  import opened StoreLock
  import opened StoreLockSafety

  // ---------- runs that keep a rule ----------

  datatype Rule = Calm | NobodyRecovers | NobodyExamines | Theftless

  predicate Examining(pc: Pc) {
    pc.InitSaw? || pc.InitDead? || pc.InitPending?
  }

  ghost predicate Obeys(rule: Rule, s: State, a: Action) {
    match rule
    case Calm => CalmDeath(s, a)
    case NobodyRecovers => !(a.Begin? && a.operation.DoRecover?)
    case NobodyExamines => !Examining(At(Step(s, a), a.p))
    case Theftless => !Theft(s, a)
  }

  ghost predicate Follows(rule: Rule, s: State, run: seq<Action>)
    decreases |run|
  {
    run == [] || (Follows(rule, s, run[..|run| - 1]) && Obeys(rule, Exec(s, run[..|run| - 1]), run[|run| - 1]))
  }

  /** The run takes one state to the other, each of its steps obeying the rule. */
  ghost predicate Leads(rule: Rule, s: State, run: seq<Action>, t: State) {
    Exec(s, run) == t && Follows(rule, s, run)
  }

  lemma Stays(rule: Rule, s: State)
    ensures Leads(rule, s, [], s)
  {
  }

  lemma Extends(rule: Rule, s: State, run: seq<Action>, t: State, a: Action)
    requires Leads(rule, s, run, t) && Obeys(rule, t, a)
    ensures Leads(rule, s, run + [a], Step(t, a))
  {
    hide Step, Obeys;
    assert (run + [a])[..|run + [a]| - 1] == run;
  }

  lemma {:induction false} Joins(rule: Rule, s: State, run: seq<Action>, t: State, more: seq<Action>, u: State)
    requires Leads(rule, s, run, t) && Leads(rule, t, more, u)
    ensures Leads(rule, s, run + more, u)
    decreases |more|
  {
    hide Step, Obeys;
    if more == [] {
      assert run + more == run;
    } else {
      var front, last := more[..|more| - 1], more[|more| - 1];
      Joins(rule, s, run, t, front, Exec(t, front));
      Extends(rule, s, run + front, Exec(t, front), last);
      assert run + front + [last] == run + more;
    }
  }

  lemma Takes(rule: Rule, s: State, a: Action)
    requires Obeys(rule, s, a)
    ensures Leads(rule, s, [a], Step(s, a))
  {
    hide Step, Obeys;
    Stays(rule, s);
    Extends(rule, s, [], s, a);
    assert [] + [a] == [a];
  }

  function Gos(p: Process, n: nat): seq<Action> {
    if n == 0 then [] else Gos(p, n - 1) + [Go(p)]
  }

  // ---------- one more step of a process ----------

  /** Steps that are neither an initializer's examination nor a recoverer's retirement obey every rule. */
  predicate Quiet(pc: Pc) {
    pc != Idle && PartOf(pc) != InitPart && !pc.Moving?
  }

  lemma QuietObeys(rule: Rule, s: State, p: Process)
    requires Quiet(At(s, p)) && p !in s.dead
    ensures Obeys(rule, s, Go(p))
  {
    hide Theft;
    if rule == Theftless {
      QuietIsNoTheft(s, p);
    }
  }

  lemma QuietIsNoTheft(s: State, p: Process)
    requires Quiet(At(s, p))
    ensures !Theft(s, Go(p))
  {
  }

  lemma Next(rule: Rule, s: State, p: Process, n: nat, t: State, u: State)
    requires Leads(rule, s, Gos(p, n), t) && p !in t.dead && Quiet(At(t, p)) && GoStep(t, p) == u
    ensures Leads(rule, s, Gos(p, n + 1), u)
  {
    hide GoStep, Leads, Quiet, Obeys;
    QuietObeys(rule, t, p);
    Extends(rule, s, Gos(p, n), t, Go(p));
  }

  lemma First(rule: Rule, s: State, p: Process, u: State)
    requires p !in s.dead && Obeys(rule, s, Go(p)) && GoStep(s, p) == u
    ensures Leads(rule, s, Gos(p, 1), u)
  {
    hide GoStep, Leads, Obeys;
    Takes(rule, s, Go(p));
    assert Gos(p, 0) == [];
    assert Gos(p, 1) == [Go(p)];
  }

  lemma FirstQuiet(rule: Rule, s: State, p: Process, u: State)
    requires p !in s.dead && Quiet(At(s, p)) && GoStep(s, p) == u
    ensures Leads(rule, s, Gos(p, 1), u)
  {
    hide GoStep, Leads, Quiet, Obeys;
    QuietObeys(rule, s, p);
    First(rule, s, p, u);
  }

  lemma Overwrites(p: Process)
    ensures forall m, a, b :: Put(Put(m, p, a), p, b) == Put(m, p, b)
  {
  }

  // ---------- taking and leaving the conductor lock ----------

  /** A live process that meets no lock and no marker. */
  predicate Open(s: State, p: Process) {
    p !in s.dead && s.lock == None && s.recovery == None && s.intent == None
  }

  /** With no recovery marker, two steps clear a starting process for publication. */
  lemma Clears(rule: Rule, s: State, p: Process, k: Kind)
    requires p !in s.dead && s.recovery == None && s.intent == None && At(s, p) == Starting(k)
    ensures Leads(rule, s, Gos(p, 2), To(s, p, Cleared(k)))
  {
    hide Leads, Gos;
    Overwrites(p);
    FirstQuiet(rule, s, p, To(s, p, NoRecoverySeen(k)));
    Next(rule, s, p, 1, To(s, p, NoRecoverySeen(k)), To(s, p, Cleared(k)));
  }

  lemma Publishes(rule: Rule, s: State, p: Process, k: Kind)
    requires p !in s.dead && s.lock == None && At(s, p) == Cleared(k)
    ensures Leads(rule, s, Gos(p, 1), To(s.(lock := Some(p)), p, Published(k)))
  {
    hide Leads, Gos;
    FirstQuiet(rule, s, p, To(s.(lock := Some(p)), p, Published(k)));
  }

  /** A published process checks for a recovery again and is inside; it does not look at the lock. */
  lemma Rechecks(rule: Rule, s: State, p: Process, k: Kind)
    requires p !in s.dead && s.recovery == None && s.intent == None && At(s, p) == Published(k)
    ensures Leads(rule, s, Gos(p, 2), To(s, p, Inside(k)))
  {
    hide Leads, Gos;
    Overwrites(p);
    FirstQuiet(rule, s, p, To(s, p, Rechecked(k)));
    Next(rule, s, p, 1, To(s, p, Rechecked(k)), To(s, p, Inside(k)));
  }

  lemma GosAdd(p: Process, m: nat, n: nat)
    ensures Gos(p, m) + Gos(p, n) == Gos(p, m + n)
  {
    if n > 0 {
      GosAdd(p, m, n - 1);
    }
  }

  lemma JoinsGos(rule: Rule, s: State, p: Process, m: nat, t: State, n: nat, u: State)
    requires Leads(rule, s, Gos(p, m), t) && Leads(rule, t, Gos(p, n), u)
    ensures Leads(rule, s, Gos(p, m + n), u)
  {
    hide Leads, Gos;
    Joins(rule, s, Gos(p, m), t, Gos(p, n), u);
    GosAdd(p, m, n);
  }

  /** With no lock and no recovery marker, five steps take a starting process inside. */
  lemma Enters(rule: Rule, s: State, p: Process, k: Kind)
    requires Open(s, p) && At(s, p) == Starting(k)
    ensures Leads(rule, s, Gos(p, 5), To(s.(lock := Some(p)), p, Inside(k)))
  {
    hide Leads, Gos;
    Overwrites(p);
    var locked := s.(lock := Some(p));
    Clears(rule, s, p, k);
    Publishes(rule, To(s, p, Cleared(k)), p, k);
    Rechecks(rule, To(locked, p, Published(k)), p, k);
    JoinsGos(rule, s, p, 2, To(s, p, Cleared(k)), 1, To(locked, p, Published(k)));
    JoinsGos(rule, s, p, 3, To(locked, p, Published(k)), 2, To(locked, p, Inside(k)));
  }

  /** An initializer that meets no lock goes straight on. */
  lemma EntersToInitialize(rule: Rule, s: State, p: Process)
    requires Open(s, p) && At(s, p) == InitExamining
    ensures Leads(rule, s, Gos(p, 6), To(s.(lock := Some(p)), p, Inside(Initialize)))
  {
    hide Leads, Gos;
    Overwrites(p);
    First(rule, s, p, To(s, p, Starting(Initialize)));
    Enters(rule, To(s, p, Starting(Initialize)), p, Initialize);
    JoinsGos(rule, s, p, 1, To(s, p, Starting(Initialize)), 5, To(s.(lock := Some(p)), p, Inside(Initialize)));
  }

  /** A process leaving with its own lock visible retires it in two steps. */
  lemma Leaves(rule: Rule, s: State, p: Process)
    requires p !in s.dead && At(s, p) == Leaving && s.lock == Some(p)
    ensures Leads(rule, s, Gos(p, 2), To(s.(lock := None), p, Idle))
  {
    hide Leads, Gos;
    Overwrites(p);
    FirstQuiet(rule, s, p, To(s, p, Retiring));
    Next(rule, s, p, 1, To(s, p, Retiring), To(s.(lock := None), p, Idle));
  }

  /** A published process that finds a recovery going on takes its lock back. */
  lemma Withdraws(rule: Rule, s: State, p: Process, k: Kind)
    requires p !in s.dead && At(s, p) == Published(k) && s.lock == Some(p) && s.recovery.Some?
    ensures Leads(rule, s, Gos(p, 4), To(s.(lock := None), p, Idle))
  {
    hide Leads, Gos;
    Overwrites(p);
    FirstQuiet(rule, s, p, To(s, p, Withdrawing));
    Next(rule, s, p, 1, To(s, p, Withdrawing), To(s, p, Leaving));
    Leaves(rule, To(s, p, Leaving), p);
    JoinsGos(rule, s, p, 2, To(s, p, Leaving), 2, To(s.(lock := None), p, Idle));
  }

  // ---------- acquiring the recovery lock ----------

  lemma Acquires(rule: Rule, s: State, p: Process, t: Process)
    requires p !in s.dead && At(s, p) == RecRequested(t) && s.recovery == None
    ensures Leads(rule, s, Gos(p, 1), To(s.(recovery := Some(p)), p, Recovering(t)))
  {
    hide Leads, Gos;
    FirstQuiet(rule, s, p, To(s.(recovery := Some(p)), p, Recovering(t)));
  }

  lemma FindsHolderDead(rule: Rule, s: State, p: Process, t: Process, q: Process)
    requires p !in s.dead && At(s, p) == RecRequested(t) && s.recovery == Some(q) && q in s.dead
    ensures Leads(rule, s, Gos(p, 3), To(s, p, RecDead(t, q)))
  {
    hide Leads, Gos;
    Overwrites(p);
    FirstQuiet(rule, s, p, To(s, p, RecBlocked(t)));
    Next(rule, s, p, 1, To(s, p, RecBlocked(t)), To(s, p, RecSaw(t, q)));
    Next(rule, s, p, 2, To(s, p, RecSaw(t, q)), To(s, p, RecDead(t, q)));
  }

  lemma ReplacesHolder(rule: Rule, s: State, p: Process, t: Process, q: Process)
    requires p !in s.dead && At(s, p) == RecDead(t, q) && s.recovery.Some? && q !in s.recoveryQuarantine
    ensures Leads(rule, s, Gos(p, 3), To(s.(recovery := Some(p), recoveryQuarantine := s.recoveryQuarantine + {q}), p, Recovering(t)))
  {
    hide Leads, Gos;
    Overwrites(p);
    var freed := s.(recovery := None, recoveryQuarantine := s.recoveryQuarantine + {q});
    FirstQuiet(rule, s, p, To(s, p, RecPending(t, q)));
    Next(rule, s, p, 1, To(s, p, RecPending(t, q)), To(freed, p, RecRetry(t)));
    Next(rule, s, p, 2, To(freed, p, RecRetry(t)), To(freed.(recovery := Some(p)), p, Recovering(t)));
  }

  /** Retiring the recovery lock of a dead holder and publishing another. */
  lemma TakesOver(rule: Rule, s: State, p: Process, t: Process, q: Process)
    requires p !in s.dead && At(s, p) == RecRequested(t)
    requires s.recovery == Some(q) && q in s.dead && q !in s.recoveryQuarantine
    ensures Leads(rule, s, Gos(p, 6), To(s.(recovery := Some(p), recoveryQuarantine := s.recoveryQuarantine + {q}), p, Recovering(t)))
  {
    hide Leads, Gos;
    Overwrites(p);
    FindsHolderDead(rule, s, p, t, q);
    ReplacesHolder(rule, To(s, p, RecDead(t, q)), p, t, q);
    JoinsGos(rule, s, p, 3, To(s, p, RecDead(t, q)), 3, To(s.(recovery := Some(p), recoveryQuarantine := s.recoveryQuarantine + {q}), p, Recovering(t)));
  }

  // ---------- recovering ----------

  /** A recovery already bound to this dead owner is taken up again. */
  lemma BindsAgain(rule: Rule, s: State, p: Process, t: Process)
    requires p !in s.dead && At(s, p) == Recovering(t) && s.intent == Some(t) && Owner(s) == Some(t) && t in s.dead
    ensures Leads(rule, s, Gos(p, 2), To(s, p, Looking(t)))
  {
    hide Leads, Gos;
    Overwrites(p);
    FirstQuiet(rule, s, p, To(s, p, Bound(t)));
    Next(rule, s, p, 1, To(s, p, Bound(t)), To(s, p, Looking(t)));
  }

  lemma Intends(rule: Rule, s: State, p: Process, t: Process, v: Option<Process>)
    requires p !in s.dead && At(s, p) == Inspected(t, v) && s.intent == None && Owner(s) == Some(t) && t in s.dead
    requires v == None || v == Some(t)
    ensures Leads(rule, s, Gos(p, 2), To(s.(intent := Some(t)), p, Looking(t)))
  {
    hide Leads, Gos;
    Overwrites(p);
    var bound := s.(intent := Some(t));
    FirstQuiet(rule, s, p, To(bound, p, Bound(t)));
    Next(rule, s, p, 1, To(bound, p, Bound(t)), To(bound, p, Looking(t)));
  }

  /** A recovery of a dead owner whose lock is visible, or gone, is bound to it by an intent. */
  lemma Binds(rule: Rule, s: State, p: Process, t: Process)
    requires p !in s.dead && At(s, p) == Recovering(t) && s.intent == None && Owner(s) == Some(t) && t in s.dead
    requires s.lock == None || s.lock == Some(t)
    ensures Leads(rule, s, Gos(p, 4), To(s.(intent := Some(t)), p, Looking(t)))
  {
    hide Leads, Gos;
    Overwrites(p);
    var inspected := To(s, p, Inspected(t, s.lock));
    FirstQuiet(rule, s, p, To(s, p, Inspecting(t)));
    Next(rule, s, p, 1, To(s, p, Inspecting(t)), inspected);
    Intends(rule, inspected, p, t, s.lock);
    JoinsGos(rule, s, p, 2, inspected, 2, To(s.(intent := Some(t)), p, Looking(t)));
  }

  /** Asking for the recovery of a process that is not the owner drops a stale intent and ends. */
  lemma Declines(rule: Rule, s: State, p: Process, t: Process)
    requires p !in s.dead && At(s, p) == Recovering(t) && Owner(s) != Some(t) && s.intent != Some(t)
    requires s.intent.Some? ==> Owner(s) != s.intent
    ensures Leads(rule, s, Gos(p, 3), To(s.(intent := None), p, RecUnlocking))
  {
    hide Leads, Gos;
    Overwrites(p);
    var dropped := s.(intent := None);
    FirstQuiet(rule, s, p, To(dropped, p, Inspecting(t)));
    Next(rule, s, p, 1, To(dropped, p, Inspecting(t)), To(dropped, p, Inspected(t, s.lock)));
    Next(rule, s, p, 2, To(dropped, p, Inspected(t, s.lock)), To(dropped, p, RecUnlocking));
  }

  /** Finding no lock, a recovery goes on to publish its own. */
  lemma FindsNoLock(rule: Rule, s: State, p: Process, t: Process)
    requires p !in s.dead && At(s, p) == Looking(t) && s.lock == None
    ensures Leads(rule, s, Gos(p, 3), To(s.(staleQuarantine := s.staleQuarantine + {t}), p, Replacing(t)))
  {
    hide Leads, Gos;
    Overwrites(p);
    var moved := s.(staleQuarantine := s.staleQuarantine + {t});
    FirstQuiet(rule, s, p, To(s, p, Seen(t, None)));
    Next(rule, s, p, 1, To(s, p, Seen(t, None)), To(s, p, Quarantined(t, None)));
    Next(rule, s, p, 2, To(s, p, Quarantined(t, None)), To(moved, p, Replacing(t)));
  }

  lemma Looks(rule: Rule, s: State, p: Process, t: Process)
    requires p !in s.dead && At(s, p) == Looking(t)
    ensures Leads(rule, s, Gos(p, 1), To(s, p, Seen(t, s.lock)))
  {
    hide Leads, Gos;
    FirstQuiet(rule, s, p, To(s, p, Seen(t, s.lock)));
  }

  /** The recoverer's verdict on the lock it saw, and its rename of whatever lock is visible by now. */
  lemma Moves(rule: Rule, s: State, p: Process, t: Process, x: Process)
    requires p !in s.dead && p != x && At(s, p) == Seen(t, Some(x)) && x in s.dead && s.lock.Some?
    requires if x == t then t !in s.staleQuarantine else x !in s.replacementQuarantine
    requires rule == Theftless ==> s.lock == Some(x)
    ensures var moved := if x == t then s.(lock := None, staleQuarantine := s.staleQuarantine + {x})
                         else s.(lock := None, replacementQuarantine := s.replacementQuarantine + {x});
            Leads(rule, s, Gos(p, 2), To(moved, p, Quarantined(t, Some(x))))
  {
    hide Leads, Gos;
    Overwrites(p);
    var moved := if x == t then s.(lock := None, staleQuarantine := s.staleQuarantine + {x})
                 else s.(lock := None, replacementQuarantine := s.replacementQuarantine + {x});
    FirstQuiet(rule, s, p, To(s, p, Moving(t, x)));
    First(rule, To(s, p, Moving(t, x)), p, To(moved, p, Quarantined(t, Some(x))));
    JoinsGos(rule, s, p, 1, To(s, p, Moving(t, x)), 1, To(moved, p, Quarantined(t, Some(x))));
  }

  lemma Replaces(rule: Rule, s: State, p: Process, t: Process, x: Process)
    requires p !in s.dead && p != x && At(s, p) == Quarantined(t, Some(x)) && t in s.staleQuarantine
    ensures Leads(rule, s, Gos(p, 1), To(s, p, Replacing(t)))
  {
    hide Leads, Gos;
    assert s.staleQuarantine + {t} == s.staleQuarantine;
    FirstQuiet(rule, s, p, To(s, p, Replacing(t)));
  }

  lemma PublishesReplacement(rule: Rule, s: State, p: Process, t: Process)
    requires p !in s.dead && At(s, p) == Replacing(t) && s.lock == None
    ensures Leads(rule, s, Gos(p, 1), To(s.(lock := Some(p)), p, RecoveredInside(t)))
  {
    hide Leads, Gos;
    FirstQuiet(rule, s, p, To(s.(lock := Some(p)), p, RecoveredInside(t)));
  }

  lemma RetiresReplacement(rule: Rule, s: State, p: Process)
    requires p !in s.dead && At(s, p) == RecLeaving(true) && s.lock == Some(p)
    ensures Leads(rule, s, Gos(p, 3), To(s.(lock := None, intent := None), p, RecUnlocking))
  {
    hide Leads, Gos;
    Overwrites(p);
    var a := s.(lock := None);
    FirstQuiet(rule, s, p, To(s, p, RecRetiring(true)));
    Next(rule, s, p, 1, To(s, p, RecRetiring(true)), To(a, p, RecDropping(true)));
    Next(rule, s, p, 2, To(a, p, RecDropping(true)), To(a.(intent := None), p, RecUnlocking));
  }

  /** The recoverer makes itself the owner, releases its lock, drops the intent and releases the recovery lock. */
  lemma Concludes(rule: Rule, s: State, p: Process, t: Process)
    requires p !in s.dead && At(s, p) == RecoveredInside(t) && s.snapshot.Present? && s.lock == Some(p) && s.recovery == Some(p)
    ensures Leads(rule, s, [Commit(p, Some(p))] + Gos(p, 5),
                  To(s.(lock := None, intent := None, recovery := None, snapshot := Present(s.snapshot.revision + 1, Some(p))), p, Idle))
  {
    hide Leads, Gos;
    Overwrites(p);
    var committed := s.(snapshot := Present(s.snapshot.revision + 1, Some(p)));
    var start, retired := To(committed, p, RecLeaving(true)), To(committed.(lock := None, intent := None), p, RecUnlocking);
    var end := To(committed.(lock := None, intent := None, recovery := None), p, Idle);
    assert Obeys(rule, s, Commit(p, Some(p))) && Step(s, Commit(p, Some(p))) == start;
    hide Step, Obeys;
    Takes(rule, s, Commit(p, Some(p)));
    RetiresReplacement(rule, start, p);
    Unlocks(rule, retired, p);
    JoinsGos(rule, start, p, 3, retired, 2, end);
    Joins(rule, s, [Commit(p, Some(p))], start, Gos(p, 5), end);
  }

  lemma Unlocks(rule: Rule, s: State, p: Process)
    requires p !in s.dead && At(s, p) == RecUnlocking && s.recovery == Some(p)
    ensures Leads(rule, s, Gos(p, 2), To(s.(recovery := None), p, Idle))
  {
    hide Leads, Gos;
    Overwrites(p);
    FirstQuiet(rule, s, p, To(s, p, RecUnlockSaw));
    Next(rule, s, p, 1, To(s, p, RecUnlockSaw), To(s.(recovery := None), p, Idle));
  }

  // ---------- beginning, committing, crashing ----------

  lemma Begins(rule: Rule, s: State, p: Process, operation: Operation)
    requires p !in s.dead && At(s, p) == Idle
    requires operation.DoInitialize? ==> s.snapshot.Absent? || s.snapshot.revision == 0
    requires rule == NobodyRecovers ==> !operation.DoRecover?
    ensures Leads(rule, s, [Begin(p, operation)],
                  To(s, p, match operation case DoMutate => Starting(Mutate) case DoInitialize => InitExamining case DoRecover(t) => RecRequested(t)))
  {
    hide Leads;
    Takes(rule, s, Begin(p, operation));
  }

  /** An initializer commits the first snapshot; a mutator attaches itself to a run without an owner. */
  lemma Commits(rule: Rule, s: State, p: Process, k: Kind, owner: Option<Process>)
    requires p !in s.dead && At(s, p) == Inside(k)
    requires if k == Initialize then s.snapshot.Absent? else s.snapshot.Present? && s.snapshot.owner == None && owner == Some(p)
    ensures Leads(rule, s, [Commit(p, owner)],
                  To(s.(snapshot := if k == Initialize then Present(0, None) else Present(s.snapshot.revision + 1, owner)), p, Leaving))
  {
    hide Leads;
    Takes(rule, s, Commit(p, owner));
  }

  lemma Crashes(rule: Rule, s: State, p: Process)
    requires p !in s.dead && Obeys(rule, s, Crash(p))
    ensures Leads(rule, s, [Crash(p)], s.(dead := s.dead + {p}))
  {
    hide Leads, Obeys;
    Takes(rule, s, Crash(p));
  }

  // ---------- an initializer's examination ----------

  /** The rules that say nothing about steps of an operation under way. */
  predicate Lenient(rule: Rule) {
    rule == Calm || rule == NobodyRecovers
  }

  lemma NextLenient(rule: Rule, s: State, p: Process, n: nat, t: State, u: State)
    requires Lenient(rule) && Leads(rule, s, Gos(p, n), t) && p !in t.dead && GoStep(t, p) == u
    ensures Leads(rule, s, Gos(p, n + 1), u)
  {
    hide GoStep, Leads;
    Extends(rule, s, Gos(p, n), t, Go(p));
  }

  lemma SeesLock(rule: Rule, s: State, p: Process, x: Process)
    requires Lenient(rule) && p !in s.dead && At(s, p) == InitExamining && s.lock == Some(x)
    ensures Leads(rule, s, Gos(p, 1), To(s, p, InitSaw(x)))
  {
    hide Leads, Gos;
    First(rule, s, p, To(s, p, InitSaw(x)));
  }

  lemma FindsDead(rule: Rule, s: State, p: Process, x: Process)
    requires Lenient(rule) && p !in s.dead && At(s, p) == InitSaw(x) && x in s.dead && x !in s.initQuarantine
    ensures Leads(rule, s, Gos(p, 2), To(s, p, InitPending(x)))
  {
    hide Leads, Gos;
    Overwrites(p);
    First(rule, s, p, To(s, p, InitDead(x)));
    NextLenient(rule, s, p, 1, To(s, p, InitDead(x)), To(s, p, InitPending(x)));
  }

  /** The initializer's rename of whatever lock is visible by now. */
  lemma MovesAside(rule: Rule, s: State, p: Process, x: Process)
    requires Lenient(rule) && p !in s.dead && At(s, p) == InitPending(x) && x !in s.initQuarantine && s.lock.Some?
    ensures Leads(rule, s, Gos(p, 1), To(s.(lock := None, initQuarantine := s.initQuarantine + {x}), p, Starting(Initialize)))
  {
    hide Leads, Gos;
    First(rule, s, p, To(s.(lock := None, initQuarantine := s.initQuarantine + {x}), p, Starting(Initialize)));
  }

  // ---------- what a rule says of the whole run ----------

  lemma {:induction false} FollowsPrefix(rule: Rule, s: State, run: seq<Action>, i: nat)
    requires Follows(rule, s, run) && i <= |run|
    ensures Follows(rule, s, run[..i])
    ensures i < |run| ==> Obeys(rule, Exec(s, run[..i]), run[i])
    decreases |run|
  {
    hide Obeys, Exec;
    if i < |run| {
      var front := run[..|run| - 1];
      if i < |front| {
        FollowsPrefix(rule, s, front, i);
        assert front[..i] == run[..i] && front[i] == run[i];
      }
    } else {
      assert run[..i] == run;
    }
  }

  lemma OthersKeepPlace(s: State, a: Action, q: Process)
    requires q != a.p
    ensures At(Step(s, a), q) == At(s, q)
  {
  }

  predicate Recovers(pc: Pc) {
    PartOf(pc) == AcquirePart || HoldsRecovery(pc)
  }

  lemma StaysOutOfRecovery(s: State, a: Action)
    requires Obeys(NobodyRecovers, s, a) && !Recovers(At(s, a.p))
    ensures !Recovers(At(Step(s, a), a.p))
  {
  }

  lemma {:induction false} NobodyRecovering(run: seq<Action>)
    requires Follows(NobodyRecovers, INITIAL, run)
    ensures forall p :: !Recovers(At(Exec(INITIAL, run), p))
    decreases |run|
  {
    hide Step, Obeys, Recovers;
    if run == [] {
      assert forall p :: At(INITIAL, p) == Idle;
      assert !Recovers(Idle) by { IdleOutside(); }
    } else {
      var before, a := run[..|run| - 1], run[|run| - 1];
      NobodyRecovering(before);
      var s := Exec(INITIAL, before);
      forall p ensures !Recovers(At(Step(s, a), p)) {
        if p == a.p {
          StaysOutOfRecovery(s, a);
        } else {
          OthersKeepPlace(s, a, p);
        }
      }
    }
  }

  lemma IdleOutside()
    ensures !Recovers(Idle)
  {
  }

  lemma KeepsInitQuarantine(s: State, a: Action)
    requires !Examining(At(s, a.p))
    ensures Step(s, a).initQuarantine == s.initQuarantine
  {
  }

  lemma {:induction false} NobodyExamining(run: seq<Action>)
    requires Follows(NobodyExamines, INITIAL, run)
    ensures forall p :: !Examining(At(Exec(INITIAL, run), p))
    ensures Exec(INITIAL, run).initQuarantine == {}
    decreases |run|
  {
    hide Step, Examining;
    if run == [] {
      assert forall p :: At(INITIAL, p) == Idle;
      assert !Examining(Idle) by { IdleExaminesNothing(); }
    } else {
      var before, a := run[..|run| - 1], run[|run| - 1];
      NobodyExamining(before);
      var s := Exec(INITIAL, before);
      KeepsInitQuarantine(s, a);
      forall p ensures !Examining(At(Step(s, a), p)) {
        if p != a.p {
          OthersKeepPlace(s, a, p);
        }
      }
    }
  }

  lemma IdleExaminesNothing()
    ensures !Examining(Idle)
  {
  }

  lemma {:induction false} TheftlessIsNoTheft(s: State, run: seq<Action>)
    ensures Follows(Theftless, s, run) <==> NoTheft(s, run)
    decreases |run|
  {
    hide Theft, Exec;
    if run != [] {
      TheftlessIsNoTheft(s, run[..|run| - 1]);
    }
  }
}
