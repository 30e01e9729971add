/** Undisturbed operations on the conductor lock: each goes through, and each leaves nothing of itself behind. */
module StoreLockProgress {
  import opened Wrappers
  import opened StoreLock
  import opened StoreLockRuns

  /** The state with one process back where it began. */
  function Resting(s: State, p: Process): State {
    To(s, p, Idle)
  }

  lemma Then(rule: Rule, s: State, run: seq<Action>, t: State, p: Process, n: nat, u: State) returns (whole: seq<Action>)
    requires Leads(rule, s, run, t) && Leads(rule, t, Gos(p, n), u)
    ensures whole == run + Gos(p, n) && Leads(rule, s, whole, u)
  {
    whole := run + Gos(p, n);
    Joins(rule, s, run, t, Gos(p, n), u);
  }

  /** A mutator that is the owner, or attaches itself to an unowned run, writes the next revision and leaves no lock. */
  lemma MutatorCompletes(s: State, p: Process, owner: Option<Process>)
    requires Open(s, p) && At(s, p) == Idle && s.snapshot.Present?
    requires s.snapshot.owner == Some(p) || (s.snapshot.owner == None && owner == Some(p))
    ensures Exec(s, [Begin(p, DoMutate)] + Gos(p, 5) + [Commit(p, owner)] + Gos(p, 2)) == Resting(s.(snapshot := Present(s.snapshot.revision + 1, owner)), p)
  {
    hide Leads, Gos, Step, Exec, Follows;
    Overwrites(p);
    var rule := NobodyRecovers;
    var begun, locked := To(s, p, Starting(Mutate)), s.(lock := Some(p));
    var written := locked.(snapshot := Present(s.snapshot.revision + 1, owner));
    Begins(rule, s, p, DoMutate);
    Enters(rule, begun, p, Mutate);
    var r := Then(rule, s, [Begin(p, DoMutate)], begun, p, 5, To(locked, p, Inside(Mutate)));
    Writes(rule, To(locked, p, Inside(Mutate)), p, owner);
    Joins(rule, s, r, To(locked, p, Inside(Mutate)), [Commit(p, owner)], To(written, p, Leaving));
    Leaves(rule, To(written, p, Leaving), p);
    var whole := Then(rule, s, r + [Commit(p, owner)], To(written, p, Leaving), p, 2, To(written.(lock := None), p, Idle));
    LeadsExec(rule, s, whole, To(written.(lock := None), p, Idle));
  }

  lemma LeadsExec(rule: Rule, s: State, run: seq<Action>, t: State)
    requires Leads(rule, s, run, t)
    ensures Exec(s, run) == t
  {
  }

  lemma Writes(rule: Rule, s: State, p: Process, owner: Option<Process>)
    requires rule == NobodyRecovers && p !in s.dead && At(s, p) == Inside(Mutate) && s.snapshot.Present?
    requires s.snapshot.owner == Some(p) || (s.snapshot.owner == None && owner == Some(p))
    ensures Leads(rule, s, [Commit(p, owner)], To(s.(snapshot := Present(s.snapshot.revision + 1, owner)), p, Leaving))
  {
    hide Leads;
    Takes(rule, s, Commit(p, owner));
  }

  /** An initializer of a run without a snapshot writes the first one, unowned, and leaves no lock. */
  lemma InitializerCompletes(s: State, p: Process)
    requires Open(s, p) && At(s, p) == Idle && s.snapshot.Absent?
    ensures Exec(s, [Begin(p, DoInitialize)] + Gos(p, 6) + [Commit(p, None)] + Gos(p, 2)) == Resting(s.(snapshot := Present(0, None)), p)
  {
    hide Leads, Gos, Step, Exec, Follows;
    Overwrites(p);
    var rule := NobodyRecovers;
    var begun, locked := To(s, p, InitExamining), s.(lock := Some(p));
    var written := locked.(snapshot := Present(0, None));
    Begins(rule, s, p, DoInitialize);
    EntersToInitialize(rule, begun, p);
    var r := Then(rule, s, [Begin(p, DoInitialize)], begun, p, 6, To(locked, p, Inside(Initialize)));
    Commits(rule, To(locked, p, Inside(Initialize)), p, Initialize, None);
    Joins(rule, s, r, To(locked, p, Inside(Initialize)), [Commit(p, None)], To(written, p, Leaving));
    Leaves(rule, To(written, p, Leaving), p);
    var whole := Then(rule, s, r + [Commit(p, None)], To(written, p, Leaving), p, 2, To(written.(lock := None), p, Idle));
    LeadsExec(rule, s, whole, To(written.(lock := None), p, Idle));
  }

  /** An initializer meets a dead process's lock, sets it aside and goes inside under its own. */
  lemma SetsAside(rule: Rule, s: State, p: Process, x: Process)
    requires rule == NobodyRecovers && p !in s.dead && At(s, p) == InitExamining && s.recovery == None && s.intent == None
    requires s.lock == Some(x) && x in s.dead && x !in s.initQuarantine
    ensures Leads(rule, s, Gos(p, 9), To(s.(lock := Some(p), initQuarantine := s.initQuarantine + {x}), p, Inside(Initialize)))
  {
    hide Leads, Gos;
    Overwrites(p);
    var freed := s.(lock := None, initQuarantine := s.initQuarantine + {x});
    SeesLock(rule, s, p, x);
    FindsDead(rule, To(s, p, InitSaw(x)), p, x);
    MovesAside(rule, To(s, p, InitPending(x)), p, x);
    Enters(rule, To(freed, p, Starting(Initialize)), p, Initialize);
    JoinsGos(rule, s, p, 1, To(s, p, InitSaw(x)), 2, To(s, p, InitPending(x)));
    JoinsGos(rule, s, p, 3, To(s, p, InitPending(x)), 1, To(freed, p, Starting(Initialize)));
    JoinsGos(rule, s, p, 4, To(freed, p, Starting(Initialize)), 5, To(freed.(lock := Some(p)), p, Inside(Initialize)));
  }

  /** A dead process's lock on a run without a snapshot does not stop the next initializer. */
  lemma InitializerTakesOver(s: State, p: Process, x: Process)
    requires p !in s.dead && At(s, p) == Idle && s.recovery == None && s.intent == None && s.snapshot.Absent?
    requires s.lock == Some(x) && x in s.dead && x !in s.initQuarantine
    ensures Exec(s, [Begin(p, DoInitialize)] + Gos(p, 9) + [Commit(p, None)] + Gos(p, 2))
         == Resting(s.(lock := None, initQuarantine := s.initQuarantine + {x}, snapshot := Present(0, None)), p)
  {
    hide Leads, Gos, Step, Exec, Follows;
    Overwrites(p);
    var rule := NobodyRecovers;
    var begun, locked := To(s, p, InitExamining), s.(lock := Some(p), initQuarantine := s.initQuarantine + {x});
    var written := locked.(snapshot := Present(0, None));
    Begins(rule, s, p, DoInitialize);
    SetsAside(rule, begun, p, x);
    var r := Then(rule, s, [Begin(p, DoInitialize)], begun, p, 9, To(locked, p, Inside(Initialize)));
    Commits(rule, To(locked, p, Inside(Initialize)), p, Initialize, None);
    Joins(rule, s, r, To(locked, p, Inside(Initialize)), [Commit(p, None)], To(written, p, Leaving));
    Leaves(rule, To(written, p, Leaving), p);
    var whole := Then(rule, s, r + [Commit(p, None)], To(written, p, Leaving), p, 2, To(written.(lock := None), p, Idle));
    LeadsExec(rule, s, whole, To(written.(lock := None), p, Idle));
  }

  /** Bound to the dead owner, with its lock visible or gone, the recoverer publishes a lock of its own. */
  lemma ReplacesLock(rule: Rule, s: State, p: Process, t: Process)
    requires rule == Theftless && p !in s.dead && t in s.dead && At(s, p) == Looking(t) && t !in s.staleQuarantine
    requires s.lock == None || s.lock == Some(t)
    ensures Leads(rule, s, Gos(p, if s.lock == None then 4 else 5),
                  To(s.(lock := Some(p), staleQuarantine := s.staleQuarantine + {t}), p, RecoveredInside(t)))
  {
    hide Leads, Gos;
    Overwrites(p);
    var moved := s.(lock := None, staleQuarantine := s.staleQuarantine + {t});
    PublishesReplacement(rule, To(moved, p, Replacing(t)), p, t);
    var inside := To(moved.(lock := Some(p)), p, RecoveredInside(t));
    if s.lock == None {
      FindsNoLock(rule, s, p, t);
      JoinsGos(rule, s, p, 3, To(moved, p, Replacing(t)), 1, inside);
    } else {
      Looks(rule, s, p, t);
      Moves(rule, To(s, p, Seen(t, Some(t))), p, t, t);
      Replaces(rule, To(moved, p, Quarantined(t, Some(t))), p, t, t);
      JoinsGos(rule, s, p, 1, To(s, p, Seen(t, Some(t))), 2, To(moved, p, Quarantined(t, Some(t))));
      JoinsGos(rule, s, p, 3, To(moved, p, Quarantined(t, Some(t))), 1, To(moved, p, Replacing(t)));
      JoinsGos(rule, s, p, 4, To(moved, p, Replacing(t)), 1, inside);
    }
  }

  /** From the request to the inside, under the recovery lock, an intent and a lock of its own. */
  lemma RecoversInside(rule: Rule, s: State, p: Process, t: Process)
    requires rule == Theftless && p !in s.dead && t in s.dead && At(s, p) == RecRequested(t)
    requires s.recovery == None && s.intent == None && Owner(s) == Some(t)
    requires (s.lock == None || s.lock == Some(t)) && t !in s.staleQuarantine
    ensures Leads(rule, s, Gos(p, if s.lock == None then 9 else 10),
                  To(s.(lock := Some(p), recovery := Some(p), intent := Some(t), staleQuarantine := s.staleQuarantine + {t}), p, RecoveredInside(t)))
  {
    hide Leads, Gos;
    Overwrites(p);
    var n: nat := if s.lock == None then 4 else 5;
    var held, bound := s.(recovery := Some(p)), s.(recovery := Some(p), intent := Some(t));
    Acquires(rule, s, p, t);
    Binds(rule, To(held, p, Recovering(t)), p, t);
    ReplacesLock(rule, To(bound, p, Looking(t)), p, t);
    JoinsGos(rule, s, p, 1, To(held, p, Recovering(t)), 4, To(bound, p, Looking(t)));
    JoinsGos(rule, s, p, 5, To(bound, p, Looking(t)), n, To(bound.(lock := Some(p), staleQuarantine := s.staleQuarantine + {t}), p, RecoveredInside(t)));
  }

  /** The recovery of a dead owner makes the recoverer the owner, and leaves no lock, no intent and no recovery lock. */
  lemma RecoveryCompletes(s: State, p: Process, t: Process)
    requires p !in s.dead && t in s.dead && At(s, p) == Idle && s.recovery == None && s.intent == None && Owner(s) == Some(t)
    requires (s.lock == None || s.lock == Some(t)) && t !in s.staleQuarantine
    ensures Exec(s, [Begin(p, DoRecover(t))] + Gos(p, if s.lock == None then 9 else 10) + ([Commit(p, Some(p))] + Gos(p, 5)))
         == Resting(s.(lock := None, staleQuarantine := s.staleQuarantine + {t}, snapshot := Present(s.snapshot.revision + 1, Some(p))), p)
  {
    hide Leads, Gos, Step, Exec, Follows;
    Overwrites(p);
    var rule := Theftless;
    var n: nat := if s.lock == None then 9 else 10;
    var begun, replaced := To(s, p, RecRequested(t)), s.(lock := Some(p), recovery := Some(p), intent := Some(t), staleQuarantine := s.staleQuarantine + {t});
    var end := To(replaced.(lock := None, intent := None, recovery := None, snapshot := Present(s.snapshot.revision + 1, Some(p))), p, Idle);
    Begins(rule, s, p, DoRecover(t));
    RecoversInside(rule, begun, p, t);
    var r := Then(rule, s, [Begin(p, DoRecover(t))], begun, p, n, To(replaced, p, RecoveredInside(t)));
    Concludes(rule, To(replaced, p, RecoveredInside(t)), p, t);
    Joins(rule, s, r, To(replaced, p, RecoveredInside(t)), [Commit(p, Some(p))] + Gos(p, 5), end);
    LeadsExec(rule, s, r + ([Commit(p, Some(p))] + Gos(p, 5)), end);
  }

  /** A recoverer goes on to the lock only when its target is dead and is the owner, as seen under the recovery lock. */
  lemma LooksOnlyForDeadOwners(s: State, p: Process, t: Process)
    requires p !in s.dead && PartOf(At(s, p)) == BindPart
    ensures At(Step(s, Go(p)), p) == Looking(t) <==> At(s, p) == Bound(t) && Owner(s) == Some(t) && t in s.dead
  {
  }

  /** A recovery bound to a process that is no longer the owner, or not dead, releases the recovery lock and changes nothing else. */
  lemma MistakenRecoveryEnds(s: State, p: Process, t: Process)
    requires p !in s.dead && At(s, p) == Bound(t) && s.recovery == Some(p) && !(Owner(s) == Some(t) && t in s.dead)
    ensures Exec(s, Gos(p, 3)) == Resting(s.(recovery := None), p)
  {
    hide Leads, Gos, Exec, Follows;
    Overwrites(p);
    var rule := NobodyRecovers;
    FirstQuiet(rule, s, p, To(s, p, RecUnlocking));
    Unlocks(rule, To(s, p, RecUnlocking), p);
    JoinsGos(rule, s, p, 1, To(s, p, RecUnlocking), 2, To(s.(recovery := None), p, Idle));
    LeadsExec(rule, s, Gos(p, 3), To(s.(recovery := None), p, Idle));
  }

  /** An operation that throws inside writes nothing and leaves no lock. */
  lemma AbortReleases(s: State, p: Process)
    requires p !in s.dead && At(s, p).Inside? && s.lock == Some(p)
    ensures Exec(s, [Abort(p)] + Gos(p, 2)) == Resting(s.(lock := None), p)
  {
    hide Leads, Gos, Exec, Follows;
    Overwrites(p);
    var rule := NobodyRecovers;
    Takes(rule, s, Abort(p));
    Leaves(rule, To(s, p, Leaving), p);
    var whole := Then(rule, s, [Abort(p)], To(s, p, Leaving), p, 2, To(s.(lock := None), p, Idle));
    LeadsExec(rule, s, whole, To(s.(lock := None), p, Idle));
  }

  /** A recovery that throws before it holds the conductor lock releases the recovery lock and keeps any intent. */
  lemma AbortedRecoveryUnlocks(s: State, p: Process)
    requires p !in s.dead && s.recovery == Some(p) && (PartOf(At(s, p)) == BindPart || PartOf(At(s, p)) == ReplacePart)
    ensures Exec(s, [Abort(p)] + Gos(p, 2)) == Resting(s.(recovery := None), p)
  {
    hide Leads, Gos, Exec, Follows;
    Overwrites(p);
    var rule := NobodyRecovers;
    Takes(rule, s, Abort(p));
    Unlocks(rule, To(s, p, RecUnlocking), p);
    var whole := Then(rule, s, [Abort(p)], To(s, p, RecUnlocking), p, 2, To(s.(recovery := None), p, Idle));
    LeadsExec(rule, s, whole, To(s.(recovery := None), p, Idle));
  }

  lemma LeavesUnfinished(rule: Rule, s: State, p: Process)
    requires p !in s.dead && At(s, p) == RecLeaving(false) && s.lock == Some(p)
    ensures Leads(rule, s, Gos(p, 3), To(s.(lock := None), p, RecUnlocking))
  {
    hide Leads, Gos;
    Overwrites(p);
    var freed := s.(lock := None);
    FirstQuiet(rule, s, p, To(s, p, RecRetiring(false)));
    StoreLockRuns.Next(rule, s, p, 1, To(s, p, RecRetiring(false)), To(freed, p, RecDropping(false)));
    StoreLockRuns.Next(rule, s, p, 2, To(freed, p, RecDropping(false)), To(freed, p, RecUnlocking));
  }

  /** A recovery that throws inside releases its lock and the recovery lock, and keeps the intent for the next one. */
  lemma AbortedReplacementReleases(s: State, p: Process)
    requires p !in s.dead && At(s, p).RecoveredInside? && s.lock == Some(p) && s.recovery == Some(p)
    ensures Exec(s, [Abort(p)] + Gos(p, 5)) == Resting(s.(lock := None, recovery := None), p)
  {
    var rule := NobodyRecovers;
    var left, freed := To(s, p, RecLeaving(false)), s.(lock := None);
    Takes(rule, s, Abort(p));
    assert Step(s, Abort(p)) == left;
    hide Leads, Gos, Step, Exec, Follows;
    Overwrites(p);
    LeavesUnfinished(rule, left, p);
    Unlocks(rule, To(freed, p, RecUnlocking), p);
    JoinsGos(rule, left, p, 3, To(freed, p, RecUnlocking), 2, To(freed.(recovery := None), p, Idle));
    var whole := Then(rule, s, [Abort(p)], left, p, 5, To(freed.(recovery := None), p, Idle));
    LeadsExec(rule, s, whole, To(freed.(recovery := None), p, Idle));
  }
}
