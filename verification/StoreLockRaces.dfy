/**
 * Three families of runs that put two live processes inside together, one run of each: a late verdict of an
 * initializer, a late verdict of a recoverer, and two quarantine names for one dead lock.
 */
module StoreLockRaces {
  import opened Wrappers
  import opened StoreLock
  import opened StoreLockSafety
  import opened StoreLockRuns

  ghost predicate NoOverlapThroughout(run: seq<Action>) {
    forall i :: 0 <= i <= |run| ==> NoOverlap(Exec(INITIAL, run[..i]))
  }

  ghost predicate CalmThroughout(run: seq<Action>) {
    forall i :: 0 <= i < |run| ==> CalmDeath(Exec(INITIAL, run[..i]), run[i])
  }

  lemma CalmRun(run: seq<Action>)
    requires Follows(Calm, INITIAL, run)
    ensures CalmThroughout(run)
  {
    hide Exec, Follows, CalmDeath;
    forall i | 0 <= i < |run| ensures CalmDeath(Exec(INITIAL, run[..i]), run[i]) {
      FollowsPrefix(Calm, INITIAL, run, i);
    }
  }

  lemma RecoveryUnexamined(pc: Pc, x: Process)
    ensures RecoveryExamined(pc, x) ==> Recovers(pc)
    ensures InitExamined(pc, x) ==> Examining(pc)
  {
  }

  lemma OneSideOnly(rule: Rule, run: seq<Action>)
    requires rule == NobodyRecovers || rule == NobodyExamines
    requires Follows(rule, INITIAL, run)
    ensures NoOverlapThroughout(run)
  {
    hide Exec, Follows, Recovers, Examining, RecoveryExamined, InitExamined;
    forall i | 0 <= i <= |run| ensures NoOverlap(Exec(INITIAL, run[..i])) {
      FollowsPrefix(rule, INITIAL, run, i);
      if rule == NobodyRecovers {
        NobodyRecovering(run[..i]);
      } else {
        NobodyExamining(run[..i]);
      }
      forall pc, x ensures (RecoveryExamined(pc, x) ==> Recovers(pc)) && (InitExamined(pc, x) ==> Examining(pc)) {
        RecoveryUnexamined(pc, x);
      }
    }
  }

  lemma NotExclusive(s: State, p: Process, q: Process)
    requires p != q && p !in s.dead && q !in s.dead && At(s, p).Inside? && At(s, q).Inside?
    ensures !Exclusive(s)
  {
    assert Critical(At(s, p)) && Critical(At(s, q));
  }

  // ---------- an initializer's late verdict ----------

  /** Process 2 initializes and 1 sees its lock; then 2 finishes and dies. */
  function OwnerDies(): seq<Action> {
    [Begin(2, DoInitialize)] + Gos(2, 6) + [Begin(1, DoInitialize)] + Gos(1, 1) + [Commit(2, None)] + Gos(2, 2) + [Crash(2)]
  }

  /** Process 3 mutates; 1 finds 2 dead, renames 3's lock and goes inside. */
  function LateVerdict(): seq<Action> {
    OwnerDies() + [Begin(3, DoMutate)] + Gos(3, 5) + Gos(1, 2) + Gos(1, 1) + Gos(1, 5)
  }

  lemma OwnerSeen() returns (r: seq<Action>, s: State)
    ensures r == [Begin(2, DoInitialize)] + Gos(2, 6) + [Begin(1, DoInitialize)] + Gos(1, 1)
    ensures Leads(NobodyRecovers, INITIAL, r, s)
    ensures s == INITIAL.(lock := Some(2), pcs := s.pcs) && At(s, 1) == InitSaw(2) && At(s, 2) == Inside(Initialize) && At(s, 3) == Idle
  {
    hide Leads, Gos, Step, Exec, Follows;
    var rule := NobodyRecovers;
    r := [Begin(2, DoInitialize)];
    Begins(rule, INITIAL, 2, DoInitialize);
    var s1 := To(INITIAL, 2, InitExamining);
    EntersToInitialize(rule, s1, 2);
    var s2 := To(s1.(lock := Some(2)), 2, Inside(Initialize));
    Joins(rule, INITIAL, r, s1, Gos(2, 6), s2);
    r := r + Gos(2, 6);
    Begins(rule, s2, 1, DoInitialize);
    var s3 := To(s2, 1, InitExamining);
    Joins(rule, INITIAL, r, s2, [Begin(1, DoInitialize)], s3);
    r := r + [Begin(1, DoInitialize)];
    SeesLock(rule, s3, 1, 2);
    s := To(s3, 1, InitSaw(2));
    Joins(rule, INITIAL, r, s3, Gos(1, 1), s);
    r := r + Gos(1, 1);
  }

  lemma OwnerDiesLeads() returns (s: State)
    ensures Leads(NobodyRecovers, INITIAL, OwnerDies(), s)
    ensures Open(s, 1) && s.snapshot == Present(0, None) && s.dead == {2} && s.initQuarantine == {}
    ensures At(s, 1) == InitSaw(2) && At(s, 3) == Idle
  {
    hide Leads, Gos, Step, Exec, Follows;
    var rule := NobodyRecovers;
    var r, s0 := OwnerSeen();
    Commits(rule, s0, 2, Initialize, None);
    var s1 := To(s0.(snapshot := Present(0, None)), 2, Leaving);
    Joins(rule, INITIAL, r, s0, [Commit(2, None)], s1);
    r := r + [Commit(2, None)];
    Leaves(rule, s1, 2);
    var s2 := To(s1.(lock := None), 2, Idle);
    Joins(rule, INITIAL, r, s1, Gos(2, 2), s2);
    r := r + Gos(2, 2);
    Crashes(rule, s2, 2);
    s := s2.(dead := s2.dead + {2});
    Joins(rule, INITIAL, r, s2, [Crash(2)], s);
  }

  /** The first family violates only condition (a): nobody recovers, yet two live processes are inside. */
  lemma LateVerdictBreaksExclusion()
    ensures NoOverlapThroughout(LateVerdict()) && !Exclusive(Exec(INITIAL, LateVerdict()))
  {
    hide Leads, Gos, Step, Exec, Follows, OwnerDies, NoOverlapThroughout, Exclusive;
    var rule := NobodyRecovers;
    var r := OwnerDies();
    var s := OwnerDiesLeads();
    Begins(rule, s, 3, DoMutate);
    var s1 := To(s, 3, Starting(Mutate));
    Joins(rule, INITIAL, r, s, [Begin(3, DoMutate)], s1);
    r := r + [Begin(3, DoMutate)];
    Enters(rule, s1, 3, Mutate);
    var s2 := To(s1.(lock := Some(3)), 3, Inside(Mutate));
    Joins(rule, INITIAL, r, s1, Gos(3, 5), s2);
    r := r + Gos(3, 5);
    FindsDead(rule, s2, 1, 2);
    var s3 := To(s2, 1, InitPending(2));
    Joins(rule, INITIAL, r, s2, Gos(1, 2), s3);
    r := r + Gos(1, 2);
    MovesAside(rule, s3, 1, 2);
    var s4 := To(s3.(lock := None, initQuarantine := s3.initQuarantine + {2}), 1, Starting(Initialize));
    Joins(rule, INITIAL, r, s3, Gos(1, 1), s4);
    r := r + Gos(1, 1);
    Enters(rule, s4, 1, Initialize);
    var s5 := To(s4.(lock := Some(1)), 1, Inside(Initialize));
    Joins(rule, INITIAL, r, s4, Gos(1, 5), s5);
    NotExclusive(s5, 1, 3);
    LeadsTo(rule, LateVerdict(), s5);
    OneSideOnly(rule, LateVerdict());
  }

  lemma LeadsTo(rule: Rule, run: seq<Action>, s: State)
    requires Leads(rule, INITIAL, run, s)
    ensures Exec(INITIAL, run) == s && Follows(rule, INITIAL, run)
  {
  }

  // ---------- a run with a dead owner ----------

  /** Process 1 writes the first snapshot and leaves. */
  function Genesis(): seq<Action> {
    [Begin(1, DoInitialize)] + Gos(1, 6) + [Commit(1, None)] + Gos(1, 2)
  }

  lemma GenesisLeads(rule: Rule) returns (s: State)
    ensures Leads(rule, INITIAL, Genesis(), s)
    ensures s == To(INITIAL.(snapshot := Present(0, None)), 1, Idle)
  {
    hide Leads, Gos, Step, Exec, Follows;
    Overwrites(1);
    var r := [Begin(1, DoInitialize)];
    Begins(rule, INITIAL, 1, DoInitialize);
    var s1 := To(INITIAL, 1, InitExamining);
    EntersToInitialize(rule, s1, 1);
    var s2 := To(s1.(lock := Some(1)), 1, Inside(Initialize));
    Joins(rule, INITIAL, r, s1, Gos(1, 6), s2);
    r := r + Gos(1, 6);
    Commits(rule, s2, 1, Initialize, None);
    var s3 := To(s2.(snapshot := Present(0, None)), 1, Leaving);
    Joins(rule, INITIAL, r, s2, [Commit(1, None)], s3);
    r := r + [Commit(1, None)];
    Leaves(rule, s3, 1);
    s := To(s3.(lock := None), 1, Idle);
    Joins(rule, INITIAL, r, s3, Gos(1, 2), s);
  }

  /** Process 2 makes itself the owner. */
  function Attach(): seq<Action> {
    [Begin(2, DoMutate)] + Gos(2, 5) + [Commit(2, Some(2))]
  }

  lemma AttachLeads(rule: Rule, s: State) returns (t: State)
    requires Open(s, 2) && At(s, 2) == Idle && s.snapshot == Present(0, None)
    ensures Leads(rule, s, Attach(), t)
    ensures t == To(s.(lock := Some(2), snapshot := Present(1, Some(2))), 2, Leaving)
  {
    hide Leads, Gos, Step, Exec, Follows;
    Overwrites(2);
    var r := [Begin(2, DoMutate)];
    Begins(rule, s, 2, DoMutate);
    var s1 := To(s, 2, Starting(Mutate));
    Enters(rule, s1, 2, Mutate);
    var s2 := To(s1.(lock := Some(2)), 2, Inside(Mutate));
    Joins(rule, s, r, s1, Gos(2, 5), s2);
    r := r + Gos(2, 5);
    Commits(rule, s2, 2, Mutate, Some(2));
    t := To(s2.(snapshot := Present(1, Some(2))), 2, Leaving);
    Joins(rule, s, r, s2, [Commit(2, Some(2))], t);
  }

  /** Process p begins to recover the dead owner 2 and moves its lock aside. */
  function MoveOwner(p: Process): seq<Action> {
    [Begin(p, DoRecover(2))] + Gos(p, 1) + Gos(p, 4) + Gos(p, 1) + Gos(p, 2) + Gos(p, 1)
  }

  lemma MoveOwnerLeads(rule: Rule, s: State, p: Process) returns (t: State)
    requires rule == Calm || rule == NobodyExamines
    requires p !in s.dead && 2 in s.dead && At(s, p) == Idle && s.lock == Some(2) && s.recovery == None && s.intent == None
    requires s.snapshot == Present(1, Some(2)) && 2 !in s.staleQuarantine
    ensures Leads(rule, s, MoveOwner(p), t)
    ensures t == To(s.(lock := None, recovery := Some(p), intent := Some(2), staleQuarantine := s.staleQuarantine + {2}), p, Replacing(2))
  {
    hide Leads, Gos, Step, Exec, Follows;
    Overwrites(p);
    var r := [Begin(p, DoRecover(2))];
    Begins(rule, s, p, DoRecover(2));
    var s1 := To(s, p, RecRequested(2));
    Acquires(rule, s1, p, 2);
    var s2 := To(s1.(recovery := Some(p)), p, Recovering(2));
    Joins(rule, s, r, s1, Gos(p, 1), s2);
    r := r + Gos(p, 1);
    Binds(rule, s2, p, 2);
    var s3 := To(s2.(intent := Some(2)), p, Looking(2));
    Joins(rule, s, r, s2, Gos(p, 4), s3);
    r := r + Gos(p, 4);
    t := MoveOwnerEnds(rule, s, r, s3, p);
  }

  lemma MoveOwnerEnds(rule: Rule, s: State, r: seq<Action>, s3: State, p: Process) returns (t: State)
    requires rule == Calm || rule == NobodyExamines
    requires Leads(rule, s, r, s3) && p !in s3.dead && 2 in s3.dead && At(s3, p) == Looking(2) && s3.lock == Some(2) && 2 !in s3.staleQuarantine
    ensures Leads(rule, s, r + Gos(p, 1) + Gos(p, 2) + Gos(p, 1), t)
    ensures t == To(s3.(lock := None, staleQuarantine := s3.staleQuarantine + {2}), p, Replacing(2))
  {
    hide Leads, Gos, Step, Exec, Follows;
    Overwrites(p);
    Looks(rule, s3, p, 2);
    var s4 := To(s3, p, Seen(2, Some(2)));
    Joins(rule, s, r, s3, Gos(p, 1), s4);
    Moves(rule, s4, p, 2, 2);
    var s5 := To(s4.(lock := None, staleQuarantine := s4.staleQuarantine + {2}), p, Quarantined(2, Some(2)));
    Joins(rule, s, r + Gos(p, 1), s4, Gos(p, 2), s5);
    Replaces(rule, s5, p, 2, 2);
    t := To(s5, p, Replacing(2));
    Joins(rule, s, r + Gos(p, 1) + Gos(p, 2), s5, Gos(p, 1), t);
  }

  /** Process p publishes its replacement lock, becomes the owner and unwinds. */
  function Conclude(p: Process): seq<Action> {
    Gos(p, 1) + ([Commit(p, Some(p))] + Gos(p, 5))
  }

  lemma ConcludeLeads(rule: Rule, s: State, p: Process) returns (t: State)
    requires p !in s.dead && At(s, p) == Replacing(2) && s.lock == None && s.recovery == Some(p) && s.snapshot.Present?
    ensures Leads(rule, s, Conclude(p), t)
    ensures t == To(s.(lock := None, intent := None, recovery := None, snapshot := Present(s.snapshot.revision + 1, Some(p))), p, Idle)
  {
    hide Leads, Gos, Step, Exec, Follows;
    Overwrites(p);
    PublishesReplacement(rule, s, p, 2);
    var s1 := To(s.(lock := Some(p)), p, RecoveredInside(2));
    Concludes(rule, s1, p, 2);
    t := To(s.(lock := None, intent := None, recovery := None, snapshot := Present(s.snapshot.revision + 1, Some(p))), p, Idle);
    Joins(rule, s, Gos(p, 1), s1, [Commit(p, Some(p))] + Gos(p, 5), t);
  }

  // ---------- two names for one dead lock ----------

  /** Process 1 begins to initialize; 2 becomes the owner and dies in its lock; 1 finds it dead. */
  function Examined(): seq<Action> {
    Genesis() + [Begin(1, DoInitialize)] + Attach() + [Crash(2)] + Gos(1, 3)
  }

  /** Process 4 recovers from 2's death; 3 mutates; 1, still to retire 2's lock, renames 3's and goes inside. */
  function TwoNames(): seq<Action> {
    Examined() + MoveOwner(4) + Conclude(4) + [Begin(3, DoMutate)] + Gos(3, 5) + Gos(1, 1) + Gos(1, 5)
  }

  lemma ExaminedLeads() returns (s: State)
    ensures Leads(Calm, INITIAL, Examined(), s)
    ensures s.lock == Some(2) && s.recovery == None && s.intent == None && s.snapshot == Present(1, Some(2)) && s.dead == {2}
    ensures s.initQuarantine == {} && s.staleQuarantine == {}
    ensures At(s, 1) == InitPending(2) && At(s, 3) == Idle && At(s, 4) == Idle
  {
    hide Leads, Gos, Step, Exec, Follows, Genesis, Attach;
    var rule := Calm;
    var r := Genesis();
    var s0 := GenesisLeads(rule);
    Begins(rule, s0, 1, DoInitialize);
    var s1 := To(s0, 1, InitExamining);
    Joins(rule, INITIAL, r, s0, [Begin(1, DoInitialize)], s1);
    r := r + [Begin(1, DoInitialize)];
    var s2 := AttachLeads(rule, s1);
    Joins(rule, INITIAL, r, s1, Attach(), s2);
    r := r + Attach();
    assert CalmDeath(s2, Crash(2)) by {
      forall p ensures !AwaitsVerdict(At(s2, p), 2) {
        assert At(s2, p) == if p == 2 then Leaving else if p == 1 then InitExamining else Idle;
      }
    }
    Crashes(rule, s2, 2);
    var s3 := s2.(dead := s2.dead + {2});
    Joins(rule, INITIAL, r, s2, [Crash(2)], s3);
    r := r + [Crash(2)];
    s := ExaminesDead(s3);
    Joins(rule, INITIAL, r, s3, Gos(1, 3), s);
  }

  lemma ExaminesDead(s: State) returns (t: State)
    requires 1 !in s.dead && At(s, 1) == InitExamining && s.lock == Some(2) && 2 in s.dead && s.initQuarantine == {}
    ensures Leads(Calm, s, Gos(1, 3), t) && t == To(s, 1, InitPending(2))
  {
    hide Leads, Gos, Step, Exec, Follows;
    Overwrites(1);
    SeesLock(Calm, s, 1, 2);
    FindsDead(Calm, To(s, 1, InitSaw(2)), 1, 2);
    t := To(s, 1, InitPending(2));
    JoinsGos(Calm, s, 1, 1, To(s, 1, InitSaw(2)), 2, t);
  }

  /** The second family violates only condition (b): every verdict is prompt, yet two live processes are inside. */
  lemma TwoNamesBreakExclusion()
    ensures CalmThroughout(TwoNames()) && !Exclusive(Exec(INITIAL, TwoNames()))
  {
    hide Leads, Gos, Step, Exec, Follows, Examined, MoveOwner, Conclude, CalmThroughout, Exclusive;
    var rule := Calm;
    var r := Examined();
    var s0 := ExaminedLeads();
    var s1 := MoveOwnerLeads(rule, s0, 4);
    Joins(rule, INITIAL, r, s0, MoveOwner(4), s1);
    r := r + MoveOwner(4);
    var s2 := ConcludeLeads(rule, s1, 4);
    Joins(rule, INITIAL, r, s1, Conclude(4), s2);
    r := r + Conclude(4);
    Begins(rule, s2, 3, DoMutate);
    var s3 := To(s2, 3, Starting(Mutate));
    Joins(rule, INITIAL, r, s2, [Begin(3, DoMutate)], s3);
    r := r + [Begin(3, DoMutate)];
    Enters(rule, s3, 3, Mutate);
    var s4 := To(s3.(lock := Some(3)), 3, Inside(Mutate));
    Joins(rule, INITIAL, r, s3, Gos(3, 5), s4);
    r := r + Gos(3, 5);
    MovesAside(rule, s4, 1, 2);
    var s5 := To(s4.(lock := None, initQuarantine := s4.initQuarantine + {2}), 1, Starting(Initialize));
    Joins(rule, INITIAL, r, s4, Gos(1, 1), s5);
    r := r + Gos(1, 1);
    Enters(rule, s5, 1, Initialize);
    var s6 := To(s5.(lock := Some(1)), 1, Inside(Initialize));
    Joins(rule, INITIAL, r, s5, Gos(1, 5), s6);
    NotExclusive(s6, 1, 3);
    LeadsTo(rule, TwoNames(), s6);
    CalmRun(TwoNames());
  }

  // ---------- a recoverer's late verdict ----------

  /** The owner 2 dies; 3 and 4 are cleared to publish; 5 moves 2's lock aside and dies. */
  function HalfRecovered(): seq<Action> {
    Genesis() + Attach() + [Crash(2)] + [Begin(3, DoMutate)] + Gos(3, 2) + [Begin(4, DoMutate)] + Gos(4, 2) + MoveOwner(5) + [Crash(5)]
  }

  /** Process 6 takes the recovery over; 3 publishes and 6 sees its lock; 3 withdraws and dies; 4 publishes. */
  function SeenTooEarly(): seq<Action> {
    HalfRecovered() + [Begin(6, DoRecover(2))] + Gos(6, 6) + Gos(6, 2) + Gos(3, 1) + Gos(6, 1) + Gos(3, 4) + [Crash(3)] + Gos(4, 1)
  }

  /** Finding 3 dead, 6 renames the lock of 4 and concludes; 4 goes inside without a lock, and 7 with one. */
  function RecoveryVerdict(): seq<Action> {
    SeenTooEarly() + Gos(6, 2) + Gos(6, 1) + Conclude(6) + Gos(4, 2) + [Begin(7, DoMutate)] + Gos(7, 5)
  }

  lemma TwoCleared() returns (r: seq<Action>, s: State)
    ensures r == Genesis() + Attach() + [Crash(2)] + [Begin(3, DoMutate)] + Gos(3, 2) + [Begin(4, DoMutate)] + Gos(4, 2)
    ensures Leads(NobodyExamines, INITIAL, r, s)
    ensures s.lock == Some(2) && s.recovery == None && s.intent == None && s.snapshot == Present(1, Some(2)) && s.dead == {2}
    ensures s.staleQuarantine == {} && s.replacementQuarantine == {} && s.recoveryQuarantine == {}
    ensures At(s, 3) == Cleared(Mutate) && At(s, 4) == Cleared(Mutate) && At(s, 5) == Idle && At(s, 6) == Idle && At(s, 7) == Idle
  {
    hide Leads, Gos, Step, Exec, Follows, Genesis, Attach;
    var rule := NobodyExamines;
    r := Genesis();
    var s0 := GenesisLeads(rule);
    var s1 := AttachLeads(rule, s0);
    Joins(rule, INITIAL, r, s0, Attach(), s1);
    r := r + Attach();
    CrashUnexamining(s1, 2);
    var s2 := s1.(dead := s1.dead + {2});
    Joins(rule, INITIAL, r, s1, [Crash(2)], s2);
    r := r + [Crash(2)];
    Begins(rule, s2, 3, DoMutate);
    var s3 := To(s2, 3, Starting(Mutate));
    Joins(rule, INITIAL, r, s2, [Begin(3, DoMutate)], s3);
    r := r + [Begin(3, DoMutate)];
    Clears(rule, s3, 3, Mutate);
    var s4 := To(s3, 3, Cleared(Mutate));
    Joins(rule, INITIAL, r, s3, Gos(3, 2), s4);
    r := r + Gos(3, 2);
    Begins(rule, s4, 4, DoMutate);
    var s5 := To(s4, 4, Starting(Mutate));
    Joins(rule, INITIAL, r, s4, [Begin(4, DoMutate)], s5);
    r := r + [Begin(4, DoMutate)];
    Clears(rule, s5, 4, Mutate);
    s := To(s5, 4, Cleared(Mutate));
    Joins(rule, INITIAL, r, s5, Gos(4, 2), s);
    r := r + Gos(4, 2);
  }

  lemma CrashUnexamining(s: State, p: Process)
    requires p !in s.dead && !Examining(At(s, p))
    ensures Leads(NobodyExamines, s, [Crash(p)], s.(dead := s.dead + {p}))
  {
    hide Leads;
    Crashes(NobodyExamines, s, p);
  }

  lemma HalfRecoveredLeads() returns (s: State)
    ensures Leads(NobodyExamines, INITIAL, HalfRecovered(), s)
    ensures s.lock == None && s.recovery == Some(5) && s.intent == Some(2) && s.snapshot == Present(1, Some(2)) && s.dead == {2, 5}
    ensures s.staleQuarantine == {2} && s.replacementQuarantine == {} && s.recoveryQuarantine == {}
    ensures At(s, 3) == Cleared(Mutate) && At(s, 4) == Cleared(Mutate) && At(s, 6) == Idle && At(s, 7) == Idle
  {
    hide Leads, Gos, Step, Exec, Follows, Genesis, Attach, MoveOwner;
    var rule := NobodyExamines;
    var r, s0 := TwoCleared();
    var s1 := MoveOwnerLeads(rule, s0, 5);
    Joins(rule, INITIAL, r, s0, MoveOwner(5), s1);
    CrashUnexamining(s1, 5);
    s := s1.(dead := s1.dead + {5});
    Joins(rule, INITIAL, r + MoveOwner(5), s1, [Crash(5)], s);
  }

  lemma Resumed() returns (r: seq<Action>, s: State)
    ensures r == HalfRecovered() + [Begin(6, DoRecover(2))] + Gos(6, 6) + Gos(6, 2)
    ensures Leads(NobodyExamines, INITIAL, r, s)
    ensures s.lock == None && s.recovery == Some(6) && s.intent == Some(2) && s.snapshot == Present(1, Some(2)) && s.dead == {2, 5}
    ensures s.staleQuarantine == {2} && s.replacementQuarantine == {}
    ensures At(s, 3) == Cleared(Mutate) && At(s, 4) == Cleared(Mutate) && At(s, 6) == Looking(2) && At(s, 7) == Idle
  {
    hide Leads, Gos, Step, Exec, Follows, HalfRecovered;
    var rule := NobodyExamines;
    r := HalfRecovered();
    var s0 := HalfRecoveredLeads();
    Begins(rule, s0, 6, DoRecover(2));
    var s1 := To(s0, 6, RecRequested(2));
    Joins(rule, INITIAL, r, s0, [Begin(6, DoRecover(2))], s1);
    r := r + [Begin(6, DoRecover(2))];
    TakesOver(rule, s1, 6, 2, 5);
    var s2 := To(s1.(recovery := Some(6), recoveryQuarantine := s1.recoveryQuarantine + {5}), 6, Recovering(2));
    Joins(rule, INITIAL, r, s1, Gos(6, 6), s2);
    r := r + Gos(6, 6);
    BindsAgain(rule, s2, 6, 2);
    s := To(s2, 6, Looking(2));
    Joins(rule, INITIAL, r, s2, Gos(6, 2), s);
    r := r + Gos(6, 2);
  }

  lemma SeesThree() returns (r: seq<Action>, s: State)
    ensures r == HalfRecovered() + [Begin(6, DoRecover(2))] + Gos(6, 6) + Gos(6, 2) + Gos(3, 1) + Gos(6, 1)
    ensures Leads(NobodyExamines, INITIAL, r, s)
    ensures s.lock == Some(3) && s.recovery == Some(6) && s.intent == Some(2) && s.snapshot == Present(1, Some(2)) && s.dead == {2, 5}
    ensures s.staleQuarantine == {2} && s.replacementQuarantine == {}
    ensures At(s, 3) == Published(Mutate) && At(s, 4) == Cleared(Mutate) && At(s, 6) == Seen(2, Some(3)) && At(s, 7) == Idle
  {
    hide Leads, Gos, Step, Exec, Follows, HalfRecovered;
    var rule := NobodyExamines;
    var s3;
    r, s3 := Resumed();
    Publishes(rule, s3, 3, Mutate);
    var s4 := To(s3.(lock := Some(3)), 3, Published(Mutate));
    Joins(rule, INITIAL, r, s3, Gos(3, 1), s4);
    r := r + Gos(3, 1);
    Looks(rule, s4, 6, 2);
    s := To(s4, 6, Seen(2, Some(3)));
    Joins(rule, INITIAL, r, s4, Gos(6, 1), s);
    r := r + Gos(6, 1);
  }

  lemma SeenTooEarlyLeads() returns (s: State)
    ensures Leads(NobodyExamines, INITIAL, SeenTooEarly(), s)
    ensures s.lock == Some(4) && s.recovery == Some(6) && s.intent == Some(2) && s.snapshot == Present(1, Some(2)) && s.dead == {2, 3, 5}
    ensures s.staleQuarantine == {2} && s.replacementQuarantine == {}
    ensures At(s, 4) == Published(Mutate) && At(s, 6) == Seen(2, Some(3)) && At(s, 7) == Idle
  {
    hide Leads, Gos, Step, Exec, Follows, HalfRecovered;
    var rule := NobodyExamines;
    var r, s0 := SeesThree();
    Withdraws(rule, s0, 3, Mutate);
    var s1 := To(s0.(lock := None), 3, Idle);
    Joins(rule, INITIAL, r, s0, Gos(3, 4), s1);
    r := r + Gos(3, 4);
    CrashUnexamining(s1, 3);
    var s2 := s1.(dead := s1.dead + {3});
    Joins(rule, INITIAL, r, s1, [Crash(3)], s2);
    r := r + [Crash(3)];
    Publishes(rule, s2, 4, Mutate);
    s := To(s2.(lock := Some(4)), 4, Published(Mutate));
    Joins(rule, INITIAL, r, s2, Gos(4, 1), s);
  }

  /** The third family too violates only condition (a), in a recoverer's verdict: no initializer ever examines a lock. */
  lemma RecoveryVerdictBreaksExclusion()
    ensures NoOverlapThroughout(RecoveryVerdict()) && Exec(INITIAL, RecoveryVerdict()).initQuarantine == {}
    ensures !Exclusive(Exec(INITIAL, RecoveryVerdict()))
  {
    hide Leads, Gos, Step, Exec, Follows, SeenTooEarly, Conclude, NoOverlapThroughout, Exclusive;
    var rule := NobodyExamines;
    var r := SeenTooEarly();
    var s0 := SeenTooEarlyLeads();
    Moves(rule, s0, 6, 2, 3);
    var s1 := To(s0.(lock := None, replacementQuarantine := s0.replacementQuarantine + {3}), 6, Quarantined(2, Some(3)));
    Joins(rule, INITIAL, r, s0, Gos(6, 2), s1);
    r := r + Gos(6, 2);
    Replaces(rule, s1, 6, 2, 3);
    var s2 := To(s1, 6, Replacing(2));
    Joins(rule, INITIAL, r, s1, Gos(6, 1), s2);
    r := r + Gos(6, 1);
    var s3 := ConcludeLeads(rule, s2, 6);
    Joins(rule, INITIAL, r, s2, Conclude(6), s3);
    r := r + Conclude(6);
    Rechecks(rule, s3, 4, Mutate);
    var s4 := To(s3, 4, Inside(Mutate));
    Joins(rule, INITIAL, r, s3, Gos(4, 2), s4);
    r := r + Gos(4, 2);
    Begins(rule, s4, 7, DoMutate);
    var s5 := To(s4, 7, Starting(Mutate));
    Joins(rule, INITIAL, r, s4, [Begin(7, DoMutate)], s5);
    r := r + [Begin(7, DoMutate)];
    Enters(rule, s5, 7, Mutate);
    var s6 := To(s5.(lock := Some(7)), 7, Inside(Mutate));
    Joins(rule, INITIAL, r, s5, Gos(7, 5), s6);
    NotExclusive(s6, 4, 7);
    LeadsTo(rule, RecoveryVerdict(), s6);
    OneSideOnly(rule, RecoveryVerdict());
    NobodyExamining(RecoveryVerdict());
  }
}
