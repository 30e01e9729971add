/**
 * Landing a composed tree on the target branch: observe, fast-forward when exactly as expected,
 * observe again, store the observation. Others may move the target between any two steps, and the
 * driver may die after the move or after storing its fact.
 */
module Landing {
  import opened Wrappers

  type Hash = nat

  datatype Tree = Tree(commit: Hash, tree: Hash)
  type Target = Option<Tree>

  datatype Verdict = AppliedExact | ProvenAbsent | Conflict
  datatype LandingFact = LandingFact(observed: Target, verdict: Verdict)
  datatype Stage = Prepared | Dispatching | Reconciled(verdict: Verdict)
  datatype Error = TargetDrift | SessionChanged | Ambiguous | WorktreeMismatch

  /** A change of the target, by the driver or by somebody else. */
  datatype Move = Ours(from: Target, to: Target) | Theirs(from: Target, to: Target)

  datatype Crash = Nowhere | AfterGit | AfterFact
  datatype Outcome = Done | Crashed | Blocked(error: Error)

  /** What others do to the target between the driver's steps. */
  datatype Interference = Interference(beforeObserve: Option<Target>, beforeMove: Option<Target>, afterMove: Option<Target>, beforeFact: Option<Target>)

  const QUIET := Interference(None, None, None, None)

  datatype Class = Old | New | Third

  function Classify(observed: Target, expected: Tree, intended: Tree): (r: Class)
    ensures r == Old <==> observed == Some(expected)
    ensures r == Third <==> observed != Some(expected) && observed != Some(intended)
  {
    if observed == Some(expected) then Old else if observed == Some(intended) then New else Third
  }

  /** Each move starts where the one before it ended. */
  predicate Chained(log: seq<Move>) {
    forall i, j :: 0 <= i && j == i + 1 < |log| ==> log[j].from == log[i].to
  }

  /** The driver moves only from the exact expected tree to the exact intended one, and only when they differ. */
  predicate ExactMoves(log: seq<Move>, expected: Tree, intended: Tree) {
    forall i :: 0 <= i < |log| && log[i].Ours? ==> log[i] == Ours(Some(expected), Some(intended)) && expected != intended
  }

  predicate HonestFact(f: LandingFact, expected: Tree, intended: Tree) {
    (f.verdict == AppliedExact ==> f.observed == Some(intended)) && (f.verdict == ProvenAbsent ==> f.observed == Some(expected))
  }

  /** The verdict in the light of the target observed for the fact. */
  function Reobserved(verdict: Verdict, observed: Target, expected: Tree, intended: Tree): (r: Verdict)
    ensures HonestFact(LandingFact(observed, r), expected, intended)
    ensures HonestFact(LandingFact(observed, verdict), expected, intended) ==> r == verdict
    ensures !HonestFact(LandingFact(observed, verdict), expected, intended) ==> (r == ProvenAbsent <==> observed == Some(expected)) && r != AppliedExact
  {
    var first := if verdict == AppliedExact && observed != Some(intended) then (if observed == Some(expected) then ProvenAbsent else Conflict) else verdict;
    if first == ProvenAbsent && observed != Some(expected) then Conflict else first
  }

  // ---------- what one attempt does ----------

  /** The target after others had their chance, and their move. */
  function After(to: Option<Target>, target: Target): Target {
    if to.Some? then to.value else target
  }

  function Changes(to: Option<Target>, target: Target): seq<Move> {
    if to.Some? then [Theirs(target, to.value)] else []
  }

  datatype Trial = Trial(target: Target, moves: seq<Move>, verdict: Result<Verdict, Error>)

  /** What is seen after the move, or after it was found done. */
  function Judged(target: Target, expected: Tree, intended: Tree, worktreeExact: bool): Result<Verdict, Error> {
    match Classify(target, expected, intended)
    case New => if worktreeExact then Success(AppliedExact) else Failure(WorktreeMismatch)
    case Old => Success(ProvenAbsent)
    case Third => Failure(Ambiguous)
  }

  /** Moving from the exact expected tree, or finding the intended one there. */
  function Moved(target: Target, expected: Tree, intended: Tree, others: Interference, worktreeExact: bool): Trial {
    match Classify(target, expected, intended)
    case Third => Trial(target, [], Failure(TargetDrift))
    case New =>
      var end := After(others.afterMove, target);
      Trial(end, Changes(others.afterMove, target), Judged(end, expected, intended, worktreeExact))
    case Old =>
      var found := After(others.beforeMove, target);
      var before := Changes(others.beforeMove, target);
      if found != Some(expected) then Trial(found, before, Failure(SessionChanged))
      else
        var end := After(others.afterMove, Some(intended));
        Trial(end, before + [Ours(found, Some(intended))] + Changes(others.afterMove, Some(intended)), Judged(end, expected, intended, worktreeExact))
  }

  function Tried(target: Target, expected: Tree, intended: Tree, others: Interference, worktreeExact: bool): Trial {
    if target == Some(intended) then Trial(target, [], Success(AppliedExact))
    else if target != Some(expected) then Trial(target, [], Success(Conflict))
    else
      var m := Moved(After(others.beforeObserve, target), expected, intended, others, worktreeExact);
      m.(moves := Changes(others.beforeObserve, target) + m.moves)
  }

  /** What each end of an attempt that had to look further says of the target and the worktree it saw last. */
  lemma VerdictsMean(target: Target, expected: Tree, intended: Tree, others: Interference, worktreeExact: bool)
    requires target == Some(expected) && expected != intended
    ensures var trial := Tried(target, expected, intended, others, worktreeExact);
            && (trial.verdict == Success(AppliedExact) ==> trial.target == Some(intended) && worktreeExact)
            && (trial.verdict == Failure(WorktreeMismatch) ==> trial.target == Some(intended) && !worktreeExact)
            && (trial.verdict == Success(ProvenAbsent) ==> trial.target == Some(expected))
            && (trial.verdict == Failure(Ambiguous) ==> trial.target != Some(intended) && trial.target != Some(expected))
            && trial.verdict != Success(Conflict)
    ensures others == QUIET ==>
              Tried(target, expected, intended, others, worktreeExact) == Trial(Some(intended), [Ours(Some(expected), Some(intended))], if worktreeExact then Success(AppliedExact) else Failure(WorktreeMismatch))
  {
  }

  datatype World = World(target: Target, stage: Stage, facts: seq<LandingFact>, recorded: Option<LandingFact>, log: seq<Move>)

  /** A landing attempt on the durable state: blocked, or its verdict reobserved, stored and recorded as far as it got. */
  predicate Lands(w: World, w': World, expected: Tree, intended: Tree, others: Interference, worktreeExact: bool, crash: Crash, o: Outcome) {
    var trial := Tried(w.target, expected, intended, others, worktreeExact);
    if trial.verdict.Failure? then
      o == Blocked(trial.verdict.error) && w' == w.(target := trial.target, log := w.log + trial.moves)
    else
      var target := After(others.beforeFact, trial.target);
      var fact := LandingFact(target, Reobserved(trial.verdict.value, target, expected, intended));
      var moved := w.(target := target, log := w.log + trial.moves + Changes(others.beforeFact, trial.target));
      match crash
      case AfterGit => o == Crashed && w' == moved
      case AfterFact => o == Crashed && w' == moved.(facts := w.facts + [fact])
      case Nowhere => o == Done && w' == moved.(facts := w.facts + [fact], recorded := Some(fact), stage := Reconciled(fact.verdict))
  }

  class LandingDriver {
    const expected: Tree
    const intended: Tree
    var target: Target
    var stage: Stage
    var facts: seq<LandingFact>
    var recorded: Option<LandingFact>
    ghost const start: Target
    ghost var log: seq<Move>

    constructor (expected: Tree, intended: Tree, target: Target)
      ensures Valid() && this.expected == expected && this.intended == intended && this.target == target && stage == Prepared && log == []
    {
      this.expected, this.intended, this.target, this.start := expected, intended, target, target;
      stage, facts, recorded, log := Prepared, [], None, [];
    }

    ghost predicate Valid()
      reads this
    {
      && Chained(log) && ExactMoves(log, expected, intended)
      && target == (if log == [] then start else log[|log| - 1].to)
      && (forall f :: f in facts ==> HonestFact(f, expected, intended))
      && (stage.Reconciled? ==> recorded.Some? && recorded.value in facts && recorded.value.verdict == stage.verdict)
    }

    ghost function Durable(): World
      reads this
    {
      World(target, stage, facts, recorded, log)
    }

    method Interfere(to: Option<Target>)
      requires Valid()
      modifies this`target, this`log
      ensures Valid() && old(log) <= log
      ensures target == After(to, old(target))
      ensures log == old(log) + Changes(to, old(target))
    {
      if to.Some? {
        log := log + [Theirs(target, to.value)];
        target := to.value;
      }
    }

    /** The check and the fast-forward, as one step. */
    method FastForward() returns (r: Result<(), Error>)
      requires Valid() && expected != intended
      modifies this`target, this`log
      ensures Valid()
      ensures r.Success? <==> old(target) == Some(expected)
      ensures r.Success? ==> target == Some(intended) && log == old(log) + [Ours(Some(expected), Some(intended))]
      ensures r.Failure? ==> target == old(target) && log == old(log)
    {
      if target != Some(expected) {
        return Failure(SessionChanged);
      }
      log := log + [Ours(target, Some(intended))];
      target := Some(intended);
      return Success(());
    }

    method LandOrReconcile(others: Interference, worktreeExact: bool) returns (r: Result<Verdict, Error>)
      requires Valid() && expected != intended
      modifies this`target, this`log
      ensures Valid() && old(log) <= log
      ensures Trial(target, log[|old(log)|..], r) == Moved(old(target), expected, intended, others, worktreeExact)
      ensures r.Success? ==> r.value == AppliedExact || r.value == ProvenAbsent
      ensures others.beforeMove.None? && others.afterMove.None? && Classify(old(target), expected, intended) == Old && worktreeExact ==>
                r == Success(AppliedExact) && target == Some(intended) && log == old(log) + [Ours(Some(expected), Some(intended))]
    {
      hide Chained, ExactMoves;
      var before := Classify(target, expected, intended);
      if before == Third {
        return Failure(TargetDrift);
      }
      if before == Old {
        Interfere(others.beforeMove);
        var moved := FastForward();
        if moved.Failure? {
          return Failure(SessionChanged);
        }
      }
      Interfere(others.afterMove);
      var after := Classify(target, expected, intended);
      if after == New {
        return if worktreeExact then Success(AppliedExact) else Failure(WorktreeMismatch);
      }
      if after == Old {
        return Success(ProvenAbsent);
      }
      return Failure(Ambiguous);
    }

    /**
     * One landing attempt. The verdict it stores agrees with the target observed for that fact, and
     * when the intended tree is already there, as after a crash past the move, nothing is moved.
     */
    method Land(others: Interference, worktreeExact: bool, crash: Crash) returns (o: Outcome)
      requires Valid() && stage == Dispatching
      modifies this`target, this`log, this`facts, this`recorded, this`stage
      ensures Valid() && old(log) <= log && old(facts) <= facts
      ensures Lands(old(Durable()), Durable(), expected, intended, others, worktreeExact, crash, o)
      ensures o == Done ==> stage.Reconciled? && |facts| == |old(facts)| + 1 && recorded == Some(facts[|facts| - 1])
      ensures o != Done ==> stage == Dispatching
      ensures o.Blocked? || (o == Crashed && crash == AfterGit) ==> facts == old(facts)
      ensures others == QUIET && old(target) == Some(intended) ==>
                log == old(log) && !o.Blocked? && (o == Done ==> stage == Reconciled(AppliedExact))
      ensures others == QUIET && old(target) == Some(expected) && expected != intended && worktreeExact ==>
                log == old(log) + [Ours(Some(expected), Some(intended))] && !o.Blocked? && (o == Done ==> stage == Reconciled(AppliedExact))
      ensures others == QUIET && old(target) != Some(expected) && old(target) != Some(intended) ==>
                log == old(log) && !o.Blocked? && (o == Done ==> stage == Reconciled(Conflict))
    {
      hide Chained, ExactMoves, Tried;
      var r := Attempt(others, worktreeExact);
      if r.Failure? {
        return Blocked(r.error);
      }
      Interfere(others.beforeFact);
      o := Store(r.value, crash);
    }

    method Attempt(others: Interference, worktreeExact: bool) returns (r: Result<Verdict, Error>)
      requires Valid() && stage == Dispatching
      modifies this`target, this`log
      ensures Valid() && old(log) <= log
      ensures Trial(target, log[|old(log)|..], r) == Tried(old(target), expected, intended, others, worktreeExact)
      ensures old(target) == Some(intended) ==> r == Success(AppliedExact) && target == old(target) && log == old(log)
      ensures old(target) != Some(expected) && old(target) != Some(intended) ==> r == Success(Conflict) && target == old(target) && log == old(log)
      ensures others == QUIET && old(target) == Some(expected) && expected != intended && worktreeExact ==>
                r == Success(AppliedExact) && target == Some(intended) && log == old(log) + [Ours(Some(expected), Some(intended))]
    {
      hide Chained, ExactMoves, Moved;
      ghost var before := log;
      if target == Some(intended) {
        assert log[|before|..] == [];
        return Success(AppliedExact);
      }
      if target != Some(expected) {
        assert log[|before|..] == [];
        return Success(Conflict);
      }
      Interfere(others.beforeObserve);
      ghost var observed := log;
      r := LandOrReconcile(others, worktreeExact);
      assert log == observed + log[|observed|..];
      assert log[|before|..] == Changes(others.beforeObserve, old(target)) + log[|observed|..];
    }

    /** Observes once more, and stores and records the verdict. */
    method Store(verdict: Verdict, crash: Crash) returns (o: Outcome)
      requires Valid() && stage == Dispatching
      modifies this`facts, this`recorded, this`stage
      ensures Valid()
      ensures o == if crash == Nowhere then Done else Crashed
      ensures facts == old(facts) + (if crash == AfterGit then [] else [LandingFact(target, Reobserved(verdict, target, expected, intended))])
      ensures o == Done ==> stage == Reconciled(Reobserved(verdict, target, expected, intended)) && recorded == Some(facts[|facts| - 1])
      ensures o != Done ==> stage == Dispatching && recorded == old(recorded)
    {
      var fact := LandingFact(target, Reobserved(verdict, target, expected, intended));
      if crash == AfterGit {
        return Crashed;
      }
      facts := facts + [fact];
      if crash == AfterFact {
        return Crashed;
      }
      recorded := Some(fact);
      stage := Reconciled(fact.verdict);
      return Done;
    }

    /** One call of the driver in its landing phases; a proven absence is dispatched again. */
    method ReconcileExact(others: Interference, worktreeExact: bool, crash: Crash) returns (o: Outcome)
      requires Valid()
      modifies this`target, this`log, this`facts, this`recorded, this`stage
      ensures Valid() && old(log) <= log && old(facts) <= facts
      ensures old(stage) == Prepared || old(stage) == Reconciled(ProvenAbsent) ==> o == Done && Durable() == old(Durable()).(stage := Dispatching)
      ensures old(stage) == Dispatching ==> Lands(old(Durable()), Durable(), expected, intended, others, worktreeExact, crash, o)
      ensures old(stage) == Reconciled(AppliedExact) || old(stage) == Reconciled(Conflict) ==> o == Done && Durable() == old(Durable())
    {
      match stage
      case Prepared =>
        stage := Dispatching;
        o := Done;
      case Dispatching =>
        o := Land(others, worktreeExact, crash);
      case Reconciled(verdict) =>
        if verdict == ProvenAbsent {
          stage := Dispatching;
        }
        o := Done;
    }

    /** With nobody interfering, a prepared landing on the expected tree is applied by two calls and one move. */
    method TwoCallsLand() returns (o: Outcome)
      requires Valid() && stage == Prepared && target == Some(expected) && expected != intended
      modifies this`target, this`log, this`facts, this`recorded, this`stage
      ensures Valid() && o == Done && stage == Reconciled(AppliedExact) && target == Some(intended)
      ensures log == old(log) + [Ours(Some(expected), Some(intended))]
      ensures facts == old(facts) + [LandingFact(Some(intended), AppliedExact)] && recorded == Some(LandingFact(Some(intended), AppliedExact))
    {
      o := ReconcileExact(QUIET, true, Nowhere);
      o := ReconcileExact(QUIET, true, Nowhere);
    }

    /** Wherever a quiet attempt crashes, the next one applies the landing without a second move. */
    method RetryAfterCrash(crash: Crash) returns (o: Outcome)
      requires Valid() && stage == Dispatching && target == Some(expected) && expected != intended && crash != Nowhere
      modifies this`target, this`log, this`facts, this`recorded, this`stage
      ensures Valid() && o == Done && stage == Reconciled(AppliedExact) && target == Some(intended)
      ensures log == old(log) + [Ours(Some(expected), Some(intended))]
    {
      o := ReconcileExact(QUIET, true, crash);
      o := ReconcileExact(QUIET, true, Nowhere);
    }

    /** In any run the driver moves the target a second time only after somebody else moved it in between. */
    lemma NoSecondMoveAlone(i: nat, j: nat) returns (k: nat)
      requires Valid() && i < j < |log| && log[i].Ours? && log[j].Ours?
      ensures i < k < j && log[k].Theirs?
    {
      k := i + 1;
      assert log[k].from == log[i].to;
    }
  }
}
