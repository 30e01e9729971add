/**
 * The durable phases of a procedure or validation effect: intent, dispatch, one durable execution
 * observation, reconciliation. Each call advances by one phase and may stop at a crash.
 */
module DurableEffects {
  import opened Wrappers

  type Hash = nat

  /** An execution observation, stored as an immutable fact. */
  datatype Fact = Fact(effectId: Hash, requestHash: Hash, result: Hash, passed: bool)
  datatype Stage = Intended | Dispatching | Observed(execution: Fact) | Reconciled(execution: Fact)
  datatype Effect = Effect(requestHash: Hash, stage: Stage)

  /** What the outside world saw: the command ran, or its observation became durable. */
  datatype Event = Ran(effectId: Hash, requestHash: Hash) | Published(fact: Fact)

  /** Where a call dies while dispatching: after the command ran, or after its observation was stored. */
  datatype Crash = Nowhere | AfterExecution | AfterResult

  datatype Outcome = Progressed | Waiting | Crashed | Conflict | Complete(execution: Fact)
  datatype Error = ConflictingObservations | ValidationFailed(execution: Fact)

  /** Everything durable, and the trace of what ran. */
  datatype World = World(effects: map<Hash, Effect>, facts: seq<Fact>, log: seq<Event>)

  function Put(effects: map<Hash, Effect>, id: Hash, effect: Effect): map<Hash, Effect> {
    effects[id := effect]
  }

  /** The world in which one effect has come to another stage. */
  function Moved(w: World, id: Hash, request: Hash, stage: Stage): World {
    w.(effects := Put(w.effects, id, Effect(request, stage)))
  }

  ghost predicate IsObservation(w: World, id: Hash, request: Hash, f: Fact) {
    f in w.facts && f.effectId == id && f.requestHash == request
  }

  /** A dispatched effect: its durable observation is taken up; without one the command runs, if its output is to be had. */
  ghost predicate Dispatched(w: World, w': World, id: Hash, request: Hash, output: Option<(Hash, bool)>, crash: Crash, o: Outcome) {
    if exists f :: IsObservation(w, id, request, f) then
      o == Progressed && exists f :: IsObservation(w, id, request, f) && w' == Moved(w, id, request, Observed(f))
    else if output.None? then
      o == Waiting && w' == w
    else
      var f := Fact(id, request, output.value.0, output.value.1);
      var ran := w.(log := w.log + [Ran(id, request)]);
      var published := ran.(facts := w.facts + [f], log := ran.log + [Published(f)]);
      match crash
      case AfterExecution => o == Crashed && w' == ran
      case AfterResult => o == Crashed && w' == published
      case Nowhere => o == Progressed && w' == Moved(published, id, request, Observed(f))
  }

  /** One call: the intent, the dispatch, one durable observation, the reconciliation, each in its turn. */
  ghost predicate Reconciles(w: World, w': World, id: Hash, request: Hash, output: Option<(Hash, bool)>, crash: Crash, o: Outcome) {
    if id !in w.effects then o == Progressed && w' == Moved(w, id, request, Intended)
    else if w.effects[id].requestHash != request then o == Conflict && w' == w
    else
      match w.effects[id].stage
      case Intended => o == Progressed && w' == Moved(w, id, request, Dispatching)
      case Dispatching => Dispatched(w, w', id, request, output, crash, o)
      case Observed(f) => o == Progressed && w' == Moved(w, id, request, Reconciled(f))
      case Reconciled(f) => o == Complete(f) && w' == w
  }

  // ---------- calls in a row ----------

  ghost predicate Unobserved(w: World, id: Hash, request: Hash) {
    forall f :: f in w.facts ==> !(f.effectId == id && f.requestHash == request)
  }

  lemma CallBegins(w: World, w': World, id: Hash, request: Hash, output: Option<(Hash, bool)>, crash: Crash, o: Outcome)
    requires Reconciles(w, w', id, request, output, crash, o)
    ensures id !in w.effects ==> w' == Moved(w, id, request, Intended)
    ensures id in w.effects && w.effects[id] == Effect(request, Intended) ==> w' == Moved(w, id, request, Dispatching)
  {
  }

  lemma CallDispatches(w: World, w': World, id: Hash, request: Hash, output: (Hash, bool), crash: Crash, o: Outcome)
    requires Reconciles(w, w', id, request, Some(output), crash, o) && Unobserved(w, id, request)
    requires id in w.effects && w.effects[id] == Effect(request, Dispatching)
    ensures var f := Fact(id, request, output.0, output.1);
            var ran := w.(log := w.log + [Ran(id, request)]);
            var published := ran.(facts := w.facts + [f], log := ran.log + [Published(f)]);
            w' == match crash case AfterExecution => ran case AfterResult => published case Nowhere => Moved(published, id, request, Observed(f))
  {
    assert !exists f :: IsObservation(w, id, request, f);
  }

  lemma CallTakesUp(w: World, w': World, id: Hash, request: Hash, output: Option<(Hash, bool)>, crash: Crash, o: Outcome, f: Fact)
    requires Reconciles(w, w', id, request, output, crash, o) && id in w.effects && w.effects[id] == Effect(request, Dispatching)
    requires IsObservation(w, id, request, f) && forall g :: IsObservation(w, id, request, g) ==> g == f
    ensures w' == Moved(w, id, request, Observed(f))
  {
  }

  lemma CallEnds(w: World, w': World, id: Hash, request: Hash, output: Option<(Hash, bool)>, crash: Crash, o: Outcome, f: Fact)
    requires Reconciles(w, w', id, request, output, crash, o) && id in w.effects
    ensures w.effects[id] == Effect(request, Observed(f)) ==> w' == Moved(w, id, request, Reconciled(f))
    ensures w.effects[id] == Effect(request, Reconciled(f)) ==> w' == w && o == Complete(f)
  {
  }

  lemma PutTwice(effects: map<Hash, Effect>, id: Hash, a: Effect, b: Effect)
    ensures Put(Put(effects, id, a), id, b) == Put(effects, id, b)
  {
  }

  lemma MovedTwice(w: World, id: Hash, request: Hash, a: Stage, b: Stage)
    ensures Moved(Moved(w, id, request, a), id, request, b) == Moved(w, id, request, b)
  {
    PutTwice(w.effects, id, Effect(request, a), Effect(request, b));
  }

  predicate About(e: Event, effectId: Hash, requestHash: Hash) {
    match e
    case Ran(id, request) => id == effectId && request == requestHash
    case Published(f) => f.effectId == effectId && f.requestHash == requestHash
  }

  /** Once an observation is durable, its effect neither runs nor publishes again. */
  predicate SettledOnce(log: seq<Event>) {
    forall i, j :: 0 <= i < j < |log| && log[i].Published? ==> !About(log[j], log[i].fact.effectId, log[i].fact.requestHash)
  }

  ghost predicate Settled(log: seq<Event>, effectId: Hash, requestHash: Hash) {
    exists i :: 0 <= i < |log| && log[i].Published? && About(log[i], effectId, requestHash)
  }

  lemma SettledOnceExtends(log: seq<Event>, e: Event, effectId: Hash, requestHash: Hash)
    requires SettledOnce(log) && About(e, effectId, requestHash) && !Settled(log, effectId, requestHash)
    ensures SettledOnce(log + [e])
  {
    var longer := log + [e];
    forall i, j | 0 <= i < j < |longer| && longer[i].Published? ensures !About(longer[j], longer[i].fact.effectId, longer[i].fact.requestHash) {
      if j == |log| {
        assert !About(log[i], effectId, requestHash);
      }
    }
  }

  /** The observation among the facts of an effect and request; more than one distinct is a conflict. */
  method FindDurableObservation(facts: seq<Fact>, effectId: Hash, requestHash: Hash) returns (r: Result<Option<Fact>, Error>)
    requires forall i, j :: 0 <= i < j < |facts| ==> facts[i] != facts[j]
    ensures r.Failure? <==> exists i, j :: 0 <= i < j < |facts| && About(Published(facts[i]), effectId, requestHash) && About(Published(facts[j]), effectId, requestHash)
    ensures r == Success(None) <==> forall f :: f in facts ==> !About(Published(f), effectId, requestHash)
    ensures r.Success? && r.value.Some? ==> r.value.value in facts && About(Published(r.value.value), effectId, requestHash)
  {
    var matches: seq<Fact> := [];
    ghost var at: seq<int> := [];
    for i := 0 to |facts|
      invariant |at| == |matches|
      invariant forall k :: 0 <= k < |at| ==> 0 <= at[k] < i && facts[at[k]] == matches[k] && About(Published(matches[k]), effectId, requestHash)
      invariant forall k, l :: 0 <= k < l < |at| ==> at[k] < at[l]
      invariant forall j :: 0 <= j < i && About(Published(facts[j]), effectId, requestHash) ==> j in at
    {
      ghost var was := at;
      if About(Published(facts[i]), effectId, requestHash) {
        matches := matches + [facts[i]];
        at := at + [i];
        assert at[|at| - 1] == i;
        assert forall j :: j in was ==> j in at;
      }
    }
    if |matches| > 1 {
      assert About(Published(facts[at[0]]), effectId, requestHash) && About(Published(facts[at[1]]), effectId, requestHash);
      return Failure(ConflictingObservations);
    }
    if |matches| == 1 {
      return Success(Some(matches[0]));
    }
    return Success(None);
  }

  class EffectDriver {
    var effects: map<Hash, Effect>
    var facts: seq<Fact>
    ghost var log: seq<Event>

    constructor ()
      ensures Valid() && effects == map[] && facts == [] && log == []
    {
      effects, facts, log := map[], [], [];
    }

    /** A stored observation belongs to an effect that was dispatched with its request. */
    predicate Bound(f: Fact)
      reads this
    {
      f.effectId in effects && effects[f.effectId].requestHash == f.requestHash && effects[f.effectId].stage != Intended
    }

    /** Every later phase of an effect holds its own stored observation. */
    predicate Uses(id: Hash)
      reads this
      requires id in effects
    {
      var e := effects[id];
      e.stage.Observed? || e.stage.Reconciled? ==>
        e.stage.execution in facts && e.stage.execution.effectId == id && e.stage.execution.requestHash == e.requestHash
    }

    ghost predicate Valid()
      reads this
    {
      && SettledOnce(log)
      && (forall f :: f in facts <==> Published(f) in log)
      && (forall i, j :: 0 <= i < j < |facts| ==> facts[i].effectId != facts[j].effectId || facts[i].requestHash != facts[j].requestHash)
      && (forall f :: f in facts ==> Bound(f))
      && (forall id :: id in effects ==> Uses(id))
    }

    ghost function Durable(): World
      reads this
    {
      World(effects, facts, log)
    }

    ghost predicate HasObservation(id: Hash, request: Hash)
      reads this
    {
      exists f :: f in facts && f.effectId == id && f.requestHash == request
    }

    lemma NotSettled(id: Hash, request: Hash)
      requires Valid() && !HasObservation(id, request)
      ensures !Settled(log, id, request)
    {
      forall i | 0 <= i < |log| && log[i].Published? ensures !About(log[i], id, request) {
        var f := log[i].fact;
        assert Published(f) in log;
        assert f in facts;
      }
    }

    /** The command runs outside; a crash right after it leaves only that trace. */
    ghost method RecordRun(id: Hash, request: Hash)
      requires Valid() && !HasObservation(id, request)
      modifies this`log
      ensures Valid() && log == old(log) + [Ran(id, request)]
    {
      NotSettled(id, request);
      SettledOnceExtends(log, Ran(id, request), id, request);
      log := log + [Ran(id, request)];
    }

    /** Stores the immutable observation. */
    method Publish(f: Fact)
      requires Valid() && !HasObservation(f.effectId, f.requestHash) && Bound(f)
      modifies this`facts, this`log
      ensures Valid() && facts == old(facts) + [f] && log == old(log) + [Published(f)]
    {
      NotSettled(f.effectId, f.requestHash);
      SettledOnceExtends(log, Published(f), f.effectId, f.requestHash);
      assert forall i :: 0 <= i < |facts| ==> facts[i] in facts;
      log := log + [Published(f)];
      facts := facts + [f];
    }

    method Advance(id: Hash, stage: Stage)
      requires Valid() && id in effects && stage != Intended
      requires stage.Observed? || stage.Reconciled? ==> stage.execution in facts && stage.execution.effectId == id && stage.execution.requestHash == effects[id].requestHash
      modifies this`effects
      ensures Valid() && effects == old(effects)[id := Effect(old(effects)[id].requestHash, stage)]
    {
      effects := effects[id := Effect(effects[id].requestHash, stage)];
    }

    lemma UniqueObservation(f: Fact, g: Fact)
      requires Valid() && f in facts && g in facts && f.effectId == g.effectId && f.requestHash == g.requestHash
      ensures f == g
    {
    }

    /** While dispatching: a durable observation is reused, and only without one does the command run. */
    method Dispatch(id: Hash, output: Option<(Hash, bool)>, crash: Crash) returns (o: Outcome)
      requires Valid() && id in effects && effects[id].stage == Dispatching
      modifies this
      ensures Valid() && old(log) <= log && old(facts) <= facts
      ensures Dispatched(old(Durable()), Durable(), id, old(effects)[id].requestHash, output, crash, o)
    {
      var request := effects[id].requestHash;
      DistinctFacts();
      var found := FindDurableObservation(facts, id, request);
      if found.Failure? {
        return Conflict;
      }
      var observation := found.value;
      if observation.None? {
        if output.None? {
          return Waiting;
        }
        assert !HasObservation(id, request) by {
          assert forall f :: f in facts ==> !About(Published(f), id, request);
        }
        assert !exists f :: IsObservation(Durable(), id, request, f);
        RecordRun(id, request);
        if crash == AfterExecution {
          return Crashed;
        }
        var f := Fact(id, request, output.value.0, output.value.1);
        Publish(f);
        if crash == AfterResult {
          return Crashed;
        }
        observation := Some(f);
      } else {
        assert IsObservation(Durable(), id, request, observation.value);
      }
      Advance(id, Observed(observation.value));
      return Progressed;
    }

    lemma DistinctFacts()
      requires Valid()
      ensures forall i, j :: 0 <= i < j < |facts| ==> facts[i] != facts[j]
    {
    }

    /** One call of the reconciler. The request is computed anew and must be the persisted one. */
    method ReconcileEffect(id: Hash, request: Hash, output: Option<(Hash, bool)>, crash: Crash) returns (o: Outcome)
      requires Valid()
      modifies this
      ensures Valid() && old(log) <= log && old(facts) <= facts
      ensures Reconciles(old(Durable()), Durable(), id, request, output, crash, o)
      ensures o.Complete? ==> o.execution in facts
    {
      if id !in effects {
        assert forall f :: f in facts ==> f.effectId != id;
        effects := effects[id := Effect(request, Intended)];
        return Progressed;
      }
      if effects[id].requestHash != request {
        return Conflict;
      }
      match effects[id].stage
      case Intended =>
        Advance(id, Dispatching);
        o := Progressed;
      case Dispatching =>
        o := Dispatch(id, output, crash);
      case Observed(execution) =>
        assert Uses(id);
        Advance(id, Reconciled(execution));
        o := Progressed;
      case Reconciled(execution) =>
        assert Uses(id);
        o := Complete(execution);
    }

    /** With the same request, an output and no crash, an effect not seen before is complete after five calls, having run once. */
    method FiveCalls(id: Hash, request: Hash, result: Hash, passed: bool) returns (o: Outcome)
      requires Valid() && id !in effects
      modifies this
      ensures Valid()
      ensures var f := Fact(id, request, result, passed);
              && o == Complete(f) && effects == old(effects)[id := Effect(request, Reconciled(f))]
              && facts == old(facts) + [f] && log == old(log) + [Ran(id, request), Published(f)]
    {
      NeverObserved(id, request);
      hide Valid, Reconciles, Moved;
      ghost var f := Fact(id, request, result, passed);
      ghost var w0 := Durable();
      o := ReconcileEffect(id, request, Some((result, passed)), Nowhere);
      ghost var w1 := Durable();
      CallBegins(w0, w1, id, request, Some((result, passed)), Nowhere, o);
      o := ReconcileEffect(id, request, Some((result, passed)), Nowhere);
      ghost var w2 := Durable();
      AtStage(w0, id, request, Intended);
      CallBegins(w1, w2, id, request, Some((result, passed)), Nowhere, o);
      MovedTwice(w0, id, request, Intended, Dispatching);
      AtStage(w0, id, request, Dispatching);
      o := Completes(id, request, result, passed, w2);
      MovedFields(w0, id, request, f);
    }

    lemma AtStage(w: World, id: Hash, request: Hash, stage: Stage)
      ensures var w' := Moved(w, id, request, stage); id in w'.effects && w'.effects[id] == Effect(request, stage) && w'.facts == w.facts && w'.log == w.log
    {
    }

    lemma MovedFields(w: World, id: Hash, request: Hash, f: Fact)
      ensures Put(Moved(w, id, request, Dispatching).effects, id, Effect(request, Reconciled(f))) == Put(w.effects, id, Effect(request, Reconciled(f)))
    {
      MovedTwice(w, id, request, Dispatching, Reconciled(f));
    }

    lemma NeverObserved(id: Hash, request: Hash)
      requires Valid() && (id !in effects || effects[id].stage == Intended)
      ensures Unobserved(Durable(), id, request)
    {
      forall f | f in facts ensures !(f.effectId == id && f.requestHash == request) {
        assert Bound(f);
      }
    }

    /** A dispatched effect without an observation is complete after three calls. */
    method Completes(id: Hash, request: Hash, result: Hash, passed: bool, ghost w: World) returns (o: Outcome)
      requires Valid() && w == Durable() && id in effects && effects[id] == Effect(request, Dispatching) && Unobserved(w, id, request)
      modifies this
      ensures Valid()
      ensures var f := Fact(id, request, result, passed);
              o == Complete(f)
              && Durable() == World(Put(w.effects, id, Effect(request, Reconciled(f))), w.facts + [f], w.log + [Ran(id, request), Published(f)])
    {
      hide Valid, Reconciles, Unobserved;
      ghost var f := Fact(id, request, result, passed);
      o := ReconcileEffect(id, request, Some((result, passed)), Nowhere);
      ghost var w1 := Durable();
      CallDispatches(w, w1, id, request, (result, passed), Nowhere, o);
      assert w1 == World(Put(w.effects, id, Effect(request, Observed(f))), w.facts + [f], w.log + [Ran(id, request), Published(f)]) by {
        assert w.log + [Ran(id, request)] + [Published(f)] == w.log + [Ran(id, request), Published(f)];
      }
      o := TwoCalls(id, request, Some((result, passed)), f, w1);
      PutTwice(w.effects, id, Effect(request, Observed(f)), Effect(request, Reconciled(f)));
    }

    /** An observed effect is complete after two calls, whatever the command would say now. */
    method TwoCalls(id: Hash, request: Hash, output: Option<(Hash, bool)>, ghost f: Fact, ghost w: World) returns (o: Outcome)
      requires Valid() && w == Durable() && id in effects && effects[id] == Effect(request, Observed(f))
      modifies this
      ensures Valid()
      ensures o == Complete(f) && Durable() == w.(effects := Put(w.effects, id, Effect(request, Reconciled(f))))
    {
      hide Valid, Reconciles;
      o := ReconcileEffect(id, request, output, Nowhere);
      ghost var w1 := Durable();
      CallEnds(w, w1, id, request, output, Nowhere, o, f);
      o := ReconcileEffect(id, request, output, Nowhere);
      CallEnds(w1, Durable(), id, request, output, Nowhere, o, f);
    }

    /** Wherever a dispatch crashes, calling again completes the effect, and a published observation is not run again. */
    method CallsAfterCrash(id: Hash, request: Hash, result: Hash, passed: bool, crash: Crash) returns (o: Outcome)
      requires Valid() && id in effects && effects[id] == Effect(request, Dispatching) && Unobserved(Durable(), id, request) && crash != Nowhere
      modifies this
      ensures Valid()
      ensures var f := Fact(id, request, result, passed);
              && o == Complete(f) && effects == old(effects)[id := Effect(request, Reconciled(f))] && facts == old(facts) + [f]
              && log == old(log) + (if crash == AfterExecution then [Ran(id, request)] else []) + [Ran(id, request), Published(f)]
    {
      hide Valid, Reconciles, Unobserved;
      ghost var f := Fact(id, request, result, passed);
      ghost var w := Durable();
      o := ReconcileEffect(id, request, Some((result, passed)), crash);
      ghost var w1 := Durable();
      CallDispatches(w, w1, id, request, (result, passed), crash, o);
      if crash == AfterExecution {
        SameFacts(w, w1, id, request);
        o := Completes(id, request, result, passed, w1);
      } else {
        assert w1.log == w.log + [] + [Ran(id, request), Published(f)];
        TheObservation(id, request, f);
        o := ReconcileEffect(id, request, Some((result, passed)), Nowhere);
        ghost var w2 := Durable();
        CallTakesUp(w1, w2, id, request, Some((result, passed)), Nowhere, o, f);
        o := TwoCalls(id, request, Some((result, passed)), f, w2);
        PutTwice(w.effects, id, Effect(request, Observed(f)), Effect(request, Reconciled(f)));
      }
    }

    lemma SameFacts(w: World, w': World, id: Hash, request: Hash)
      requires Unobserved(w, id, request) && w.facts == w'.facts
      ensures Unobserved(w', id, request)
    {
    }

    lemma TheObservation(id: Hash, request: Hash, f: Fact)
      requires Valid() && f in facts && f.effectId == id && f.requestHash == request
      ensures forall g :: IsObservation(Durable(), id, request, g) ==> g == f
    {
      forall g | IsObservation(Durable(), id, request, g) ensures g == f {
        UniqueObservation(f, g);
      }
    }

    // ---------- integration validation: prefix, then final ----------

    predicate PassedEffect(id: Hash)
      reads this
    {
      id in effects && effects[id].stage.Reconciled? && effects[id].stage.execution.passed
    }

    /** Reconciled with this request and the given disposition. */
    predicate Finished(id: Hash, request: Hash, passed: bool)
      reads this
    {
      id in effects && effects[id].requestHash == request && effects[id].stage.Reconciled? && effects[id].stage.execution.passed == passed
    }

    /** The final validation exists only after the prefix validation was reconciled as a pass. */
    predicate PrefixFirst(prefix: Hash, final: Hash)
      reads this
    {
      final in effects ==> PassedEffect(prefix)
    }

    method ValidationPhase(id: Hash, request: Hash, output: Option<(Hash, bool)>, crash: Crash) returns (r: Result<bool, Error>)
      requires Valid()
      modifies this
      ensures Valid() && old(log) <= log && old(facts) <= facts
      ensures exists o :: Reconciles(old(Durable()), Durable(), id, request, output, crash, o)
      ensures r == Success(true) <==> old(Finished(id, request, true))
      ensures (r.Failure? && r.error.ValidationFailed?) <==> old(Finished(id, request, false))
      ensures r.Failure? && r.error.ValidationFailed? ==> effects[id].stage == Reconciled(r.error.execution)
      ensures r == Failure(ConflictingObservations) <==> id in old(effects) && old(effects)[id].requestHash != request
    {
      var o := ReconcileEffect(id, request, output, crash);
      match o
      case Complete(execution) => r := if execution.passed then Success(true) else Failure(ValidationFailed(execution));
      case Conflict => r := Failure(ConflictingObservations);
      case _ => r := Success(false);
    }

    /** Both validations, the final one begun and advanced only once the prefix has passed. */
    method Verify(prefix: Hash, final: Hash, prefixRequest: Hash, finalRequest: Hash,
        prefixOutput: Option<(Hash, bool)>, finalOutput: Option<(Hash, bool)>, prefixCrash: Crash, finalCrash: Crash) returns (r: Result<bool, Error>)
      requires Valid() && prefix != final && PrefixFirst(prefix, final)
      modifies this
      ensures Valid() && PrefixFirst(prefix, final) && old(log) <= log && old(facts) <= facts
      ensures r == Success(true) <==> old(Finished(prefix, prefixRequest, true) && Finished(final, finalRequest, true))
      ensures r == Success(true) ==> PassedEffect(prefix) && PassedEffect(final)
      ensures if old(Finished(prefix, prefixRequest, true))
              then exists o :: Reconciles(old(Durable()), Durable(), final, finalRequest, finalOutput, finalCrash, o)
              else exists o :: Reconciles(old(Durable()), Durable(), prefix, prefixRequest, prefixOutput, prefixCrash, o)
    {
      hide Valid, Reconciles;
      ghost var w := Durable();
      r := ValidationPhase(prefix, prefixRequest, prefixOutput, prefixCrash);
      PhaseKeeps(w, Durable(), prefix, prefixRequest, prefixOutput, prefixCrash);
      if r != Success(true) {
        return;
      }
      ghost var w1 := Durable();
      r := ValidationPhase(final, finalRequest, finalOutput, finalCrash);
      PhaseKeeps(w1, Durable(), final, finalRequest, finalOutput, finalCrash);
    }

    /** A phase touches no other effect, and leaves a finished one as it is. */
    lemma PhaseKeeps(w: World, w': World, id: Hash, request: Hash, output: Option<(Hash, bool)>, crash: Crash)
      requires exists o :: Reconciles(w, w', id, request, output, crash, o)
      ensures w'.effects.Keys == w.effects.Keys + {id}
      ensures forall k :: k in w.effects && k != id ==> w'.effects[k] == w.effects[k]
      ensures id in w.effects && w.effects[id].stage.Reconciled? ==> w' == w
    {
      var o :| Reconciles(w, w', id, request, output, crash, o);
      hide Dispatched;
      if id in w.effects && w.effects[id].requestHash == request && w.effects[id].stage == Dispatching {
        DispatchKeeps(w, w', id, request, output, crash, o);
      }
    }

    lemma DispatchKeeps(w: World, w': World, id: Hash, request: Hash, output: Option<(Hash, bool)>, crash: Crash, o: Outcome)
      requires Dispatched(w, w', id, request, output, crash, o) && id in w.effects
      ensures w'.effects.Keys == w.effects.Keys + {id}
      ensures forall k :: k in w.effects && k != id ==> w'.effects[k] == w.effects[k]
    {
    }

    /** Every phase after dispatch holds the one durable observation there is of its effect and request. */
    lemma LaterPhasesUseTheOne(id: Hash, f: Fact)
      requires Valid() && id in effects && (effects[id].stage.Observed? || effects[id].stage.Reconciled?)
      requires f in facts && f.effectId == id && f.requestHash == effects[id].requestHash
      ensures effects[id].stage.execution == f
    {
      assert Uses(id);
      UniqueObservation(f, effects[id].stage.execution);
    }
  }
}
