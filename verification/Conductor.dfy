/** The conductor's wake pump: wake generations, at most one pass per run, and a successor pass for wakes that came meanwhile. */
module Conductor {
  import opened Wrappers

  type Run = nat

  datatype Error = Detaching | Faulted | DurableFault

  function Lookup(m: map<Run, nat>, run: Run): Option<nat> {
    if run in m then Some(m[run]) else None
  }

  /**
   * One run: without a running pass, the last pass began at the latest wake, or the run faulted, is
   * terminal, or the service detaches; and exactly the registered pass is live.
   */
  predicate Sound(generation: Option<nat>, active: bool, pump: Option<nat>, fault: bool, detaching: bool, began: Option<nat>, ended: bool, live: nat) {
    && (generation.Some? ==> pump.Some? || detaching || fault || ended || began == generation)
    && (pump.Some? ==> generation.Some? && pump.value <= generation.value && began == pump && (detaching || active))
    && (active ==> generation.Some? && !fault && !detaching)
    && live == (if pump.Some? then 1 else 0)
  }

  /** How often a run was woken. */
  function Count(generations: map<Run, nat>, run: Run): nat {
    if run in generations then generations[run] else 0
  }

  /** A run without a pass is refused while its marker is there. */
  predicate Refused(pumps: map<Run, nat>, durable: set<Run>, run: Run) {
    run !in pumps && run in durable
  }

  /** Exactly the given runs that are not refused were woken, once each, and those without a pass began one. */
  ghost predicate Woken(generations: map<Run, nat>, pumps: map<Run, nat>, durable: set<Run>, runs: set<Run>, generations': map<Run, nat>, pumps': map<Run, nat>) {
    && (forall run :: Count(generations', run) == Count(generations, run) + (if run in runs && !Refused(pumps, durable, run) then 1 else 0))
    && (forall run :: run in pumps' <==> run in pumps || (run in runs && !Refused(pumps, durable, run)))
    && (forall run :: run in pumps' ==> pumps'[run] == if run in pumps then pumps[run] else Count(generations', run))
  }

  lemma WokenMore(generations: map<Run, nat>, pumps: map<Run, nat>, durable: set<Run>, runs: set<Run>, generations': map<Run, nat>, pumps': map<Run, nat>, run: Run)
    requires Woken(generations, pumps, durable, runs, generations', pumps') && run !in runs
    ensures Refused(pumps', durable, run) <==> Refused(pumps, durable, run)
    ensures Refused(pumps, durable, run) ==> Woken(generations, pumps, durable, runs + {run}, generations', pumps')
    ensures !Refused(pumps, durable, run) ==>
              Woken(generations, pumps, durable, runs + {run}, generations'[run := Count(generations', run) + 1],
                    if run in pumps' then pumps' else pumps'[run := Count(generations', run) + 1])
  {
  }

  class ConductorService {
    var wakeGenerations: map<Run, nat>
    var activeContexts: set<Run>
    /** The running pass of a run, by the wake generation it observed when it began. */
    var pumps: map<Run, nat>
    var faults: set<Run>
    /** Fault markers on disk. */
    var durableFaults: set<Run>
    var detaching: bool

    /** The generation at which the last pass of a run began. */
    ghost var began: map<Run, nat>
    /** Runs whose last pass found them terminal. */
    ghost var ended: set<Run>
    /** Passes begun and not yet over, for every run. */
    ghost var live: multiset<Run>

    constructor (durableFaults: set<Run>)
      ensures Valid() && pumps == map[] && this.durableFaults == durableFaults && !detaching && wakeGenerations == map[]
    {
      wakeGenerations, activeContexts, pumps, faults, detaching := map[], {}, map[], {}, false;
      this.durableFaults := durableFaults;
      began, ended, live := map[], {}, multiset{};
    }

    ghost predicate SoundAt(run: Run)
      reads this
    {
      Sound(Lookup(wakeGenerations, run), run in activeContexts, Lookup(pumps, run), run in faults, detaching, Lookup(began, run), run in ended, live[run])
    }

    ghost predicate Valid()
      reads this
    {
      forall run :: SoundAt(run)
    }

    /** One more wake of a run, which forgets a fault in memory. */
    method Wake(run: Run)
      requires Valid() && !detaching
      modifies this
      ensures Valid() && !detaching
      ensures wakeGenerations == old(wakeGenerations)[run := Count(old(wakeGenerations), run) + 1]
      ensures pumps == if run in old(pumps) then old(pumps) else old(pumps)[run := Count(old(wakeGenerations), run) + 1]
      ensures activeContexts == old(activeContexts) + {run} && faults == old(faults) - {run} && durableFaults == old(durableFaults)
    {
      assert SoundAt(run);
      faults := faults - {run};
      activeContexts := activeContexts + {run};
      wakeGenerations := wakeGenerations[run := Count(wakeGenerations, run) + 1];
      if run !in pumps {
        Begin(run);
      }
      forall other ensures SoundAt(other) {
        assert old(SoundAt(other));
      }
    }

    /** A pass starts, observing the latest generation. */
    method Begin(run: Run)
      requires run in wakeGenerations && run !in pumps
      modifies this`pumps, this`began, this`ended, this`live
      ensures pumps == old(pumps)[run := wakeGenerations[run]] && began == old(began)[run := wakeGenerations[run]]
      ensures ended == old(ended) - {run} && live == old(live)[run := old(live)[run] + 1]
    {
      pumps := pumps[run := wakeGenerations[run]];
      began := began[run := wakeGenerations[run]];
      ended := ended - {run};
      live := live[run := live[run] + 1];
    }

    method Activate(run: Run) returns (r: Result<(), Error>)
      requires Valid()
      modifies this
      ensures Valid()
      ensures r.Failure? <==> old(detaching) || run in old(faults) || (run !in old(pumps) && run in old(durableFaults))
      ensures r.Failure? ==> wakeGenerations == old(wakeGenerations) && pumps == old(pumps) && activeContexts == old(activeContexts)
      ensures r.Failure? ==> r.error == if old(detaching) then Detaching else if run in old(faults) then Faulted else DurableFault
      ensures r.Success? ==> activeContexts == old(activeContexts) + {run}
      ensures r.Success? ==> wakeGenerations == old(wakeGenerations)[run := Count(old(wakeGenerations), run) + 1]
      ensures r.Success? ==> pumps == if run in old(pumps) then old(pumps) else old(pumps)[run := Count(old(wakeGenerations), run) + 1]
      ensures faults == old(faults) && durableFaults == old(durableFaults) && detaching == old(detaching)
    {
      if detaching {
        return Failure(Detaching);
      }
      if run in faults {
        return Failure(Faulted);
      }
      if run !in pumps && run in durableFaults {
        return Failure(DurableFault);
      }
      Wake(run);
      return Success(());
    }

    /** A pass succeeds. A run woken since it began gets its next pass at once, at the latest generation. */
    method PassEnds(run: Run, terminal: bool)
      requires Valid() && run in pumps
      modifies this
      ensures Valid()
      ensures wakeGenerations == old(wakeGenerations) && faults == old(faults) && durableFaults == old(durableFaults) && detaching == old(detaching)
      ensures pumps == if !detaching && !terminal && old(pumps)[run] != Count(wakeGenerations, run) then old(pumps)[run := Count(wakeGenerations, run)] else old(pumps) - {run}
      ensures activeContexts == if terminal then old(activeContexts) - {run} else old(activeContexts)
    {
      assert SoundAt(run);
      var settled := pumps[run];
      pumps := pumps - {run};
      live := live[run := live[run] - 1];
      if terminal {
        activeContexts := activeContexts - {run};
        ended := ended + {run};
      }
      if !detaching && run in activeContexts && wakeGenerations[run] != settled {
        Begin(run);
      }
      forall other ensures SoundAt(other) {
        assert old(SoundAt(other));
      }
    }

    /** A pass fails: the run is faulted and inactive, whether or not the marker could be stored. */
    method PassFails(run: Run, stored: bool)
      requires Valid() && run in pumps
      modifies this
      ensures Valid() && pumps == old(pumps) - {run} && faults == old(faults) + {run} && activeContexts == old(activeContexts) - {run}
      ensures wakeGenerations == old(wakeGenerations) && detaching == old(detaching)
      ensures durableFaults == if stored then old(durableFaults) + {run} else old(durableFaults)
    {
      assert SoundAt(run);
      pumps := pumps - {run};
      live := live[run := live[run] - 1];
      activeContexts := activeContexts - {run};
      faults := faults + {run};
      if stored {
        durableFaults := durableFaults + {run};
      }
      forall other ensures SoundAt(other) {
        assert old(SoundAt(other));
      }
    }

    /** An explicit retry clears the fault in memory and wakes the run past the marker, which stays until the retry succeeds. */
    method RetryActivation(run: Run) returns (r: Result<(), Error>)
      requires Valid()
      modifies this
      ensures Valid()
      ensures r.Failure? <==> old(detaching)
      ensures r.Failure? ==> r.error == Detaching && wakeGenerations == old(wakeGenerations) && pumps == old(pumps) && faults == old(faults)
      ensures r.Success? ==> activeContexts == old(activeContexts) + {run}
      ensures r.Success? ==> wakeGenerations == old(wakeGenerations)[run := Count(old(wakeGenerations), run) + 1]
      ensures r.Success? ==> pumps == if run in old(pumps) then old(pumps) else old(pumps)[run := Count(old(wakeGenerations), run) + 1]
      ensures r.Success? ==> faults == old(faults) - {run} && durableFaults == old(durableFaults)
    {
      if detaching {
        return Failure(Detaching);
      }
      Wake(run);
      return Success(());
    }

    /** The awaited retry succeeded. */
    method RetrySucceeded(run: Run)
      requires Valid()
      modifies this`durableFaults
      ensures Valid() && durableFaults == old(durableFaults) - {run}
    {
      durableFaults := durableFaults - {run};
      forall other ensures SoundAt(other) {
        assert old(SoundAt(other));
      }
    }

    /** Wakes every active run once, except those refused. */
    method WakeActive()
      requires Valid() && !detaching
      modifies this
      ensures Valid()
      ensures Woken(old(wakeGenerations), old(pumps), old(durableFaults), old(activeContexts), wakeGenerations, pumps)
      ensures activeContexts == old(activeContexts) && faults == old(faults) && durableFaults == old(durableFaults)
    {
      ActiveIsUnfaulted();
      NoneWoken(wakeGenerations, pumps, durableFaults);
      WakeEach(activeContexts, wakeGenerations, pumps, {});
    }

    lemma ActiveIsUnfaulted()
      requires Valid()
      ensures activeContexts !! faults
    {
      forall run | run in activeContexts ensures run !in faults {
        assert SoundAt(run);
      }
    }

    method WakeEach(left: set<Run>, ghost generations: map<Run, nat>, ghost passes: map<Run, nat>, ghost done: set<Run>)
      requires Valid() && !detaching && (forall run :: run in left ==> run !in done) && left <= activeContexts && activeContexts !! faults
      requires Woken(generations, passes, durableFaults, done, wakeGenerations, pumps)
      modifies this
      ensures Valid() && durableFaults == old(durableFaults) && activeContexts == old(activeContexts) && faults == old(faults)
      ensures Woken(generations, passes, durableFaults, done + left, wakeGenerations, pumps)
      decreases left
    {
      hide Sound, Valid, Woken;
      if left == {} {
        assert done + left == done;
        return;
      }
      var run :| run in left;
      WokenMore(generations, passes, durableFaults, done, wakeGenerations, pumps, run);
      if !Refused(pumps, durableFaults, run) {
        Wake(run);
      }
      assert (done + {run}) + (left - {run}) == done + left;
      WakeEach(left - {run}, generations, passes, done + {run});
    }

    lemma NoneWoken(generations: map<Run, nat>, pumps: map<Run, nat>, durable: set<Run>)
      ensures Woken(generations, pumps, durable, {}, generations, pumps)
    {
    }

    method Detach()
      requires Valid()
      modifies this`detaching, this`activeContexts
      ensures Valid() && detaching && activeContexts == {}
    {
      detaching := true;
      activeContexts := {};
      forall other ensures SoundAt(other) {
        assert old(SoundAt(other));
      }
    }

    /** All passes have settled; the caches are cleared, and the service stays detached. */
    method Drained()
      requires Valid() && detaching && pumps == map[]
      modifies this`wakeGenerations, this`faults
      ensures Valid() && wakeGenerations == map[] && faults == {}
    {
      wakeGenerations := map[];
      faults := {};
      forall other ensures SoundAt(other) {
        assert old(SoundAt(other));
      }
    }

    /** No wake is lost, and work on a run is single-flight. */
    lemma NoWakeLost(run: Run)
      requires Valid()
      ensures live[run] <= 1 && (live[run] == 1 <==> run in pumps)
      ensures run in wakeGenerations && run !in pumps && !detaching && run !in faults && run !in ended ==>
                run in began && began[run] == wakeGenerations[run]
    {
      assert SoundAt(run);
    }
  }
}
