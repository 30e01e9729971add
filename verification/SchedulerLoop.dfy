/** The selection loop itself, over tentative holdings that it updates as it selects. */
module SchedulerLoop {
  import opened Wrappers
  import opened SlotOrder
  import opened Scheduler
  import opened SchedulerLaws

  /** The derived frontier has one slot per work item. */
  predicate OneEach(slots: seq<Slot>) {
    forall i, j :: 0 <= i < j < |slots| ==> slots[i].workItemId != slots[j].workItemId && slots[i].slotId != slots[j].slotId
  }

  lemma OneEachMembers(slots: seq<Slot>)
    requires OneEach(slots)
    ensures OnePerItem(Members(slots)) && DistinctSet(Members(slots))
  {
    forall a, b | a in slots && b in slots && (a.slotId == b.slotId || a.workItemId == b.workItemId) ensures a == b {
      var i :| 0 <= i < |slots| && slots[i] == a;
      var j :| 0 <= j < |slots| && slots[j] == b;
    }
  }

  /** What an open slot is finally refused for: its own codes, and the reservation for the waiter. */
  ghost function FinalCodes(run: Run, ready: set<Slot>, t: Tentative, s: Slot): set<Code>
    requires DistinctSet(ready)
  {
    WithAdmission(run, s, t)
    + (if Waiters(run, ready, t) != {} && HeldBack(run, First(Waiters(run, ready, t)), s) then {FairnessReservation} else {})
  }

  lemma AdmissibleIffNoCodes(run: Run, ready: set<Slot>, t: Tentative, s: Slot)
    requires DistinctSet(ready)
    ensures Admissible(run, ready, t, s) <==> FinalCodes(run, ready, t, s) == {}
  {
    hide WithAdmission, Refused, HeldBack;
    RefusedIffCodes(run, s, t);
    var own := WithAdmission(run, s, t);
    assert FinalCodes(run, ready, t, s) == {} ==> own == {} by {
      assert own <= FinalCodes(run, ready, t, s);
    }
    if Waiters(run, ready, t) != {} && HeldBack(run, First(Waiters(run, ready, t)), s) {
      assert FairnessReservation in FinalCodes(run, ready, t, s);
    }
  }

  method OpenSlots(ready: seq<Slot>, ghost t: Tentative, selected: seq<Slot>) returns (open: seq<Slot>)
    requires t.selected == selected
    ensures Members(open) == Open(Members(ready), t)
  {
    open := [];
    for i := 0 to |ready|
      invariant forall x :: x in open <==> x in ready[..i] && x !in selected
    {
      assert ready[..i + 1] == ready[..i] + [ready[i]];
      if ready[i] !in selected {
        open := open + [ready[i]];
      }
    }
    assert ready[..|ready|] == ready;
  }

  method FindWaiter(run: Run, ghost ready: set<Slot>, open: seq<Slot>, t: Tentative) returns (w: Option<Slot>)
    requires DistinctSet(ready) && Members(open) == Open(ready, t)
    ensures w == if Waiters(run, ready, t) == {} then None else Some(First(Waiters(run, ready, t)))
  {
    hide WithAdmission, Refused;
    var waiting := [];
    for i := 0 to |open|
      invariant forall x :: x in waiting <==> x in open[..i] && x.fairnessReserved && Refused(run, x, t)
    {
      assert open[..i + 1] == open[..i] + [open[i]];
      RefusedIffCodes(run, open[i], t);
      if open[i].fairnessReserved && WithAdmission(run, open[i], t) != {} {
        waiting := waiting + [open[i]];
      }
    }
    assert open[..|open|] == open;
    assert Members(waiting) == Waiters(run, ready, t);
    if waiting == [] {
      w := None;
    } else {
      var first := FindFirst(waiting);
      w := Some(first);
    }
  }

  method Evaluate(run: Run, ghost ready: set<Slot>, open: seq<Slot>, t: Tentative, w: Option<Slot>) returns (codes: map<Slot, set<Code>>)
    requires DistinctSet(ready) && Members(open) == Open(ready, t)
    requires w == if Waiters(run, ready, t) == {} then None else Some(First(Waiters(run, ready, t)))
    ensures codes.Keys == Open(ready, t)
    ensures forall s :: s in codes ==> codes[s] == FinalCodes(run, ready, t, s)
  {
    hide WithAdmission, HeldBack, Waiters;
    codes := map[];
    for i := 0 to |open|
      invariant codes.Keys == Members(open[..i])
      invariant forall s :: s in codes ==> codes[s] == FinalCodes(run, ready, t, s)
    {
      assert open[..i + 1] == open[..i] + [open[i]];
      var s := open[i];
      var own := WithAdmission(run, s, t);
      if w.Some? && HeldBack(run, w.value, s) {
        own := own + {FairnessReservation};
      }
      codes := codes[s := own];
    }
    assert open[..|open|] == open;
  }

  method Choose(run: Run, ghost ready: set<Slot>, open: seq<Slot>, ghost t: Tentative, codes: map<Slot, set<Code>>) returns (chosen: Option<Slot>)
    requires DistinctSet(ready) && Members(open) == Open(ready, t)
    requires codes.Keys == Open(ready, t)
    requires forall s :: s in codes ==> codes[s] == FinalCodes(run, ready, t, s)
    ensures chosen == if Candidates(run, ready, t) == {} then None else Some(First(Candidates(run, ready, t)))
  {
    hide FinalCodes, Admissible;
    var admissible := [];
    for i := 0 to |open|
      invariant forall x :: x in admissible <==> x in open[..i] && Admissible(run, ready, t, x)
    {
      assert open[..i + 1] == open[..i] + [open[i]];
      AdmissibleIffNoCodes(run, ready, t, open[i]);
      assert open[i] in Members(open);
      if codes[open[i]] == {} {
        admissible := admissible + [open[i]];
      }
    }
    assert open[..|open|] == open;
    assert Members(admissible) == Candidates(run, ready, t);
    if admissible == [] {
      chosen := None;
    } else {
      var first := FindFirst(admissible);
      chosen := Some(first);
    }
  }

  /** The frontier records: no code for what is selected, the final codes for the rest. */
  ghost predicate Recorded(run: Run, ready: set<Slot>, t: Tentative, frontier: map<Slot, set<Code>>)
    requires DistinctSet(ready)
  {
    && frontier.Keys == ready
    && (forall s :: s in ready && s in t.selected ==> frontier[s] == {})
    && (forall s :: s in Open(ready, t) ==> frontier[s] == FinalCodes(run, ready, t, s) && frontier[s] != {})
  }

  lemma RecordFinal(run: Run, ready: set<Slot>, t: Tentative, frontier: map<Slot, set<Code>>, codes: map<Slot, set<Code>>)
    requires DistinctSet(ready) && Candidates(run, ready, t) == {}
    requires frontier.Keys == set s | s in ready && s in t.selected
    requires forall s :: s in frontier ==> frontier[s] == {}
    requires codes.Keys == Open(ready, t)
    requires forall s :: s in codes ==> codes[s] == FinalCodes(run, ready, t, s)
    ensures Recorded(run, ready, t, frontier + codes)
  {
    hide FinalCodes, Admissible;
    forall s | s in Open(ready, t) ensures FinalCodes(run, ready, t, s) != {} {
      AdmissibleIffNoCodes(run, ready, t, s);
      NoneAdmissible(run, ready, t, s);
    }
  }

  lemma NoneAdmissible(run: Run, ready: set<Slot>, t: Tentative, s: Slot)
    requires DistinctSet(ready) && s in Open(ready, t) && Candidates(run, ready, t) == {}
    ensures !Admissible(run, ready, t, s)
  {
    hide Admissible;
    assert s !in Candidates(run, ready, t);
  }

  lemma GreedyStops(run: Run, ready: set<Slot>, t: Tentative)
    requires DistinctSet(ready) && Candidates(run, ready, t) == {}
    ensures Greedy(run, ready, t) == t
  {
  }

  lemma GreedyTakes(run: Run, ready: set<Slot>, t: Tentative, s: Slot)
    requires DistinctSet(ready) && Candidates(run, ready, t) != {} && s == First(Candidates(run, ready, t))
    ensures Greedy(run, ready, t) == Greedy(run, ready, Take(t, s))
    ensures s in ready && s !in t.selected
    ensures |Open(ready, Take(t, s))| < |Open(ready, t)|
  {
    CandidatesDistinct(run, ready, t);
    FirstIsReady(s, Candidates(run, ready, t));
    ChosenOpen(run, ready, t, s);
    TakeShrinks(ready, t, s);
  }

  ghost predicate Bypassed(ready: set<Slot>, selected: seq<Slot>, s: Slot) {
    s in ready && s !in selected && exists i :: 0 <= i < |selected| && Competes(s, selected[i])
  }

  method Select(run: Run, ready: seq<Slot>) returns (t: Tentative, frontier: map<Slot, set<Code>>)
    requires DistinctSet(Members(ready))
    ensures t == Greedy(run, Members(ready), Initially(run))
    ensures Recorded(run, Members(ready), t, frontier)
  {
    hide *;
    ghost var all := Members(ready);
    t := Initially(run);
    frontier := map[];
    StartsEmpty(run);
    while true
      invariant Greedy(run, all, t) == Greedy(run, all, Initially(run))
      invariant frontier.Keys == set s | s in all && s in t.selected
      invariant forall s :: s in frontier ==> frontier[s] == {}
      decreases |Open(all, t)|
    {
      var open := OpenSlots(ready, t, t.selected);
      var waiter := FindWaiter(run, all, open, t);
      var codes := Evaluate(run, all, open, t, waiter);
      var chosen := Choose(run, all, open, t, codes);
      if chosen == None {
        GreedyStops(run, all, t);
        RecordFinal(run, all, t, frontier, codes);
        frontier := frontier + codes;
        break;
      }
      GreedyTakes(run, all, t, chosen.value);
      frontier := frontier[chosen.value := {}];
      TakeAppends(t, chosen.value);
      t := Take(t, chosen.value);
    }
  }

  lemma TakeAppends(t: Tentative, s: Slot)
    ensures Take(t, s).selected == t.selected + [s]
  {
  }

  method Bypasses(ready: seq<Slot>, selected: seq<Slot>) returns (bypassed: set<Id>)
    requires OneEach(ready)
    ensures forall s :: s in ready ==> (s.slotId in bypassed <==> Bypassed(Members(ready), selected, s))
  {
    hide Competes;
    bypassed := {};
    for i := 0 to |ready|
      invariant forall j :: 0 <= j < |ready| ==> (ready[j].slotId in bypassed <==> j < i && Bypassed(Members(ready), selected, ready[j]))
    {
      if ready[i] !in selected && exists k :: 0 <= k < |selected| && Competes(ready[i], selected[k]) {
        bypassed := bypassed + {ready[i].slotId};
      }
    }
  }

  /**
   * The selected sequence is the greedy one of the set of ready slots; in the frontier a ready slot
   * has no refusal code exactly when it is selected; and the bypassed slots are the unselected
   * ready ones that compete with a selection.
   */
  method Schedule(run: Run, ready: seq<Slot>) returns (selected: seq<Slot>, frontier: map<Slot, set<Code>>, bypassed: set<Id>)
    requires OneEach(ready)
    ensures DistinctSet(Members(ready))
    ensures selected == Greedy(run, Members(ready), Initially(run)).selected
    ensures frontier.Keys == Members(ready)
    ensures forall s :: s in frontier ==> (frontier[s] == {} <==> s in selected)
    ensures forall s :: s in ready && s !in selected ==> frontier[s] == FinalCodes(run, Members(ready), Greedy(run, Members(ready), Initially(run)), s)
    ensures forall s :: s in ready ==> (s.slotId in bypassed <==> Bypassed(Members(ready), selected, s))
  {
    OneEachMembers(ready);
    hide Greedy, Initially, FinalCodes, Bypassed;
    var t, f := Select(run, ready);
    selected, frontier := t.selected, f;
    bypassed := Bypasses(ready, selected);
  }

  lemma StartsEmpty(run: Run)
    ensures Initially(run).selected == []
  {
  }

  /** Reordering the work items changes nothing in the batch. */
  lemma OrderIndependent(run: Run, a: seq<Slot>, b: seq<Slot>)
    requires OneEach(a) && multiset(a) == multiset(b)
    ensures DistinctSet(Members(a)) && DistinctSet(Members(b))
    ensures Greedy(run, Members(a), Initially(run)).selected == Greedy(run, Members(b), Initially(run)).selected
  {
    OneEachMembers(a);
    forall x ensures x in a <==> x in b {
      assert x in a <==> x in multiset(a);
      assert x in b <==> x in multiset(b);
    }
    assert Members(a) == Members(b);
  }
}
