/** The critical height that ranks slots: a recursion over incomplete successors that carries the items already seen. */
module CriticalHeight {
  import opened FiniteSets
  import opened SlotOrder
  import opened CausalGraph
  import opened CausalDfs

  const STAGE_COUNT := 9

  /** Work still to do in an item at a stage, that stage included. */
  function Remaining(stageOrdinal: nat): int {
    STAGE_COUNT - stageOrdinal + 1
  }

  function Successors(precedence: seq<Arc>, complete: set<Id>, id: Id): (r: seq<Id>)
    ensures forall s :: s in r <==> (id, s) in precedence && s !in complete
  {
    if precedence == [] then []
    else
      var first := precedence[0];
      (if first.0 == id && first.1 !in complete then [first.1] else []) + Successors(precedence[1..], complete, id)
  }

  function Targets(precedence: seq<Arc>): set<Id> {
    set a | a in precedence :: a.1
  }

  function Height(precedence: seq<Arc>, complete: set<Id>, id: Id, stageOrdinal: nat, seen: set<Id>): int
    decreases |Targets(precedence) - seen|, if id in Targets(precedence) then 1 else 3, 0
  {
    if id in seen then 0
    else
      SeenGrows(Targets(precedence), seen, id);
      var successors := Successors(precedence, complete, id);
      assert forall s :: s in successors ==> (id, s) in precedence && (id, s).1 in Targets(precedence);
      Remaining(stageOrdinal) + Tallest(precedence, complete, successors, seen + {id})
  }

  /** The greatest height among the successors, and at least zero. */
  function Tallest(precedence: seq<Arc>, complete: set<Id>, successors: seq<Id>, seen: set<Id>): (h: nat)
    requires forall s :: s in successors ==> s in Targets(precedence)
    decreases |Targets(precedence) - seen|, 2, |successors|
  {
    if successors == [] then 0
    else
      var h := Height(precedence, complete, successors[0], 0, seen);
      var rest := Tallest(precedence, complete, successors[1..], seen);
      if h > rest then h else rest
  }

  lemma SeenGrows(targets: set<Id>, seen: set<Id>, id: Id)
    ensures |targets - (seen + {id})| <= |targets - seen|
    ensures id in targets && id !in seen ==> |targets - (seen + {id})| < |targets - seen|
  {
    assert targets - (seen + {id}) == targets - seen - {id};
  }

  // ---------- the longest remaining path ----------

  ghost predicate Incomplete(precedence: seq<Arc>, complete: set<Id>, path: seq<Id>) {
    forall i, j :: 0 <= i && j == i + 1 < |path| ==> (path[i], path[j]) in precedence && path[j] !in complete
  }

  predicate Avoids(path: seq<Id>, seen: set<Id>) {
    forall i :: 0 <= i < |path| ==> path[i] !in seen
  }

  /** A path from id along precedences to incomplete items, without repetition and off what was seen. */
  ghost predicate Route(precedence: seq<Arc>, complete: set<Id>, id: Id, seen: set<Id>, path: seq<Id>) {
    path != [] && path[0] == id && Incomplete(precedence, complete, path) && Distinct(path) && Avoids(path, seen)
  }

  /** The first item's remaining stages, and all stages of each later one. */
  function RouteWeight(stageOrdinal: nat, path: seq<Id>): int
    requires path != []
  {
    Remaining(stageOrdinal) + (|path| - 1) * Remaining(0)
  }

  lemma RouteTail(precedence: seq<Arc>, complete: set<Id>, id: Id, seen: set<Id>, path: seq<Id>)
    requires Route(precedence, complete, id, seen, path) && |path| > 1
    ensures Route(precedence, complete, path[1], seen + {id}, path[1..])
    ensures path[1] in Successors(precedence, complete, id)
  {
    var tail := path[1..];
    assert (path[0], path[1]) in precedence;
    forall i, j | 0 <= i && j == i + 1 < |tail| ensures (tail[i], tail[j]) in precedence && tail[j] !in complete {
      assert tail[i] == path[i + 1] && tail[j] == path[j + 1];
    }
    forall i | 0 <= i < |tail| ensures tail[i] !in seen + {id} {
      assert tail[i] == path[i + 1] && path[0] != path[i + 1];
    }
  }

  lemma RouteCons(precedence: seq<Arc>, complete: set<Id>, id: Id, seen: set<Id>, s: Id, tail: seq<Id>)
    requires id !in seen && s in Successors(precedence, complete, id)
    requires Route(precedence, complete, s, seen + {id}, tail)
    ensures Route(precedence, complete, id, seen, [id] + tail)
  {
    var path := [id] + tail;
    forall i, j | 0 <= i && j == i + 1 < |path| ensures (path[i], path[j]) in precedence && path[j] !in complete {
      assert path[j] == tail[i];
    }
    forall i | 0 <= i < |tail| ensures tail[i] != id && tail[i] !in seen {
      assert tail[i] !in seen + {id};
    }
  }

  lemma {:induction false} TallestBounds(precedence: seq<Arc>, complete: set<Id>, successors: seq<Id>, seen: set<Id>, s: Id)
    requires forall x :: x in successors ==> x in Targets(precedence)
    requires s in successors
    ensures Height(precedence, complete, s, 0, seen) <= Tallest(precedence, complete, successors, seen)
  {
    hide Height, Targets;
    if successors[0] != s {
      TallestBounds(precedence, complete, successors[1..], seen, s);
    }
  }

  lemma {:induction false} TallestReached(precedence: seq<Arc>, complete: set<Id>, successors: seq<Id>, seen: set<Id>)
    requires forall x :: x in successors ==> x in Targets(precedence)
    requires Tallest(precedence, complete, successors, seen) > 0
    ensures exists s :: s in successors && Height(precedence, complete, s, 0, seen) == Tallest(precedence, complete, successors, seen)
  {
    hide Height, Targets;
    var t := Tallest(precedence, complete, successors, seen);
    if Height(precedence, complete, successors[0], 0, seen) == t {
      assert successors[0] in successors;
    } else {
      TallestReached(precedence, complete, successors[1..], seen);
    }
  }

  lemma SuccessorsAreTargets(precedence: seq<Arc>, complete: set<Id>, id: Id)
    ensures forall s :: s in Successors(precedence, complete, id) ==> s in Targets(precedence)
  {
    forall s | s in Successors(precedence, complete, id) ensures s in Targets(precedence) {
      assert (id, s).1 in Targets(precedence);
    }
  }

  /** No route weighs more than the height. */
  lemma {:induction false} HeightIsBound(precedence: seq<Arc>, complete: set<Id>, id: Id, stageOrdinal: nat, seen: set<Id>, path: seq<Id>)
    requires Route(precedence, complete, id, seen, path)
    ensures RouteWeight(stageOrdinal, path) <= Height(precedence, complete, id, stageOrdinal, seen)
    decreases |path|
  {
    hide Targets, Incomplete, Successors;
    SuccessorsAreTargets(precedence, complete, id);
    assert path[0] == id && id !in seen;
    if |path| > 1 {
      RouteTail(precedence, complete, id, seen, path);
      HeightIsBound(precedence, complete, path[1], 0, seen + {id}, path[1..]);
      TallestBounds(precedence, complete, Successors(precedence, complete, id), seen + {id}, path[1]);
      assert |path[1..]| == |path| - 1;
    }
  }

  /** Some route weighs as much as the height. */
  lemma {:induction false} HeightIsReached(precedence: seq<Arc>, complete: set<Id>, id: Id, stageOrdinal: nat, seen: set<Id>) returns (path: seq<Id>)
    requires id !in seen
    ensures Route(precedence, complete, id, seen, path)
    ensures RouteWeight(stageOrdinal, path) == Height(precedence, complete, id, stageOrdinal, seen)
    decreases |Targets(precedence) - seen|, if id in Targets(precedence) then 0 else 1
  {
    hide Incomplete, Successors;
    SuccessorsAreTargets(precedence, complete, id);
    SeenGrows(Targets(precedence), seen, id);
    var successors := Successors(precedence, complete, id);
    path := [id];
    assert Incomplete(precedence, complete, path) by {
      OneIsIncomplete(precedence, complete, id);
    }
    if Tallest(precedence, complete, successors, seen + {id}) > 0 {
      TallestReached(precedence, complete, successors, seen + {id});
      var s :| s in successors && Height(precedence, complete, s, 0, seen + {id}) == Tallest(precedence, complete, successors, seen + {id});
      var tail := HeightIsReached(precedence, complete, s, 0, seen + {id});
      RouteCons(precedence, complete, id, seen, s, tail);
      path := [id] + tail;
    }
  }

  lemma OneIsIncomplete(precedence: seq<Arc>, complete: set<Id>, id: Id)
    ensures Incomplete(precedence, complete, [id])
  {
  }

  /** A route weighs ten for each of its items, less the stages its first item has behind it. */
  lemma WeightIsStages(stageOrdinal: nat, path: seq<Id>)
    requires path != []
    ensures RouteWeight(stageOrdinal, path) == 10 * |path| - stageOrdinal
  {
  }

  /** On any precedence graph the height is the weight of the heaviest route without repetition. */
  lemma HeightIsHeaviestRoute(precedence: seq<Arc>, complete: set<Id>, id: Id, stageOrdinal: nat, h: int)
    ensures h == Height(precedence, complete, id, stageOrdinal, {}) <==>
              && (exists path :: Route(precedence, complete, id, {}, path) && 10 * |path| - stageOrdinal == h)
              && (forall path :: Route(precedence, complete, id, {}, path) ==> 10 * |path| - stageOrdinal <= h)
  {
    hide Route, Height;
    var best := HeightIsReached(precedence, complete, id, stageOrdinal, {});
    NotEmpty(precedence, complete, id, {});
    WeightIsStages(stageOrdinal, best);
    forall path | Route(precedence, complete, id, {}, path) ensures 10 * |path| - stageOrdinal <= Height(precedence, complete, id, stageOrdinal, {}) {
      HeightIsBound(precedence, complete, id, stageOrdinal, {}, path);
      WeightIsStages(stageOrdinal, path);
    }
  }

  lemma NotEmpty(precedence: seq<Arc>, complete: set<Id>, id: Id, seen: set<Id>)
    ensures forall path :: Route(precedence, complete, id, seen, path) ==> path != []
  {
  }

  // ---------- on accepted plans ----------

  ghost function ArcSet(precedence: seq<Arc>): set<Arc> {
    set a | a in precedence
  }

  lemma IncompleteIsLinked(precedence: seq<Arc>, complete: set<Id>, path: seq<Id>)
    requires Incomplete(precedence, complete, path)
    ensures Linked(ArcSet(precedence), path)
  {
  }

  /** An order of the causal arcs orders the precedence arcs, which are some of them. */
  lemma AcceptedOrder(items: seq<Id>, precedence: seq<Arc>, gates: seq<Gate>) returns (order: seq<Id>)
    requires Accepted(items, precedence, gates)
    ensures Topological(ArcSet(precedence), (set x | x in items), order)
  {
    order :| Topological(CausalArcs(precedence, gates), (set x | x in items), order);
    forall i, s | 0 <= i < |order| && (order[i], s) in ArcSet(precedence) ensures s in order[i + 1..] {
      assert (order[i], s) in CausalArcs(precedence, gates);
    }
  }

  /** On an accepted plan every path of incomplete successors is a route, so the height is the longest remaining path. */
  lemma AcyclicPathsAreRoutes(items: seq<Id>, precedence: seq<Arc>, gates: seq<Gate>, complete: set<Id>, path: seq<Id>)
    requires Accepted(items, precedence, gates)
    requires path != [] && path[0] in items && Incomplete(precedence, complete, path)
    ensures Route(precedence, complete, path[0], {}, path)
  {
    IncompleteIsLinked(precedence, complete, path);
    hide Incomplete, Linked, Forward;
    var order := AcceptedOrder(items, precedence, gates);
    var start := path[0];
    assert start in order;
    forall i, j | 0 <= i < j < |path| ensures path[i] != path[j] {
      var p, q := WalkAdvances(ArcSet(precedence), order, path, i, j);
      assert order[p] != order[q];
    }
  }

  /** On an accepted plan an item stands strictly higher than each of its incomplete successors, whatever stage each is at. */
  lemma PredecessorIsHigher(items: seq<Id>, precedence: seq<Arc>, gates: seq<Gate>, complete: set<Id>, p: Id, s: Id, pOrdinal: nat, sOrdinal: nat)
    requires Accepted(items, precedence, gates) && p in items
    requires (p, s) in precedence && s !in complete
    requires pOrdinal < STAGE_COUNT && sOrdinal < STAGE_COUNT
    ensures Height(precedence, complete, p, pOrdinal, {}) > Height(precedence, complete, s, sOrdinal, {})
  {
    hide Height, Route, Incomplete;
    var tail := HeightIsReached(precedence, complete, s, sOrdinal, {});
    var path := [p] + tail;
    RouteStarts(precedence, complete, p, s, tail);
    AcyclicPathsAreRoutes(items, precedence, gates, complete, path);
    HeightIsBound(precedence, complete, p, pOrdinal, {}, path);
  }

  lemma RouteStarts(precedence: seq<Arc>, complete: set<Id>, p: Id, s: Id, tail: seq<Id>)
    requires (p, s) in precedence && s !in complete && Route(precedence, complete, s, {}, tail)
    ensures tail != [] && Incomplete(precedence, complete, [p] + tail)
  {
    var path := [p] + tail;
    forall i, j | 0 <= i && j == i + 1 < |path| ensures (path[i], path[j]) in precedence && path[j] !in complete {
      assert path[j] == tail[i];
    }
  }
}
