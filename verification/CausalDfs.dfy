/** The plan validator's depth-first search for a cycle among precedence and gate-producer arcs. */
module CausalDfs {
  import opened FiniteSets
  import opened SlotOrder
  import opened CausalGraph

  datatype Gate = Gate(producers: seq<Id>, blocks: seq<Id>)

  /** A precedence goes from predecessor to successor; a gate from each producer to each blocked item. */
  ghost function CausalArcs(precedence: seq<Arc>, gates: seq<Gate>): set<Arc> {
    (set a | a in precedence)
    + (set i, p, b | 0 <= i < |gates| && p in gates[i].producers && b in gates[i].blocks :: (p, b))
  }

  /** What the validator wants of a plan: the causal arcs put everything the items reach in an order. */
  ghost predicate Accepted(items: seq<Id>, precedence: seq<Arc>, gates: seq<Gate>) {
    Orderable(CausalArcs(precedence, gates), set x | x in items)
  }

  /** Every successor, and every item a producer's gate blocks, comes after it in the list. */
  ghost predicate PlanOrder(precedence: seq<Arc>, gates: seq<Gate>, order: seq<Id>) {
    && (forall i, k :: 0 <= i < |order| && 0 <= k < |precedence| && precedence[k].0 == order[i] ==> precedence[k].1 in order[i + 1..])
    && (forall i, k, b :: 0 <= i < |order| && 0 <= k < |gates| && order[i] in gates[k].producers && b in gates[k].blocks ==> b in order[i + 1..])
  }

  /** A plan is accepted exactly when its items, and all that follows them, can be put in an order its precedences and gates respect. */
  lemma AcceptedMeans(items: seq<Id>, precedence: seq<Arc>, gates: seq<Gate>)
    ensures Accepted(items, precedence, gates) <==>
              exists order :: Distinct(order) && (forall x :: x in items ==> x in order) && PlanOrder(precedence, gates, order)
  {
    forall order ensures Forward(CausalArcs(precedence, gates), order) <==> PlanOrder(precedence, gates, order) {
      ForwardMeans(precedence, gates, order);
    }
    hide PlanOrder, Forward, Distinct;
    if Accepted(items, precedence, gates) {
      var order :| Topological(CausalArcs(precedence, gates), (set x | x in items), order);
    }
    if order :| Distinct(order) && (forall x :: x in items ==> x in order) && PlanOrder(precedence, gates, order) {
      assert Topological(CausalArcs(precedence, gates), (set x | x in items), order);
    }
  }

  lemma GateGivesArc(precedence: seq<Arc>, gates: seq<Gate>, k: nat, p: Id, b: Id)
    requires k < |gates| && p in gates[k].producers && b in gates[k].blocks
    ensures (p, b) in CausalArcs(precedence, gates)
  {
  }

  lemma ForwardMeans(precedence: seq<Arc>, gates: seq<Gate>, order: seq<Id>)
    ensures Forward(CausalArcs(precedence, gates), order) <==> PlanOrder(precedence, gates, order)
  {
    if Forward(CausalArcs(precedence, gates), order) {
      forall i, k | 0 <= i < |order| && 0 <= k < |precedence| && precedence[k].0 == order[i] ensures precedence[k].1 in order[i + 1..] {
        var arc := precedence[k];
        var s := arc.1;
        assert arc in precedence && arc == (order[i], s);
        assert (order[i], s) in CausalArcs(precedence, gates);
      }
      forall i, k, b | 0 <= i < |order| && 0 <= k < |gates| && order[i] in gates[k].producers && b in gates[k].blocks ensures b in order[i + 1..] {
        GateGivesArc(precedence, gates, k, order[i], b);
      }
    }
    if PlanOrder(precedence, gates, order) {
      forall i, s | 0 <= i < |order| && (order[i], s) in CausalArcs(precedence, gates) ensures s in order[i + 1..] {
        if (order[i], s) in precedence {
          var k :| 0 <= k < |precedence| && precedence[k] == (order[i], s);
          assert precedence[k].0 == order[i];
        }
      }
    }
  }

  /** The arcs an adjacency map stands for. */
  ghost function ArcsOf(outgoing: map<Id, seq<Id>>): set<Arc> {
    set p, s | p in outgoing && s in outgoing[p] :: (p, s)
  }

  function Successors(outgoing: map<Id, seq<Id>>, id: Id): seq<Id> {
    if id in outgoing then outgoing[id] else []
  }

  method AddArc(outgoing: map<Id, seq<Id>>, from: Id, to: Id) returns (r: map<Id, seq<Id>>)
    ensures ArcsOf(r) == ArcsOf(outgoing) + {(from, to)}
  {
    r := outgoing[from := Successors(outgoing, from) + [to]];
    forall a ensures a in ArcsOf(r) <==> a in ArcsOf(outgoing) + {(from, to)} {
      if a in ArcsOf(outgoing) {
        assert a.0 in outgoing && a.1 in outgoing[a.0];
      }
    }
  }

  method BuildOutgoing(precedence: seq<Arc>, gates: seq<Gate>) returns (outgoing: map<Id, seq<Id>>)
    ensures ArcsOf(outgoing) == CausalArcs(precedence, gates)
  {
    hide ArcsOf;
    outgoing := map[];
    EmptyArcs();
    for i := 0 to |precedence|
      invariant ArcsOf(outgoing) == set a | a in precedence[..i]
    {
      outgoing := AddArc(outgoing, precedence[i].0, precedence[i].1);
      assert precedence[..i + 1] == precedence[..i] + [precedence[i]];
    }
    assert precedence[..|precedence|] == precedence;
    for i := 0 to |gates|
      invariant ArcsOf(outgoing) == CausalArcs(precedence, gates[..i])
    {
      outgoing := AddGate(outgoing, gates[i]);
      GateArcs(precedence, gates, i);
    }
    assert gates[..|gates|] == gates;
  }

  lemma EmptyArcs()
    ensures ArcsOf(map[]) == {}
  {
  }

  ghost function ArcsOfGate(gate: Gate): set<Arc> {
    set p, b | p in gate.producers && b in gate.blocks :: (p, b)
  }

  lemma GateArcs(precedence: seq<Arc>, gates: seq<Gate>, i: nat)
    requires i < |gates|
    ensures CausalArcs(precedence, gates[..i + 1]) == CausalArcs(precedence, gates[..i]) + ArcsOfGate(gates[i])
  {
    var now, before := gates[..i + 1], gates[..i];
    assert now[i] == gates[i];
    assert forall j :: 0 <= j < i ==> now[j] == before[j];
    forall p, b ensures (p, b) in CausalArcs(precedence, now) <==> (p, b) in CausalArcs(precedence, before) + ArcsOfGate(gates[i]) {
    }
  }

  method AddGate(start: map<Id, seq<Id>>, gate: Gate) returns (outgoing: map<Id, seq<Id>>)
    ensures ArcsOf(outgoing) == ArcsOf(start) + ArcsOfGate(gate)
  {
    hide ArcsOf;
    outgoing := start;
    for i := 0 to |gate.producers|
      invariant ArcsOf(outgoing) == ArcsOf(start) + (set p, b | p in gate.producers[..i] && b in gate.blocks :: (p, b))
    {
      ghost var was := ArcsOf(outgoing);
      ghost var p := gate.producers[i];
      for j := 0 to |gate.blocks|
        invariant ArcsOf(outgoing) == was + (set b | b in gate.blocks[..j] :: (gate.producers[i], b))
      {
        outgoing := AddArc(outgoing, gate.producers[i], gate.blocks[j]);
        assert gate.blocks[..j + 1] == gate.blocks[..j] + [gate.blocks[j]];
      }
      assert gate.blocks[..|gate.blocks|] == gate.blocks;
      assert gate.producers[..i + 1] == gate.producers[..i] + [p];
      assert forall b :: b in gate.blocks ==> (p, b) in ArcsOf(outgoing);
    }
    assert gate.producers[..|gate.producers|] == gate.producers;
  }

  /** The visiting and visited sets the search shares between its calls. */
  class Search {
    const outgoing: map<Id, seq<Id>>
    ghost const items: set<Id>
    var visiting: set<Id>
    var visited: set<Id>
    ghost var stack: seq<Id>
    ghost var finished: seq<Id>

    constructor (outgoing: map<Id, seq<Id>>, ghost items: set<Id>)
      ensures this.outgoing == outgoing && this.items == items
      ensures Valid() && stack == [] && visited == {}
    {
      this.outgoing := outgoing;
      this.items := items;
      visiting, visited := {}, {};
      stack, finished := [], [];
    }

    ghost function Arcs(): set<Arc> { ArcsOf(outgoing) }

    /** The nodes the search can meet. */
    ghost function Universe(): set<Id> {
      items + set a | a in Arcs() :: a.1
    }

    /** The visited nodes listed latest first are in topological order; those being visited are a path from an item. */
    ghost predicate Valid()
      reads this
    {
      && Linked(Arcs(), stack) && (stack != [] ==> stack[0] in items)
      && (forall x :: x in visiting <==> x in stack)
      && Distinct(finished) && Forward(Arcs(), finished)
      && (forall x :: x in visited <==> x in finished)
      && visiting !! visited
    }

    ghost predicate Reaches(id: Id)
      reads this
    {
      if stack == [] then id in items else (stack[|stack| - 1], id) in Arcs()
    }

    ghost function Unseen(): nat
      reads this
    {
      |Universe() - visiting - visited|
    }

    method Visit(id: Id) returns (ok: bool)
      requires Valid() && Reaches(id)
      modifies this
      ensures ok ==> Valid() && stack == old(stack) && visiting == old(visiting) && old(visited) <= visited && id in visited
      ensures !ok ==> Cyclic(Arcs(), items)
      decreases Unseen(), 0
    {
      if id in visiting {
        CloseCycle(id);
        return false;
      }
      if id in visited {
        return true;
      }
      Enter(id);
      ok := VisitAll(id, Successors(outgoing, id));
      if ok {
        Leave(id);
      }
    }

    lemma CloseCycle(id: Id)
      requires Valid() && Reaches(id) && id in visiting
      ensures Cyclic(Arcs(), items)
    {
      var k :| 0 <= k < |stack| && stack[k] == id;
      var path := stack + [id];
      assert Lasso(Arcs(), path, k) && path[0] in items;
    }

    method Enter(id: Id)
      requires Valid() && Reaches(id) && id !in visiting && id !in visited
      modifies this`visiting, this`stack
      ensures Valid() && stack == old(stack) + [id] && visiting == old(visiting) + {id}
      ensures Unseen() < old(Unseen())
    {
      EnterShrinks(id);
      EnterLinks(id);
      ghost var longer := stack + [id];
      hide Linked, Forward, Distinct, Arcs, Universe;
      visiting := visiting + {id};
      stack := longer;
    }

    lemma EnterLinks(id: Id)
      requires Valid() && Reaches(id)
      ensures Linked(Arcs(), stack + [id]) && (stack + [id])[0] in items
    {
      hide Forward, Distinct, Arcs;
    }

    lemma EnterShrinks(id: Id)
      requires Valid() && Reaches(id) && id !in visiting && id !in visited
      ensures |Universe() - (visiting + {id}) - visited| < |Universe() - visiting - visited|
    {
      if stack != [] {
        assert (stack[|stack| - 1], id) in Arcs();
        assert id in set a | a in Arcs() :: a.1;
      }
      assert Universe() - (visiting + {id}) - visited == Universe() - visiting - visited - {id};
    }

    method Leave(id: Id)
      requires Valid() && stack != [] && stack[|stack| - 1] == id && id !in stack[..|stack| - 1]
      requires forall s :: s in Successors(outgoing, id) ==> s in visited
      modifies this
      ensures Valid() && stack == old(stack)[..|old(stack)| - 1] && visiting == old(visiting) - {id} && visited == old(visited) + {id}
    {
      ghost var was := finished;
      visiting := visiting - {id};
      visited := visited + {id};
      finished := [id] + finished;
      stack := stack[..|stack| - 1];
      assert Forward(Arcs(), finished) by {
        forall i, s | 0 <= i < |finished| && (finished[i], s) in Arcs() ensures s in finished[i + 1..] {
          if i == 0 {
            assert s in Successors(outgoing, id);
            assert finished[1..] == was;
          } else {
            assert was[i - 1] == finished[i];
            assert finished[i + 1..] == was[i..];
          }
        }
      }
    }

    method VisitAll(id: Id, next: seq<Id>) returns (ok: bool)
      requires Valid() && stack != [] && stack[|stack| - 1] == id
      requires forall s :: s in next ==> (id, s) in Arcs()
      modifies this
      ensures ok ==> Valid() && stack == old(stack) && visiting == old(visiting) && old(visited) <= visited
      ensures ok ==> forall s :: s in next ==> s in visited
      ensures !ok ==> Cyclic(Arcs(), items)
      decreases Unseen(), 1 + |next|
    {
      for i := 0 to |next|
        invariant Valid() && stack == old(stack) && visiting == old(visiting) && old(visited) <= visited
        invariant forall s :: s in next[..i] ==> s in visited
      {
        UnseenShrinks(old(visited));
        var found := Visit(next[i]);
        if !found {
          return false;
        }
        assert next[..i + 1] == next[..i] + [next[i]];
      }
      assert next[..|next|] == next;
      return true;
    }

    lemma UnseenShrinks(before: set<Id>)
      requires before <= visited
      ensures Unseen() <= |Universe() - visiting - before|
    {
      SubsetSize(Universe() - visiting - visited, Universe() - visiting - before);
    }
  }

  /** The search accepts exactly the graphs that have a topological order of what the items reach. */
  method Acyclic(items: seq<Id>, precedence: seq<Arc>, gates: seq<Gate>) returns (ok: bool)
    ensures ok <==> Accepted(items, precedence, gates)
    ensures !ok <==> Cyclic(CausalArcs(precedence, gates), set x | x in items)
  {
    hide CausalArcs, ArcsOf;
    var outgoing := BuildOutgoing(precedence, gates);
    ghost var all := set x | x in items;
    var search := new Search(outgoing, all);
    for i := 0 to |items|
      invariant search.Valid() && search.stack == [] && search.outgoing == outgoing && search.items == all
      invariant forall x :: x in items[..i] ==> x in search.visited
    {
      assert items[i] in all;
      var found := search.Visit(items[i]);
      if !found {
        if Orderable(search.Arcs(), all) {
          OrderRefutesCycle(search.Arcs(), all);
        }
        return false;
      }
      assert items[..i + 1] == items[..i] + [items[i]];
    }
    assert items[..|items|] == items;
    assert Topological(search.Arcs(), all, search.finished);
    OrderRefutesCycle(search.Arcs(), all);
    return true;
  }
}
