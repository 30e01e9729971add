/** What the topological sort guarantees, for which documents, and how it agrees with the depth-first search. */
module KahnLaws {
  import opened FiniteSets
  import opened SlotOrder
  import opened CausalGraph
  import opened KahnSort
  import CausalDfs

  ghost function Listed(s: seq<Id>): set<Id> {
    set x | x in s
  }

  /** From each known dependency to the node that has it. */
  ghost function DependencyArcs(nodes: seq<Node>): set<Arc> {
    set d, x | x in Ids(nodes) && d in Deps(nodes, x) :: (d, x)
  }

  /** Not yet listed, with every known dependency listed. */
  ghost predicate Available(nodes: seq<Node>, done: seq<Id>, x: Id) {
    x in Ids(nodes) && x !in done && Deps(nodes, x) <= Listed(done)
  }

  /** Each listed node was, at its turn, the available node that comes first in the document. */
  ghost predicate Greedily(nodes: seq<Node>, order: seq<Id>) {
    forall i :: 0 <= i < |order| ==>
      Available(nodes, order[..i], order[i])
      && forall x :: Available(nodes, order[..i], x) ==> Position(nodes, order[i]) <= Position(nodes, x)
  }

  // ---------- children and dependencies ----------

  lemma {:induction false} DepsAreKnown(nodes: seq<Node>, n: nat, i: nat)
    requires DistinctIds(nodes) && i < n <= |nodes|
    ensures nodes[i].id in DepsById(nodes, n) && DepsById(nodes, n)[nodes[i].id] == Known(nodes, nodes[i])
  {
    hide Known;
    if i < n - 1 {
      DepsAreKnown(nodes, n - 1, i);
    }
  }

  lemma {:induction false} ChildrenExact(nodes: seq<Node>, n: nat, id: Id)
    requires DistinctIds(nodes) && n <= |nodes|
    ensures Distinct(Children(nodes, n, id))
    ensures forall x :: x in Children(nodes, n, id) <==> exists i :: 0 <= i < n && nodes[i].id == x && id in Known(nodes, nodes[i])
  {
    hide Known;
    if n > 0 {
      ChildrenExact(nodes, n - 1, id);
      var before := Children(nodes, n - 1, id);
      forall j | 0 <= j < |before| ensures before[j] != nodes[n - 1].id {
        assert before[j] in before;
      }
    }
  }

  /** An arc goes from a node to each node that names it as a dependency; unknown names are left out. */
  lemma DependencyArcsExactly(nodes: seq<Node>, d: Id, x: Id)
    requires DistinctIds(nodes)
    ensures (d, x) in DependencyArcs(nodes) <==> exists i, j :: 0 <= i < |nodes| && 0 <= j < |nodes| && nodes[i].id == d && nodes[j].id == x && d in nodes[j].dependsOn
  {
    if (d, x) in DependencyArcs(nodes) {
      var j :| 0 <= j < |nodes| && nodes[j].id == x;
      DepsAreKnown(nodes, |nodes|, j);
      var i :| 0 <= i < |nodes| && nodes[i].id == d;
    }
    if i, j :| 0 <= i < |nodes| && 0 <= j < |nodes| && nodes[i].id == d && nodes[j].id == x && d in nodes[j].dependsOn {
      DepsAreKnown(nodes, |nodes|, j);
    }
  }

  lemma ChildrenDepend(nodes: seq<Node>, id: Id)
    requires DistinctIds(nodes)
    ensures Distinct(Children(nodes, |nodes|, id))
    ensures forall x :: x in Children(nodes, |nodes|, id) <==> x in Ids(nodes) && id in Deps(nodes, x)
  {
    hide Known;
    ChildrenExact(nodes, |nodes|, id);
    forall i | 0 <= i < |nodes| ensures Deps(nodes, nodes[i].id) == Known(nodes, nodes[i]) {
      DepsAreKnown(nodes, |nodes|, i);
    }
  }

  lemma DepsAreNodes(nodes: seq<Node>, x: Id)
    requires DistinctIds(nodes)
    ensures Deps(nodes, x) <= Ids(nodes)
  {
    if x in Ids(nodes) {
      var i :| 0 <= i < |nodes| && nodes[i].id == x;
      DepsAreKnown(nodes, |nodes|, i);
    }
  }

  // ---------- releasing the children of an emitted node ----------

  lemma {:induction false} ReleaseExact(p: Progress, children: seq<Id>, n: nat)
    requires n <= |children| && Distinct(children) && Distinct(p.ready)
    requires forall x :: x in children ==> x in p.indegree && x !in p.ready
    ensures var q := Release(p, children, n);
      && q.order == p.order && q.indegree.Keys == p.indegree.Keys
      && (forall x :: x in p.indegree ==> q.indegree[x] == p.indegree[x] - (if x in children[..n] then 1 else 0))
      && (forall x :: x in q.ready <==> x in p.ready || (x in children[..n] && p.indegree[x] == 1))
      && Distinct(q.ready)
  {
    if n > 0 {
      ReleaseExact(p, children, n - 1);
      var c := children[n - 1];
      assert children[..n] == children[..n - 1] + [c];
      assert c in children && c !in children[..n - 1];
    }
  }

  /** The loop invariant: counts, the ready list and the emitted order agree with the graph. */
  ghost predicate Sound(nodes: seq<Node>, p: Progress) {
    && p.indegree.Keys == Ids(nodes)
    && (forall x :: x in Ids(nodes) ==> p.indegree[x] == |Deps(nodes, x) - Listed(p.order)|)
    && Distinct(p.ready)
    && (forall x :: x in p.ready <==> Available(nodes, p.order, x))
    && Greedily(nodes, p.order)
  }

  lemma {:induction false} RootsExact(nodes: seq<Node>, indegree: map<Id, int>, n: nat)
    requires DistinctIds(nodes) && n <= |nodes|
    ensures Distinct(Roots(nodes, indegree, n))
    ensures forall x :: x in Roots(nodes, indegree, n) <==> exists i :: 0 <= i < n && nodes[i].id == x && Degree(indegree, x) == 0
  {
    if n > 0 {
      RootsExact(nodes, indegree, n - 1);
      var before := Roots(nodes, indegree, n - 1);
      forall j | 0 <= j < |before| ensures before[j] != nodes[n - 1].id {
        assert before[j] in before;
      }
    }
  }

  lemma InitialSound(nodes: seq<Node>)
    requires DistinctIds(nodes)
    ensures Sound(nodes, Initial(nodes))
  {
    hide Deps, Roots;
    var p := Initial(nodes);
    RootsExact(nodes, p.indegree, |nodes|);
    forall x | x in Ids(nodes) ensures Deps(nodes, x) - Listed([]) == Deps(nodes, x) {
    }
  }

  /** Emitting a node settles one dependency of exactly the nodes that have it. */
  lemma CountAfter(deps: set<Id>, order: seq<Id>, id: Id)
    requires id !in order
    ensures |deps - Listed(order + [id])| == |deps - Listed(order)| - (if id in deps then 1 else 0)
    ensures id in deps && |deps - Listed(order)| == 1 ==> deps <= Listed(order + [id])
    ensures id in deps && deps <= Listed(order + [id]) ==> |deps - Listed(order)| == 1
  {
    if id in deps {
      var others := deps - Listed(order + [id]);
      assert deps - Listed(order) == others + {id};
      if id in deps && |deps - Listed(order)| == 1 {
        assert id !in others && others == {};
        forall x | x in deps ensures x in Listed(order + [id]) {
          assert x !in others;
        }
      }
    } else {
      assert deps - Listed(order) == deps - Listed(order + [id]);
    }
  }

  lemma {:induction false} GreedyDepsListed(nodes: seq<Node>, order: seq<Id>, x: Id)
    requires Greedily(nodes, order) && x in order
    ensures Deps(nodes, x) <= Listed(order)
  {
    hide Deps;
    var i :| 0 <= i < |order| && order[i] == x;
    assert Available(nodes, order[..i], order[i]);
    assert Listed(order[..i]) <= Listed(order);
  }

  /** The available nodes after one more is emitted. */
  lemma AvailableAfter(nodes: seq<Node>, order: seq<Id>, id: Id, x: Id)
    requires Greedily(nodes, order) && Available(nodes, order, id) && x in Ids(nodes)
    ensures Available(nodes, order + [id], x) <==>
              (x != id && Available(nodes, order, x)) || (id in Deps(nodes, x) && |Deps(nodes, x) - Listed(order)| == 1)
    ensures id in Deps(nodes, x) ==> !Available(nodes, order, x)
  {
    hide Deps;
    CountAfter(Deps(nodes, x), order, id);
    if id in Deps(nodes, x) {
      if x in order {
        GreedyDepsListed(nodes, order, x);
      }
      assert id !in Listed(order);
    } else {
      assert Deps(nodes, x) <= Listed(order + [id]) <==> Deps(nodes, x) <= Listed(order);
    }
  }

  lemma GreedilyExtends(nodes: seq<Node>, order: seq<Id>, id: Id)
    requires Greedily(nodes, order) && Available(nodes, order, id)
    requires forall x :: Available(nodes, order, x) ==> Position(nodes, id) <= Position(nodes, x)
    ensures Greedily(nodes, order + [id])
  {
    hide Available, Position;
    var longer := order + [id];
    forall i | 0 <= i < |longer|
      ensures Available(nodes, longer[..i], longer[i]) && forall x :: Available(nodes, longer[..i], x) ==> Position(nodes, longer[i]) <= Position(nodes, x)
    {
      if i < |order| {
        assert longer[..i] == order[..i] && longer[i] == order[i];
      } else {
        assert longer[..i] == order && longer[i] == id;
      }
    }
  }

  lemma PopExact(nodes: seq<Node>, p: Progress)
    requires Sound(nodes, p) && p.ready != []
    ensures var q := Pop(nodes, p); var id := q.order[|q.order| - 1];
      && q.indegree == p.indegree && q.order == p.order + [id] && Available(nodes, p.order, id)
      && Distinct(q.ready) && (forall x :: x in q.ready <==> x in p.ready && x != id)
      && Greedily(nodes, q.order)
  {
    hide Available, Greedily;
    var k := Earliest(nodes, p.ready, |p.ready|);
    var id := p.ready[k];
    var rest := p.ready[..k] + p.ready[k + 1..];
    forall x ensures x in rest <==> x in p.ready && x != id {
      if x in p.ready && x != id {
        var j :| 0 <= j < |p.ready| && p.ready[j] == x;
        assert rest[if j < k then j else j - 1] == x;
      }
    }
    forall x | Available(nodes, p.order, x) ensures Position(nodes, id) <= Position(nodes, x) {
      assert x in p.ready;
    }
    assert id in p.ready;
    GreedilyExtends(nodes, p.order, id);
  }

  /** Each node's count and availability once id is emitted. */
  lemma Settled(nodes: seq<Node>, order: seq<Id>, id: Id)
    requires Greedily(nodes, order) && Available(nodes, order, id)
    ensures forall x :: x in Ids(nodes) ==>
              (Available(nodes, order + [id], x) <==> (x != id && Available(nodes, order, x)) || (id in Deps(nodes, x) && |Deps(nodes, x) - Listed(order)| == 1))
    ensures forall x :: x in Ids(nodes) && id in Deps(nodes, x) ==> !Available(nodes, order, x)
    ensures forall x :: x in Ids(nodes) ==>
              |Deps(nodes, x) - Listed(order + [id])| == |Deps(nodes, x) - Listed(order)| - (if id in Deps(nodes, x) then 1 else 0)
  {
    NotListed(nodes, order, id);
    hide Greedily, Deps, Available;
    forall x | x in Ids(nodes)
      ensures Available(nodes, order + [id], x) <==> (x != id && Available(nodes, order, x)) || (id in Deps(nodes, x) && |Deps(nodes, x) - Listed(order)| == 1)
      ensures id in Deps(nodes, x) ==> !Available(nodes, order, x)
      ensures |Deps(nodes, x) - Listed(order + [id])| == |Deps(nodes, x) - Listed(order)| - (if id in Deps(nodes, x) then 1 else 0)
    {
      AvailableAfter(nodes, order, id, x);
      CountAfter(Deps(nodes, x), order, id);
    }
  }

  lemma EmitSound(nodes: seq<Node>, p: Progress)
    requires DistinctIds(nodes) && Sound(nodes, p) && p.ready != []
    ensures Sound(nodes, Emit(nodes, p))
  {
    hide Greedily, Deps, Available, Pop, Release, Children, Listed, Ids, DistinctIds;
    PopExact(nodes, p);
    var popped := Pop(nodes, p);
    var id := popped.order[|popped.order| - 1];
    var children := Children(nodes, |nodes|, id);
    ChildrenDepend(nodes, id);
    Settled(nodes, p.order, id);
    assert children[..|children|] == children;
    ReleaseExact(popped, children, |children|);
    AvailableIsNode(nodes);
  }

  lemma NotListed(nodes: seq<Node>, order: seq<Id>, id: Id)
    requires Available(nodes, order, id)
    ensures id !in order
  {
  }

  lemma AvailableIsNode(nodes: seq<Node>)
    ensures forall done, x :: Available(nodes, done, x) ==> x in Ids(nodes)
  {
  }

  lemma {:induction false} FinishSound(nodes: seq<Node>, p: Progress)
    requires DistinctIds(nodes) && Sound(nodes, p)
    ensures Sound(nodes, Finish(nodes, p)) && Stops(nodes, Finish(nodes, p))
    decreases Weight(p)
  {
    hide Sound, Emit, Weight;
    if !Stops(nodes, p) {
      EmitSound(nodes, p);
      EmitShrinks(nodes, p);
      FinishSound(nodes, Emit(nodes, p));
    }
  }

  /**
   * On distinct identifiers the sort lists, at each turn, the first available node of the document,
   * and stops only when none is available or the empty identifier is the first that is.
   */
  lemma SortIsGreedy(nodes: seq<Node>)
    requires DistinctIds(nodes)
    ensures Greedily(nodes, TopoOrder(nodes)) && EMPTY_ID !in TopoOrder(nodes)
    ensures forall x :: Available(nodes, TopoOrder(nodes), x) ==>
              Available(nodes, TopoOrder(nodes), EMPTY_ID) && Position(nodes, EMPTY_ID) <= Position(nodes, x)
  {
    hide Greedily, Finish, Available, Deps, Position;
    InitialSound(nodes);
    FinishSound(nodes, Initial(nodes));
    FinishSkipsEmpty(nodes, Initial(nodes));
    var p := Finish(nodes, Initial(nodes));
    if p.ready != [] {
      var k := Earliest(nodes, p.ready, |p.ready|);
      assert p.ready[k] in p.ready;
      forall x | Available(nodes, p.order, x) ensures Position(nodes, EMPTY_ID) <= Position(nodes, x) {
        assert x in p.ready;
      }
    }
  }

  lemma {:induction false} FinishSkipsEmpty(nodes: seq<Node>, p: Progress)
    requires EMPTY_ID !in p.order
    ensures EMPTY_ID !in Finish(nodes, p).order
    decreases Weight(p)
  {
    hide Weight, Release;
    if !Stops(nodes, p) {
      var popped := Pop(nodes, p);
      var children := Children(nodes, |nodes|, popped.order[|popped.order| - 1]);
      ReleaseKeepsOrder(popped, children, |children|);
      EmitShrinks(nodes, p);
      FinishSkipsEmpty(nodes, Emit(nodes, p));
    }
  }

  lemma {:induction false} ReleaseKeepsOrder(p: Progress, children: seq<Id>, n: nat)
    requires n <= |children|
    ensures Release(p, children, n).order == p.order
  {
    if n > 0 {
      ReleaseKeepsOrder(p, children, n - 1);
    }
  }

  /** Every known dependency of a listed node is listed before it, and nothing is listed twice. */
  lemma RespectsDependencies(nodes: seq<Node>, order: seq<Id>)
    requires Greedily(nodes, order)
    ensures Distinct(order)
    ensures forall i, d :: 0 <= i < |order| && d in Deps(nodes, order[i]) ==> d in order[..i]
  {
    hide Deps, Position;
    forall i, j | 0 <= i < j < |order| ensures order[i] != order[j] {
      assert Available(nodes, order[..j], order[j]);
      assert order[..j][i] == order[i];
    }
  }

  // ---------- what is left over ----------

  /** Some path that starts on a cycle ends in x. */
  ghost predicate OnOrAfterCycle(arcs: set<Arc>, x: Id) {
    exists path, k :: Linked(arcs, path) && 0 < k < |path| && path[0] == path[k] && path[|path| - 1] == x
  }

  /** Walking back along dependencies from a listed node goes strictly back in the list. */
  lemma {:induction false} WalkBack(nodes: seq<Node>, order: seq<Id>, path: seq<Id>, i: nat, j: nat) returns (p: nat, q: nat)
    requires Greedily(nodes, order) && Linked(DependencyArcs(nodes), path)
    requires i < j < |path| && path[j] in order
    ensures p < q < |order| && order[p] == path[i] && order[q] == path[j]
    decreases j - i
  {
    hide Deps, Greedily;
    RespectsDependencies(nodes, order);
    if i == j - 1 {
      q :| 0 <= q < |order| && order[q] == path[j];
    } else {
      var m;
      m, q := WalkBack(nodes, order, path, i + 1, j);
      assert order[m] == path[i + 1];
      p := StepBack(nodes, order, path, i, m);
      return;
    }
    p := StepBack(nodes, order, path, i, q);
  }

  lemma StepBack(nodes: seq<Node>, order: seq<Id>, path: seq<Id>, i: nat, q: nat) returns (p: nat)
    requires Greedily(nodes, order) && Linked(DependencyArcs(nodes), path)
    requires i + 1 < |path| && q < |order| && order[q] == path[i + 1]
    ensures p < q && order[p] == path[i]
  {
    hide Deps, Greedily;
    RespectsDependencies(nodes, order);
    assert (path[i], path[i + 1]) in DependencyArcs(nodes);
    var d := path[i];
    assert d in order[..q];
    p :| 0 <= p < |order[..q]| && order[..q][p] == d;
  }

  lemma CycleIsLeftOver(nodes: seq<Node>, order: seq<Id>, x: Id)
    requires Greedily(nodes, order) && OnOrAfterCycle(DependencyArcs(nodes), x)
    ensures x !in order
  {
    hide Greedily, DependencyArcs;
    if x in order {
      var path, k :| Linked(DependencyArcs(nodes), path) && 0 < k < |path| && path[0] == path[k] && path[|path| - 1] == x;
      if k < |path| - 1 {
        var a, b := WalkBack(nodes, order, path, k, |path| - 1);
        assert order[a] in order;
      }
      var y := path[k];
      assert y in order;
      var p, q := WalkBack(nodes, order, path, 0, k);
      RespectsDependencies(nodes, order);
      assert false;
    }
  }

  predicate Within(path: seq<Id>, all: set<Id>) {
    forall i :: 0 <= i < |path| ==> path[i] in all
  }

  lemma Prepend(arcs: set<Arc>, all: set<Id>, d: Id, path: seq<Id>)
    requires path != [] && Linked(arcs, path) && Within(path, all)
    requires d in all && (d, path[0]) in arcs
    ensures Linked(arcs, [d] + path) && Within([d] + path, all)
    ensures Distinct(path) && d !in path ==> Distinct([d] + path)
  {
  }

  lemma CloseBack(arcs: set<Arc>, d: Id, path: seq<Id>)
    requires path != [] && Linked(arcs, [d] + path) && d in path
    ensures OnOrAfterCycle(arcs, path[|path| - 1])
  {
    var longer := [d] + path;
    var k :| 0 <= k < |path| && path[k] == d;
    assert longer[0] == longer[k + 1] && longer[|longer| - 1] == path[|path| - 1];
  }

  lemma WithinSize(path: seq<Id>, all: set<Id>)
    requires Distinct(path) && Within(path, all)
    ensures |path| <= |all|
  {
    DistinctSize(path, all);
  }

  ghost predicate HasPredecessor(arcs: set<Arc>, all: set<Id>, x: Id) {
    exists d :: d in all && (d, x) in arcs
  }

  /** Each of the nodes depends on another of them. */
  ghost predicate Stuck(arcs: set<Arc>, all: set<Id>) {
    forall x :: x in all ==> HasPredecessor(arcs, all, x)
  }

  lemma FirstHasPredecessor(arcs: set<Arc>, all: set<Id>, path: seq<Id>)
    requires Stuck(arcs, all) && path != [] && Within(path, all)
    ensures HasPredecessor(arcs, all, path[0])
  {
    hide HasPredecessor;
    var first := path[0];
    assert first in all;
  }

  lemma Predecessor(arcs: set<Arc>, all: set<Id>, x: Id) returns (d: Id)
    requires HasPredecessor(arcs, all, x)
    ensures d in all && (d, x) in arcs
  {
    d :| d in all && (d, x) in arcs;
  }

  /** Going back through nodes that each depend on another of them must repeat one. */
  lemma {:induction false} GrowBack(arcs: set<Arc>, stuck: set<Id>, path: seq<Id>)
    requires path != [] && Linked(arcs, path) && Distinct(path) && Within(path, stuck)
    requires Stuck(arcs, stuck)
    ensures OnOrAfterCycle(arcs, path[|path| - 1])
    decreases |stuck| - |path|
  {
    hide *;
    FirstHasPredecessor(arcs, stuck, path);
    var d := Predecessor(arcs, stuck, path[0]);
    Prepend(arcs, stuck, d, path);
    if d in path {
      CloseBack(arcs, d, path);
    } else {
      WithinSize([d] + path, stuck);
      GrowBack(arcs, stuck, [d] + path);
    }
  }

  lemma StuckDependsOnStuck(nodes: seq<Node>, order: seq<Id>, stuck: set<Id>, x: Id)
    requires DistinctIds(nodes) && x in stuck && !Available(nodes, order, x)
    requires stuck == set y | y in Ids(nodes) && y !in order
    ensures HasPredecessor(DependencyArcs(nodes), stuck, x)
  {
    hide Deps;
    DepsAreNodes(nodes, x);
    var d :| d in Deps(nodes, x) && d !in Listed(order);
    assert d in stuck && (d, x) in DependencyArcs(nodes);
  }

  /** A greedy list that nothing can extend leaves over exactly the nodes on a cycle or after one. */
  lemma WholeLeavesCycles(nodes: seq<Node>, order: seq<Id>, x: Id)
    requires DistinctIds(nodes) && x in Ids(nodes)
    requires Greedily(nodes, order) && forall y :: !Available(nodes, order, y)
    ensures x !in order <==> OnOrAfterCycle(DependencyArcs(nodes), x)
  {
    hide Greedily, Available, DependencyArcs, HasPredecessor, OnOrAfterCycle;
    if OnOrAfterCycle(DependencyArcs(nodes), x) {
      CycleIsLeftOver(nodes, order, x);
    }
    if x !in order {
      var stuck := set y | y in Ids(nodes) && y !in order;
      forall y | y in stuck ensures HasPredecessor(DependencyArcs(nodes), stuck, y) {
        StuckDependsOnStuck(nodes, order, stuck, y);
      }
      GrowBack(DependencyArcs(nodes), stuck, [x]);
    }
  }

  /**
   * What is left over is what is on a cycle or after one exactly when the empty identifier names no node,
   * or one that is itself on a cycle or after one.
   */
  lemma LeftOverExactly(nodes: seq<Node>)
    requires DistinctIds(nodes)
    ensures (forall x :: x in Ids(nodes) ==> (x !in TopoOrder(nodes) <==> OnOrAfterCycle(DependencyArcs(nodes), x)))
            <==> (EMPTY_ID in Ids(nodes) ==> OnOrAfterCycle(DependencyArcs(nodes), EMPTY_ID))
  {
    hide Greedily, Available, TopoOrder, DependencyArcs, OnOrAfterCycle, Position;
    SortIsGreedy(nodes);
    AvailableIsNode(nodes);
    var order := TopoOrder(nodes);
    if EMPTY_ID in Ids(nodes) ==> OnOrAfterCycle(DependencyArcs(nodes), EMPTY_ID) {
      if Available(nodes, order, EMPTY_ID) {
        GreedilyExtends(nodes, order, EMPTY_ID);
        CycleIsLeftOver(nodes, order + [EMPTY_ID], EMPTY_ID);
        assert false;
      }
      forall x | x in Ids(nodes) ensures x !in order <==> OnOrAfterCycle(DependencyArcs(nodes), x) {
        WholeLeavesCycles(nodes, order, x);
      }
    }
  }

  // ---------- the empty identifier ----------

  /** The part of a list before an identifier. */
  function UpTo(s: seq<Id>, x: Id): (r: seq<Id>)
    ensures r <= s && x !in r && (r == s || (|r| < |s| && s[|r|] == x))
  {
    if s == [] || s[0] == x then [] else [s[0]] + UpTo(s[1..], x)
  }

  lemma UpToFound(s: seq<Id>, n: nat, x: Id)
    requires n <= |s| && x !in s[..n] && (n < |s| ==> s[n] == x)
    ensures UpTo(s, x) == s[..n]
  {
    var r := UpTo(s, x);
    forall i | 0 <= i < |r| ensures s[i] != x {
      assert r[i] in r;
    }
    forall i | 0 <= i < n ensures s[i] != x {
      assert s[i] in s[..n];
    }
  }

  /** The first document position from n on whose node is available. */
  lemma {:induction false} FirstAvailable(nodes: seq<Node>, order: seq<Id>, n: nat) returns (k: nat)
    requires n < |nodes| && Available(nodes, order, nodes[n].id)
    ensures k <= n && Available(nodes, order, nodes[k].id)
    ensures forall i :: 0 <= i < k ==> !Available(nodes, order, nodes[i].id)
  {
    hide Available;
    if i :| 0 <= i < n && Available(nodes, order, nodes[i].id) {
      k := FirstAvailable(nodes, order, i);
    } else {
      k := n;
    }
  }

  lemma {:induction false} PositionIsFirst(nodes: seq<Node>, x: Id)
    requires x in Ids(nodes)
    ensures Position(nodes, x) < |nodes| && nodes[Position(nodes, x)].id == x
    ensures forall i :: 0 <= i < Position(nodes, x) ==> nodes[i].id != x
  {
    if nodes[0].id != x {
      var i :| 0 <= i < |nodes| && nodes[i].id == x;
      assert nodes[1..][i - 1].id == x;
      PositionIsFirst(nodes[1..], x);
    }
  }

  lemma EarliestAvailable(nodes: seq<Node>, order: seq<Id>, x: Id) returns (id: Id)
    requires Available(nodes, order, x)
    ensures Available(nodes, order, id)
    ensures forall y :: Available(nodes, order, y) ==> Position(nodes, id) <= Position(nodes, y)
  {
    AvailableIsNode(nodes);
    hide Available, Position;
    PositionIsFirst(nodes, x);
    var k := FirstAvailable(nodes, order, Position(nodes, x));
    id := nodes[k].id;
    PositionIsFirst(nodes, id);
    forall y | Available(nodes, order, y) ensures Position(nodes, id) <= Position(nodes, y) {
      PositionIsFirst(nodes, y);
    }
  }

  /** A greedy list goes on, greedily, until nothing is available. */
  lemma {:induction false} Extended(nodes: seq<Node>, order: seq<Id>) returns (whole: seq<Id>)
    requires Greedily(nodes, order)
    ensures Greedily(nodes, whole) && order <= whole && forall x :: !Available(nodes, whole, x)
    decreases |Ids(nodes)| - |order|
  {
    AvailableIsNode(nodes);
    hide Available, Position, Greedily;
    if x :| Available(nodes, order, x) {
      var id := EarliestAvailable(nodes, order, x);
      GreedilyExtends(nodes, order, id);
      ListSize(nodes, order + [id]);
      whole := Extended(nodes, order + [id]);
    } else {
      whole := order;
    }
  }

  lemma ListSize(nodes: seq<Node>, order: seq<Id>)
    requires Greedily(nodes, order)
    ensures |order| <= |Ids(nodes)|
  {
    hide Deps, Position;
    RespectsDependencies(nodes, order);
    forall i | 0 <= i < |order| ensures order[i] in Ids(nodes) {
      assert Available(nodes, order[..i], order[i]);
    }
    WithinSize(order, Ids(nodes));
  }

  /** At the turn of the only node that can be next, that node is next. */
  lemma NextIsEarliest(nodes: seq<Node>, whole: seq<Id>, n: nat, id: Id)
    requires Greedily(nodes, whole) && n < |whole| && Available(nodes, whole[..n], id)
    requires forall x :: Available(nodes, whole[..n], x) ==> Position(nodes, id) <= Position(nodes, x)
    ensures whole[n] == id
  {
    AvailableIsNode(nodes);
    assert Available(nodes, whole[..n], whole[n]);
    hide Available, Position;
    PositionIsFirst(nodes, id);
    PositionIsFirst(nodes, whole[n]);
  }

  /**
   * On every document of distinct identifiers the sort gives the whole greedy list, which leaves over exactly the
   * nodes on a cycle or after one, cut off before the empty identifier.
   */
  lemma SortIsWholeCut(nodes: seq<Node>) returns (whole: seq<Id>)
    requires DistinctIds(nodes)
    ensures Greedily(nodes, whole) && TopoOrder(nodes) == UpTo(whole, EMPTY_ID)
    ensures forall x :: x in Ids(nodes) ==> (x !in whole <==> OnOrAfterCycle(DependencyArcs(nodes), x))
  {
    hide Available, TopoOrder, DependencyArcs, OnOrAfterCycle, Position, Greedily, UpTo;
    SortIsGreedy(nodes);
    var order := TopoOrder(nodes);
    whole := Extended(nodes, order);
    assert whole[..|order|] == order;
    if |order| < |whole| {
      TurnIsAvailable(nodes, whole, |order|);
      NextIsEarliest(nodes, whole, |order|, EMPTY_ID);
    }
    UpToFound(whole, |order|, EMPTY_ID);
    forall x | x in Ids(nodes) ensures x !in whole <==> OnOrAfterCycle(DependencyArcs(nodes), x) {
      WholeLeavesCycles(nodes, whole, x);
    }
  }

  lemma TurnIsAvailable(nodes: seq<Node>, order: seq<Id>, n: nat)
    requires Greedily(nodes, order) && n < |order|
    ensures Available(nodes, order[..n], order[n])
  {
  }

  // ---------- agreement with the depth-first search ----------

  lemma GreedyIsForward(nodes: seq<Node>, order: seq<Id>)
    requires DistinctIds(nodes) && Greedily(nodes, order) && forall x :: x in Ids(nodes) ==> x in order
    ensures Topological(DependencyArcs(nodes), Ids(nodes), order)
  {
    hide Deps, Greedily;
    RespectsDependencies(nodes, order);
    forall i, s | 0 <= i < |order| && (order[i], s) in DependencyArcs(nodes) ensures s in order[i + 1..] {
      var j :| 0 <= j < |order| && order[j] == s;
      var d := order[i];
      assert d in order[..j];
      assert order[i + 1..][j - i - 1] == s;
    }
  }

  /** The sort leaves nothing over exactly when there is a topological order and no node has the empty identifier. */
  lemma NothingLeftIffOrderable(nodes: seq<Node>)
    requires DistinctIds(nodes)
    ensures (forall x :: x in Ids(nodes) ==> x in TopoOrder(nodes)) <==>
            Orderable(DependencyArcs(nodes), Ids(nodes)) && EMPTY_ID !in Ids(nodes)
  {
    hide TopoOrder, DependencyArcs, Greedily, Topological, OnOrAfterCycle;
    SortIsGreedy(nodes);
    if forall x :: x in Ids(nodes) ==> x in TopoOrder(nodes) {
      GreedyIsForward(nodes, TopoOrder(nodes));
    }
    if Orderable(DependencyArcs(nodes), Ids(nodes)) && EMPTY_ID !in Ids(nodes) {
      OrderRefutesCycle(DependencyArcs(nodes), Ids(nodes));
      LeftOverExactly(nodes);
      forall x | x in Ids(nodes) ensures x in TopoOrder(nodes) {
        if OnOrAfterCycle(DependencyArcs(nodes), x) {
          CycleIsCyclic(nodes, x);
        }
      }
    }
  }

  /** For one graph, the sort leaves nothing over exactly when the search accepts it and no node has the empty identifier. */
  lemma SortAgreesWithSearch(nodes: seq<Node>, items: seq<Id>, precedence: seq<Arc>, gates: seq<CausalDfs.Gate>)
    requires DistinctIds(nodes) && Ids(nodes) == set x | x in items
    requires DependencyArcs(nodes) == CausalDfs.CausalArcs(precedence, gates)
    ensures (forall x :: x in Ids(nodes) ==> x in TopoOrder(nodes)) <==>
            CausalDfs.Accepted(items, precedence, gates) && EMPTY_ID !in Ids(nodes)
  {
    hide TopoOrder, DependencyArcs, Orderable;
    NothingLeftIffOrderable(nodes);
  }

  lemma CycleIsCyclic(nodes: seq<Node>, x: Id)
    requires DistinctIds(nodes) && OnOrAfterCycle(DependencyArcs(nodes), x)
    ensures Cyclic(DependencyArcs(nodes), Ids(nodes))
  {
    hide Deps;
    var arcs := DependencyArcs(nodes);
    var path, k :| Linked(arcs, path) && 0 < k < |path| && path[0] == path[k] && path[|path| - 1] == x;
    var loop := path[..k + 1];
    assert Linked(arcs, loop);
    assert loop[0] == loop[|loop| - 1];
    assert Lasso(arcs, loop, 0);
    var start := path[0];
    assert (start, path[1]) in arcs;
    DepsAreNodes(nodes, path[1]);
    assert start in Ids(nodes);
  }
}
