/** Repeated node identifiers: the diagram warns about them but still sorts, and then the order can be wrong. */
module KahnDuplicates {
  import opened SlotOrder
  import opened CausalGraph
  import opened KahnSort
  import opened KahnLaws

  /** Nothing twice, dependencies first, and left over exactly what is on or after a cycle. */
  ghost predicate Trustworthy(nodes: seq<Node>) {
    var order := TopoOrder(nodes);
    && Distinct(order)
    && (forall i, d :: 0 <= i < |order| && d in Deps(nodes, order[i]) ==> d in order[..i])
    && (forall x :: x in Ids(nodes) ==> (x !in order <==> OnOrAfterCycle(DependencyArcs(nodes), x)))
  }

  function IdList(nodes: seq<Node>): seq<Id> {
    seq(|nodes|, i requires 0 <= i < |nodes| => nodes[i].id)
  }

  /** The node 1 occurs twice, and 2 and 3 depend on each other. */
  function Repeated(): seq<Node> {
    [Node(1, []), Node(1, []), Node(2, [1, 3]), Node(3, [2])]
  }

  /** The repetition hides the cycle: everything is listed, 2 before the 3 it depends on. */
  lemma RepetitionHidesCycle()
    ensures TopoOrder(Repeated()) == [1, 1, 2, 3]
    ensures 3 in Deps(Repeated(), 2) && 2 in Deps(Repeated(), 3)
    ensures !Trustworthy(Repeated())
  {
    RepeatedGraph();
    RepeatedRun();
    hide TopoOrder, Deps, DependencyArcs, OnOrAfterCycle;
    var order := [1, 1, 2, 3];
    assert order[0] == order[1];
  }

  lemma RepeatedStart()
    ensures Initial(Repeated()) == Progress(map[1 := 0, 2 := 2, 3 := 1], [1, 1], [])
  {
    var nodes := Repeated();
    RepeatedGraph();
    hide Deps, Ids, DepsById;
    var indegree := map[1 := 0, 2 := 2, 3 := 1];
    assert |{1, 3}| == 2 && |{2}| == 1;
    assert Initial(nodes).indegree == indegree;
    assert Roots(nodes, indegree, 2) == [1, 1];
    assert Roots(nodes, indegree, 4) == [1, 1];
  }

  lemma RepeatedRun()
    ensures TopoOrder(Repeated()) == [1, 1, 2, 3]
  {
    var nodes := Repeated();
    RepeatedGraph();
    RepeatedStart();
    hide Children, Deps, Ids, Initial, Finish;
    var p := Progress(map[1 := 0, 2 := 2, 3 := 1], [1, 1], []);
    var q := Progress(map[1 := 0, 2 := 1, 3 := 1], [1], [1]);
    var r := Progress(map[1 := 0, 2 := 0, 3 := 1], [2], [1, 1]);
    var s := Progress(map[1 := 0, 2 := 0, 3 := 0], [3], [1, 1, 2]);
    var t := Progress(map[1 := 0, 2 := -1, 3 := 0], [], [1, 1, 2, 3]);
    EmitOne(nodes, p, 1, [1], [2], q);
    EmitOne(nodes, q, 1, [], [2], r);
    EmitOne(nodes, r, 2, [], [3], s);
    EmitOne(nodes, s, 3, [], [2], t);
    FinishEmpty(nodes, t);
  }

  lemma FinishEmpty(nodes: seq<Node>, p: Progress)
    requires p.ready == []
    ensures Finish(nodes, p) == p
  {
  }

  lemma RepeatedGraph()
    ensures Ids(Repeated()) == {1, 2, 3}
    ensures Deps(Repeated(), 1) == {} && Deps(Repeated(), 2) == {1, 3} && Deps(Repeated(), 3) == {2}
    ensures Children(Repeated(), 4, 1) == [2] && Children(Repeated(), 4, 2) == [3] && Children(Repeated(), 4, 3) == [2]
  {
    var nodes := Repeated();
    assert Ids(nodes) == {1, 2, 3} by {
      assert nodes[0].id == 1 && nodes[2].id == 2 && nodes[3].id == 3;
    }
    assert Known(nodes, nodes[0]) == {} && Known(nodes, nodes[1]) == {} && Known(nodes, nodes[2]) == {1, 3} && Known(nodes, nodes[3]) == {2};
    assert DepsById(nodes, 1) == map[1 := {}];
    assert DepsById(nodes, 2) == map[1 := {}];
    assert DepsById(nodes, 3) == map[1 := {}, 2 := {1, 3}];
    assert DepsById(nodes, 4) == map[1 := {}, 2 := {1, 3}, 3 := {2}];
    hide Known;
    ChildOf(nodes, 1);
    ChildOf(nodes, 2);
    ChildOf(nodes, 3);
  }

  lemma ChildOf(nodes: seq<Node>, id: Id)
    requires |nodes| == 4
    ensures Children(nodes, 4, id) ==
              (if id in Known(nodes, nodes[0]) then [nodes[0].id] else [])
              + (if id in Known(nodes, nodes[1]) then [nodes[1].id] else [])
              + (if id in Known(nodes, nodes[2]) then [nodes[2].id] else [])
              + (if id in Known(nodes, nodes[3]) then [nodes[3].id] else [])
  {
    hide Known;
    var first, second := Children(nodes, 1, id), Children(nodes, 2, id);
    assert Children(nodes, 0, id) == [];
    assert first == if id in Known(nodes, nodes[0]) then [nodes[0].id] else [];
    assert second == first + (if id in Known(nodes, nodes[1]) then [nodes[1].id] else []);
  }

  lemma EmitOne(nodes: seq<Node>, p: Progress, id: Id, rest: seq<Id>, children: seq<Id>, q: Progress)
    requires p.ready == [id] + rest && id != EMPTY_ID && (rest == [] || rest == [id])
    requires children == Children(nodes, |nodes|, id) && |children| == 1
    requires q == ReleaseOne(Progress(p.indegree, rest, p.order + [id]), children[0])
    ensures Finish(nodes, p) == Finish(nodes, q)
  {
    hide Children;
    var k := Earliest(nodes, p.ready, |p.ready|);
    assert p.ready[k] == id && p.ready[..k] + p.ready[k + 1..] == rest;
    var popped := Pop(nodes, p);
    assert popped == Progress(p.indegree, rest, p.order + [id]);
    assert Release(popped, children, 1) == ReleaseOne(popped, children[0]);
  }

  // ---------- for which identifier lists the sort can be relied on ----------

  lemma {:induction false} FinishWithoutArcs(nodes: seq<Node>, p: Progress)
    requires forall id :: Children(nodes, |nodes|, id) == []
    requires EMPTY_ID !in p.ready
    ensures multiset(Finish(nodes, p).order) == multiset(p.order) + multiset(p.ready)
    decreases Weight(p)
  {
    hide Weight, Children;
    if p.ready != [] {
      var k := Earliest(nodes, p.ready, |p.ready|);
      assert p.ready == p.ready[..k] + [p.ready[k]] + p.ready[k + 1..];
      assert p.ready[k] in p.ready;
      EmitShrinks(nodes, p);
      FinishWithoutArcs(nodes, Emit(nodes, p));
    }
  }

  lemma {:induction false} NoArcs(nodes: seq<Node>, n: nat, id: Id)
    requires n <= |nodes| && forall i :: 0 <= i < |nodes| ==> nodes[i].dependsOn == []
    ensures Children(nodes, n, id) == []
    ensures forall x :: x in DepsById(nodes, n) ==> DepsById(nodes, n)[x] == {}
  {
    if n > 0 {
      NoArcs(nodes, n - 1, id);
      assert Known(nodes, nodes[n - 1]) == {};
    }
  }

  lemma {:induction false} AllRoots(nodes: seq<Node>, indegree: map<Id, int>, n: nat)
    requires n <= |nodes| && forall x :: Degree(indegree, x) == 0
    ensures Roots(nodes, indegree, n) == IdList(nodes)[..n]
  {
    if n > 0 {
      AllRoots(nodes, indegree, n - 1);
      assert IdList(nodes)[..n] == IdList(nodes)[..n - 1] + [nodes[n - 1].id];
    }
  }

  lemma {:induction false} DistinctOnce(s: seq<Id>, x: Id)
    requires Distinct(s)
    ensures multiset(s)[x] <= 1
  {
    if s != [] {
      var last := s[|s| - 1];
      assert s == s[..|s| - 1] + [last];
      DistinctOnce(s[..|s| - 1], x);
      if x == last {
        assert x !in s[..|s| - 1];
      }
    }
  }

  lemma RepeatedTwice(s: seq<Id>, i: nat, j: nat)
    requires i < j < |s| && s[i] == s[j]
    ensures multiset(s)[s[i]] >= 2
  {
    assert s == s[..j] + [s[j]] + s[j + 1..];
    assert s[..j][i] == s[i];
    assert s[i] in multiset(s[..j]);
  }

  /** A document of independent nodes with these identifiers. */
  function Independent(ids: seq<Id>): seq<Node> {
    seq(|ids|, i requires 0 <= i < |ids| => Node(ids[i], []))
  }

  /** Independent nodes are all listed, each as often as it occurs. */
  lemma IndependentAllListed(ids: seq<Id>, nodes: seq<Node>)
    requires EMPTY_ID !in ids && nodes == Independent(ids)
    ensures multiset(TopoOrder(nodes)) == multiset(ids) && IdList(nodes) == ids
  {
    hide Children, DepsById, Ids, Roots, Finish;
    forall id ensures Children(nodes, |nodes|, id) == [] && Deps(nodes, id) == {} {
      NoArcs(nodes, |nodes|, id);
      assert nodes[..|nodes|] == nodes;
    }
    var p := Initial(nodes);
    AllRoots(nodes, p.indegree, |nodes|);
    assert IdList(nodes) == ids && ids[..|ids|] == ids;
    FinishWithoutArcs(nodes, p);
  }

  /**
   * A list of node identifiers sorts reliably whatever the dependencies exactly when no identifier repeats
   * and none is empty.
   */
  lemma ReliableIffDistinct(ids: seq<Id>)
    ensures (forall nodes :: IdList(nodes) == ids ==> Trustworthy(nodes)) <==> Distinct(ids) && EMPTY_ID !in ids
  {
    hide Trustworthy;
    var nodes := Independent(ids);
    IndependentGraph(ids);
    if Distinct(ids) && EMPTY_ID !in ids {
      forall nodes | IdList(nodes) == ids ensures Trustworthy(nodes) {
        DistinctIsTrustworthy(nodes, ids);
      }
    } else if EMPTY_ID in ids {
      EmptyNotTrustworthy(nodes);
    } else {
      IndependentAllListed(ids, nodes);
      var i, j :| 0 <= i < j < |ids| && ids[i] == ids[j];
      RepeatedTwice(ids, i, j);
      TwiceNotTrustworthy(nodes, ids[i]);
    }
  }

  lemma IndependentGraph(ids: seq<Id>)
    ensures IdList(Independent(ids)) == ids && DependencyArcs(Independent(ids)) == {}
    ensures forall x :: x in ids <==> x in Ids(Independent(ids))
  {
    var nodes := Independent(ids);
    forall x ensures x in ids <==> x in Ids(nodes) {
      if x in ids {
        var i :| 0 <= i < |ids| && ids[i] == x;
        assert nodes[i].id == x;
      }
    }
    hide Ids;
    assert nodes[..|nodes|] == nodes;
    forall x ensures Deps(nodes, x) == {} {
      NoArcs(nodes, |nodes|, x);
    }
  }

  /** The empty identifier is never listed, and without arcs it is on no cycle. */
  lemma EmptyNotTrustworthy(nodes: seq<Node>)
    requires EMPTY_ID in Ids(nodes) && DependencyArcs(nodes) == {}
    ensures !Trustworthy(nodes)
  {
    FinishSkipsEmpty(nodes, Initial(nodes));
    hide Deps, Finish;
    NoCycleWithoutArcs(DependencyArcs(nodes), EMPTY_ID);
  }

  lemma NoCycleWithoutArcs(arcs: set<Arc>, x: Id)
    requires arcs == {}
    ensures !OnOrAfterCycle(arcs, x)
  {
    forall path: seq<Id> | |path| > 1 ensures !Linked(arcs, path) {
      var step := (path[0], path[1]);
      assert step !in arcs;
    }
  }

  /** A node with the empty identifier before an independent node 1. */
  function EmptyFirst(): seq<Node> {
    [Node(EMPTY_ID, []), Node(1, [])]
  }

  /** Nothing is listed: both nodes are left over, though neither is on a cycle or after one. */
  lemma EmptyIdentifierEndsSort()
    ensures TopoOrder(EmptyFirst()) == [] && Ids(EmptyFirst()) == {EMPTY_ID, 1}
    ensures forall x :: !OnOrAfterCycle(DependencyArcs(EmptyFirst()), x)
    ensures !Trustworthy(EmptyFirst())
  {
    EmptyFirstGraph();
    hide *;
    var nodes := EmptyFirst();
    forall x ensures !OnOrAfterCycle(DependencyArcs(nodes), x) {
      NoCycleWithoutArcs(DependencyArcs(nodes), x);
    }
    EmptyNotTrustworthy(nodes);
    var whole := SortIsWholeCut(nodes);
    EmptyIsFirst(nodes, whole);
  }

  lemma EmptyFirstGraph()
    ensures DistinctIds(EmptyFirst()) && Ids(EmptyFirst()) == {EMPTY_ID, 1}
    ensures DependencyArcs(EmptyFirst()) == {} && Deps(EmptyFirst(), EMPTY_ID) == {}
  {
    var nodes := EmptyFirst();
    assert nodes == Independent([EMPTY_ID, 1]);
    IndependentGraph([EMPTY_ID, 1]);
    assert nodes[0].id == EMPTY_ID && nodes[1].id == 1;
    hide DependencyArcs;
    NoArcs(nodes, 2, EMPTY_ID);
  }

  lemma EmptyIsFirst(nodes: seq<Node>, whole: seq<Id>)
    requires nodes == EmptyFirst() && Greedily(nodes, whole) && EMPTY_ID in whole && Deps(nodes, EMPTY_ID) == {}
    ensures UpTo(whole, EMPTY_ID) == []
  {
    hide Deps, DepsById;
    var first := whole[..0];
    assert nodes[0].id == EMPTY_ID;
    assert Available(nodes, first, EMPTY_ID);
    NextIsEarliest(nodes, whole, 0, EMPTY_ID);
  }

  lemma TwiceNotTrustworthy(nodes: seq<Node>, x: Id)
    requires multiset(TopoOrder(nodes))[x] >= 2
    ensures !Trustworthy(nodes)
  {
    hide TopoOrder, Deps, OnOrAfterCycle;
    if Distinct(TopoOrder(nodes)) {
      DistinctOnce(TopoOrder(nodes), x);
    }
  }

  lemma DistinctIsTrustworthy(nodes: seq<Node>, ids: seq<Id>)
    requires IdList(nodes) == ids && Distinct(ids) && EMPTY_ID !in ids
    ensures Trustworthy(nodes)
  {
    hide TopoOrder, Deps, OnOrAfterCycle, Greedily, DependencyArcs;
    forall i, j | 0 <= i < j < |nodes| ensures nodes[i].id != nodes[j].id {
      assert ids[i] == nodes[i].id && ids[j] == nodes[j].id;
    }
    forall i | 0 <= i < |nodes| ensures nodes[i].id != EMPTY_ID {
      assert ids[i] in ids;
    }
    assert EMPTY_ID !in Ids(nodes);
    SortIsGreedy(nodes);
    RespectsDependencies(nodes, TopoOrder(nodes));
    LeftOverExactly(nodes);
  }
}
