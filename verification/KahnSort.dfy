/** The diagram's topological sort: indegrees, and a ready list kept in document order. */
module KahnSort {
  import opened FiniteSets
  import opened SlotOrder
  import opened CausalGraph

  datatype Node = Node(id: Id, dependsOn: seq<Id>)

  /** The empty string: reaching it ends the sort. */
  const EMPTY_ID: Id := 0

  function Ids(nodes: seq<Node>): set<Id> {
    set i | 0 <= i < |nodes| :: nodes[i].id
  }

  /** The dependencies that name a node, without repetition. */
  function Known(nodes: seq<Node>, node: Node): set<Id> {
    set d | d in node.dependsOn && d in Ids(nodes)
  }

  /** Known dependencies by identifier; a repeated identifier keeps its last node's. */
  function DepsById(nodes: seq<Node>, n: nat): (r: map<Id, set<Id>>)
    requires n <= |nodes|
    ensures r.Keys == Ids(nodes[..n])
  {
    if n == 0 then map[]
    else
      assert nodes[..n] == nodes[..n - 1] + [nodes[n - 1]];
      assert Ids(nodes[..n]) == Ids(nodes[..n - 1]) + {nodes[n - 1].id} by {
        assert nodes[..n][n - 1] == nodes[n - 1];
        assert forall i :: 0 <= i < n - 1 ==> nodes[..n][i] == nodes[..n - 1][i];
      }
      DepsById(nodes, n - 1)[nodes[n - 1].id := Known(nodes, nodes[n - 1])]
  }

  function Deps(nodes: seq<Node>, id: Id): set<Id> {
    assert nodes[..|nodes|] == nodes;
    if id in Ids(nodes) then DepsById(nodes, |nodes|)[id] else {}
  }

  /** The nodes that depend on an identifier, in document order. */
  function Children(nodes: seq<Node>, n: nat, id: Id): seq<Id>
    requires n <= |nodes|
  {
    if n == 0 then []
    else Children(nodes, n - 1, id) + (if id in Known(nodes, nodes[n - 1]) then [nodes[n - 1].id] else [])
  }

  /** Where an identifier first occurs. */
  function Position(nodes: seq<Node>, id: Id): nat {
    if nodes == [] || nodes[0].id == id then 0 else 1 + Position(nodes[1..], id)
  }

  // ---------- the sort as a function ----------

  datatype Progress = Progress(indegree: map<Id, int>, ready: seq<Id>, order: seq<Id>)

  function Initial(nodes: seq<Node>): Progress {
    var indegree := map id | id in Ids(nodes) :: |Deps(nodes, id)|;
    Progress(indegree, Roots(nodes, indegree, |nodes|), [])
  }

  function Roots(nodes: seq<Node>, indegree: map<Id, int>, n: nat): seq<Id>
    requires n <= |nodes|
  {
    if n == 0 then []
    else Roots(nodes, indegree, n - 1) + (if Degree(indegree, nodes[n - 1].id) == 0 then [nodes[n - 1].id] else [])
  }

  function Degree(indegree: map<Id, int>, id: Id): int {
    if id in indegree then indegree[id] else 0
  }

  /** One dependency of a child is done. */
  function ReleaseOne(p: Progress, child: Id): Progress {
    var next := Degree(p.indegree, child) - 1;
    Progress(p.indegree[child := next], if next == 0 then p.ready + [child] else p.ready, p.order)
  }

  function Release(p: Progress, children: seq<Id>, n: nat): Progress
    requires n <= |children|
  {
    if n == 0 then p else ReleaseOne(Release(p, children, n - 1), children[n - 1])
  }

  /** The index of the ready identifier that comes first in the document. */
  function Earliest(nodes: seq<Node>, ready: seq<Id>, n: nat): (k: nat)
    requires 0 < n <= |ready|
    ensures k < n
    ensures forall i :: 0 <= i < n ==> Position(nodes, ready[k]) <= Position(nodes, ready[i])
  {
    if n == 1 then 0
    else
      var k := Earliest(nodes, ready, n - 1);
      if Position(nodes, ready[n - 1]) < Position(nodes, ready[k]) then n - 1 else k
  }

  function Pop(nodes: seq<Node>, p: Progress): Progress
    requires p.ready != []
  {
    var k := Earliest(nodes, p.ready, |p.ready|);
    Progress(p.indegree, p.ready[..k] + p.ready[k + 1..], p.order + [p.ready[k]])
  }

  function Emit(nodes: seq<Node>, p: Progress): Progress
    requires p.ready != []
  {
    var popped := Pop(nodes, p);
    var children := Children(nodes, |nodes|, popped.order[|popped.order| - 1]);
    Release(popped, children, |children|)
  }

  predicate Stops(nodes: seq<Node>, p: Progress) {
    p.ready == [] || p.ready[Earliest(nodes, p.ready, |p.ready|)] == EMPTY_ID
  }

  /** Each identifier turns ready at most once more than it starts out, so the loop ends for every input. */
  function Weight(p: Progress): nat {
    |p.ready| + |Pending(p)|
  }

  function Pending(p: Progress): set<Id> {
    set id | id in p.indegree && p.indegree[id] > 0
  }

  function Finish(nodes: seq<Node>, p: Progress): Progress
    decreases Weight(p)
  {
    if Stops(nodes, p) then p
    else
      EmitShrinks(nodes, p);
      Finish(nodes, Emit(nodes, p))
  }

  function TopoOrder(nodes: seq<Node>): seq<Id> {
    Finish(nodes, Initial(nodes)).order
  }

  lemma EmitShrinks(nodes: seq<Node>, p: Progress)
    requires p.ready != []
    ensures Weight(Emit(nodes, p)) < Weight(p)
  {
    var popped := Pop(nodes, p);
    var children := Children(nodes, |nodes|, popped.order[|popped.order| - 1]);
    assert Pending(popped) == Pending(p);
    ReleaseShrinks(popped, children, |children|);
  }

  lemma {:induction false} ReleaseShrinks(p: Progress, children: seq<Id>, n: nat)
    requires n <= |children|
    ensures Weight(Release(p, children, n)) <= Weight(p)
  {
    if n > 0 {
      ReleaseShrinks(p, children, n - 1);
      ReleaseOneShrinks(Release(p, children, n - 1), children[n - 1]);
    }
  }

  lemma ReleaseOneShrinks(p: Progress, child: Id)
    ensures Weight(ReleaseOne(p, child)) <= Weight(p)
  {
    var q := ReleaseOne(p, child);
    if Degree(q.indegree, child) == 0 {
      assert Pending(q) == Pending(p) - {child};
      assert child in Pending(p);
    } else {
      assert Pending(q) == Pending(p);
    }
  }

  // ---------- the loops ----------

  datatype GraphInfo = GraphInfo(depsById: map<Id, set<Id>>, childrenById: map<Id, seq<Id>>)

  /** The identifiers in document order, repetitions included. */
  function IdList(nodes: seq<Node>): seq<Id> {
    seq(|nodes|, i requires 0 <= i < |nodes| => nodes[i].id)
  }

  lemma IdListGrows(nodes: seq<Node>, i: nat)
    requires i < |nodes|
    ensures IdList(nodes[..i + 1]) == IdList(nodes[..i]) + [nodes[i].id]
  {
  }

  /** One more node is a new identifier or one more duplicate. */
  lemma CountsGrow(nodes: seq<Node>, i: nat, ids: set<Id>, duplicates: seq<Id>)
    requires i < |nodes| && multiset(IdList(nodes[..i])) == multiset(ids) + multiset(duplicates)
    ensures var id := nodes[i].id;
            multiset(IdList(nodes[..i + 1])) == if id in ids then multiset(ids) + multiset(duplicates + [id]) else multiset(ids + {id}) + multiset(duplicates)
  {
    IdListGrows(nodes, i);
    hide IdList;
  }

  method CollectIds(nodes: seq<Node>) returns (ids: set<Id>, duplicates: seq<Id>)
    ensures ids == Ids(nodes)
    ensures duplicates == [] <==> DistinctIds(nodes)
    ensures multiset(IdList(nodes)) == multiset(ids) + multiset(duplicates)
  {
    ids, duplicates := {}, [];
    for i := 0 to |nodes|
      invariant ids == Ids(nodes[..i])
      invariant duplicates == [] <==> DistinctIds(nodes[..i])
      invariant multiset(IdList(nodes[..i])) == multiset(ids) + multiset(duplicates)
    {
      IdsGrow(nodes, i);
      CountsGrow(nodes, i, ids, duplicates);
      hide IdList, Ids, DistinctIds;
      if nodes[i].id in ids {
        duplicates := duplicates + [nodes[i].id];
      } else {
        ids := ids + {nodes[i].id};
      }
    }
    assert nodes[..|nodes|] == nodes;
  }

  method BuildGraph(nodes: seq<Node>, ids: set<Id>) returns (g: GraphInfo)
    requires ids == Ids(nodes)
    ensures g.depsById == DepsById(nodes, |nodes|)
    ensures g.childrenById.Keys == ids && forall id :: id in ids ==> g.childrenById[id] == Children(nodes, |nodes|, id)
  {
    hide Ids;
    var deps: map<Id, set<Id>> := map[];
    var children: map<Id, seq<Id>> := map id | id in ids :: [];
    for i := 0 to |nodes|
      invariant deps == DepsById(nodes, i)
      invariant children.Keys == ids && forall id :: id in ids ==> children[id] == Children(nodes, i, id)
    {
      var known := Known(nodes, nodes[i]);
      deps := deps[nodes[i].id := known];
      children := map id | id in ids :: children[id] + (if id in known then [nodes[i].id] else []);
    }
    g := GraphInfo(deps, children);
  }

  predicate DistinctIds(nodes: seq<Node>) {
    forall i, j :: 0 <= i < j < |nodes| ==> nodes[i].id != nodes[j].id
  }

  lemma IdsGrow(nodes: seq<Node>, i: nat)
    requires i < |nodes|
    ensures Ids(nodes[..i + 1]) == Ids(nodes[..i]) + {nodes[i].id}
    ensures DistinctIds(nodes[..i + 1]) <==> DistinctIds(nodes[..i]) && nodes[i].id !in Ids(nodes[..i])
  {
    var a, b := nodes[..i + 1], nodes[..i];
    assert a[i] == nodes[i] && forall j :: 0 <= j < i ==> a[j] == b[j];
  }

  method Begin(nodes: seq<Node>, g: GraphInfo) returns (p: Progress)
    requires g.depsById == DepsById(nodes, |nodes|)
    ensures p == Initial(nodes)
  {
    assert nodes[..|nodes|] == nodes;
    var indegree: map<Id, int> := map id | id in g.depsById :: |g.depsById[id]|;
    assert indegree == Initial(nodes).indegree;
    var ready := [];
    for i := 0 to |nodes|
      invariant ready == Roots(nodes, indegree, i)
    {
      if Degree(indegree, nodes[i].id) == 0 {
        ready := ready + [nodes[i].id];
      }
    }
    p := Progress(indegree, ready, []);
  }

  method ReleaseAll(popped: Progress, children: seq<Id>) returns (indegree: map<Id, int>, ready: seq<Id>)
    ensures Progress(indegree, ready, popped.order) == Release(popped, children, |children|)
  {
    indegree, ready := popped.indegree, popped.ready;
    for i := 0 to |children|
      invariant Progress(indegree, ready, popped.order) == Release(popped, children, i)
    {
      var next := Degree(indegree, children[i]) - 1;
      indegree := indegree[children[i] := next];
      if next == 0 {
        ready := ready + [children[i]];
      }
    }
  }

  method SortNodes(nodes: seq<Node>, g: GraphInfo) returns (order: seq<Id>)
    requires g.depsById == DepsById(nodes, |nodes|)
    requires g.childrenById.Keys == Ids(nodes) && forall id :: id in Ids(nodes) ==> g.childrenById[id] == Children(nodes, |nodes|, id)
    ensures order == TopoOrder(nodes)
  {
    hide Ids, Initial, Release, Weight, Children;
    var p := Begin(nodes, g);
    var indegree, ready := p.indegree, p.ready;
    order := p.order;
    while ready != []
      invariant Finish(nodes, Progress(indegree, ready, order)) == Finish(nodes, Initial(nodes))
      decreases Weight(Progress(indegree, ready, order))
    {
      EmitShrinks(nodes, Progress(indegree, ready, order));
      var k := Earliest(nodes, ready, |ready|);
      var id := ready[k];
      if id == EMPTY_ID {
        break;
      }
      ready := ready[..k] + ready[k + 1..];
      order := order + [id];
      NoChildren(nodes, |nodes|, id);
      var children := if id in g.childrenById then g.childrenById[id] else [];
      indegree, ready := ReleaseAll(Progress(indegree, ready, order), children);
    }
  }

  /** What is not in the order, in document order. */
  function Unlisted(ids: seq<Id>, order: seq<Id>): seq<Id> {
    if ids == [] then []
    else Unlisted(ids[..|ids| - 1], order) + (if ids[|ids| - 1] in order then [] else [ids[|ids| - 1]])
  }

  lemma UnlistedGrows(ids: seq<Id>, id: Id, order: seq<Id>)
    ensures Unlisted(ids + [id], order) == Unlisted(ids, order) + (if id in order then [] else [id])
  {
    assert (ids + [id])[..|ids + [id]| - 1] == ids;
  }

  method Leftover(nodes: seq<Node>, order: seq<Id>) returns (leftover: seq<Id>)
    ensures forall x :: x in leftover <==> x in Ids(nodes) && x !in order
    ensures leftover == Unlisted(IdList(nodes), order)
  {
    leftover := [];
    for i := 0 to |nodes|
      invariant forall x :: x in leftover <==> x in Ids(nodes[..i]) && x !in order
      invariant leftover == Unlisted(IdList(nodes[..i]), order)
    {
      IdsGrow(nodes, i);
      IdListGrows(nodes, i);
      UnlistedGrows(IdList(nodes[..i]), nodes[i].id, order);
      hide IdList, Unlisted;
      if nodes[i].id !in order {
        leftover := leftover + [nodes[i].id];
      }
    }
    assert nodes[..|nodes|] == nodes;
  }

  /** The sorted identifiers and those left over. */
  method TopoSort(nodes: seq<Node>) returns (order: seq<Id>, leftover: seq<Id>, duplicates: seq<Id>)
    ensures order == TopoOrder(nodes)
    ensures forall x :: x in leftover <==> x in Ids(nodes) && x !in TopoOrder(nodes)
    ensures leftover == Unlisted(IdList(nodes), TopoOrder(nodes))
    ensures duplicates == [] <==> DistinctIds(nodes)
    ensures multiset(IdList(nodes)) == multiset(Ids(nodes)) + multiset(duplicates)
  {
    var ids;
    ids, duplicates := CollectIds(nodes);
    var g := BuildGraph(nodes, ids);
    order := SortNodes(nodes, g);
    leftover := Leftover(nodes, order);
  }

  /** An unknown identifier has no children. */
  lemma {:induction false} NoChildren(nodes: seq<Node>, n: nat, id: Id)
    requires n <= |nodes|
    ensures id !in Ids(nodes) ==> Children(nodes, n, id) == []
  {
    if n > 0 {
      NoChildren(nodes, n - 1, id);
    }
  }
}
