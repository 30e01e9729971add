/** Directed graphs: paths, cycles and topological orders. */
module CausalGraph {
  import opened SlotOrder

  /** From a predecessor to its successor. */
  type Arc = (Id, Id)

  predicate Distinct(s: seq<Id>) {
    forall i, j :: 0 <= i < j < |s| ==> s[i] != s[j]
  }

  ghost predicate Linked(arcs: set<Arc>, path: seq<Id>) {
    forall i, j :: 0 <= i && j == i + 1 < |path| ==> (path[i], path[j]) in arcs
  }

  /** Every successor of a listed node is listed after it. */
  ghost predicate Forward(arcs: set<Arc>, order: seq<Id>) {
    forall i, s :: 0 <= i < |order| && (order[i], s) in arcs ==> s in order[i + 1..]
  }

  /** A list of distinct nodes that has every item, and every successor of a listed node later on. */
  ghost predicate Topological(arcs: set<Arc>, items: set<Id>, order: seq<Id>) {
    Distinct(order) && (forall x :: x in items ==> x in order) && Forward(arcs, order)
  }

  /** A path that comes back to the node at position k. */
  ghost predicate Lasso(arcs: set<Arc>, path: seq<Id>, k: nat) {
    Linked(arcs, path) && k < |path| - 1 && path[k] == path[|path| - 1]
  }

  /** A cycle can be reached from an item. */
  ghost predicate Cyclic(arcs: set<Arc>, items: set<Id>) {
    exists path, k :: Lasso(arcs, path, k) && path[0] in items
  }

  ghost predicate Orderable(arcs: set<Arc>, items: set<Id>) {
    exists order :: Topological(arcs, items, order)
  }

  /** Walking along arcs from a listed node goes strictly forward in the list. */
  lemma {:induction false} WalkAdvances(arcs: set<Arc>, order: seq<Id>, path: seq<Id>, i: nat, j: nat) returns (p: nat, q: nat)
    requires Forward(arcs, order) && Linked(arcs, path)
    requires i < j < |path| && path[0] in order
    ensures p < q < |order| && order[p] == path[i] && order[q] == path[j]
    decreases j
  {
    if i == j - 1 {
      p := Listed(arcs, order, path, i);
    } else {
      var m;
      p, m := WalkAdvances(arcs, order, path, i, j - 1);
      assert order[m] == path[j - 1];
      q := StepAdvances(arcs, order, path, j - 1, m);
      return;
    }
    q := StepAdvances(arcs, order, path, i, p);
  }

  lemma StepAdvances(arcs: set<Arc>, order: seq<Id>, path: seq<Id>, i: nat, p: nat) returns (q: nat)
    requires Forward(arcs, order) && Linked(arcs, path)
    requires i + 1 < |path| && p < |order| && order[p] == path[i]
    ensures p < q < |order| && order[q] == path[i + 1]
  {
    var s := path[i + 1];
    assert (order[p], s) in arcs;
    assert s in order[p + 1..];
    var d :| 0 <= d < |order[p + 1..]| && order[p + 1..][d] == s;
    q := p + 1 + d;
  }

  lemma {:induction false} Listed(arcs: set<Arc>, order: seq<Id>, path: seq<Id>, i: nat) returns (p: nat)
    requires Forward(arcs, order) && Linked(arcs, path)
    requires i < |path| && path[0] in order
    ensures p < |order| && order[p] == path[i]
  {
    if i == 0 {
      p :| 0 <= p < |order| && order[p] == path[0];
    } else {
      var q := Listed(arcs, order, path, i - 1);
      p := StepAdvances(arcs, order, path, i - 1, q);
    }
  }

  /** A graph with a topological order has no reachable cycle. */
  lemma OrderRefutesCycle(arcs: set<Arc>, items: set<Id>)
    requires Orderable(arcs, items)
    ensures !Cyclic(arcs, items)
  {
    if Cyclic(arcs, items) {
      var order :| Topological(arcs, items, order);
      var path, k :| Lasso(arcs, path, k) && path[0] in items;
      var start := path[0];
      assert start in items && start in order;
      var p, q := WalkAdvances(arcs, order, path, k, |path| - 1);
      assert false;
    }
  }
}
