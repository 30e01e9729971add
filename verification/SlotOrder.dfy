/** Scheduler slots and the comparator that ranks them, proved to be a strict total order. */
module SlotOrder {
  import opened LexOrder
  import opened Wrappers

  /** Identifiers compare by collation; an identifier is modelled by its rank in that order. */
  type Id = int

  datatype Slot = Slot(
    slotId: Id,
    workItemId: Id,
    repositoryId: Id,
    stage: nat,
    generation: nat,
    mutexes: set<Id>,
    resources: map<Id, nat>,
    operational: map<Id, nat>,
    fairnessReserved: bool,
    launchClass: nat,
    criticalHeight: nat,
    phaseProgress: nat,
    bypassCount: nat,
    trainPosition: Option<nat>)

  const MAX_SAFE_INTEGER: int := 9007199254740991

  function Flag(b: bool): int { if b then 1 else 0 }

  function Train(s: Slot): int { if s.trainPosition.Some? then s.trainPosition.value else MAX_SAFE_INTEGER }

  /** Negative when left ranks before right: the first criterion that differs decides. */
  function CompareSlots(left: Slot, right: Slot): int {
    OrElse(Flag(right.fairnessReserved) - Flag(left.fairnessReserved),
    OrElse(left.launchClass - right.launchClass,
    OrElse(right.criticalHeight - left.criticalHeight,
    OrElse(right.phaseProgress - left.phaseProgress,
    OrElse(right.bypassCount - left.bypassCount,
    OrElse(Train(left) - Train(right),
    OrElse(left.repositoryId - right.repositoryId,
    OrElse(left.workItemId - right.workItemId,
    OrElse(left.generation - right.generation,
           left.slotId - right.slotId)))))))))
  }

  predicate Before(a: Slot, b: Slot) {
    CompareSlots(a, b) < 0
  }

  // ---------- the comparator is a strict total order ----------

  function Key(s: Slot): seq<int> {
    [-Flag(s.fairnessReserved), s.launchClass, -(s.criticalHeight as int), -(s.phaseProgress as int), -(s.bypassCount as int),
     Train(s), s.repositoryId, s.workItemId, s.generation, s.slotId]
  }

  /** The comparator compares the keys lexicographically. */
  lemma CompareIsLexicographic(a: Slot, b: Slot)
    ensures CompareSlots(a, b) == CompareKeys(Key(a), Key(b))
  {
    var low := CompareLow(a, b);
    CompareHigh(a, b, low);
    hide OrElse, CompareKeys;
    assert Key(a) == [-Flag(a.fairnessReserved), a.launchClass, -(a.criticalHeight as int), -(a.phaseProgress as int), -(a.bypassCount as int)] + LowKey(a);
    assert Key(b) == [-Flag(b.fairnessReserved), b.launchClass, -(b.criticalHeight as int), -(b.phaseProgress as int), -(b.bypassCount as int)] + LowKey(b);
  }

  function LowKey(s: Slot): (r: seq<int>)
    ensures |r| == 5
  {
    [Train(s), s.repositoryId, s.workItemId, s.generation, s.slotId]
  }

  /** The last five criteria. */
  lemma CompareLow(a: Slot, b: Slot) returns (low: int)
    ensures low == CompareKeys(LowKey(a), LowKey(b))
    ensures low == OrElse(Train(a) - Train(b), OrElse(a.repositoryId - b.repositoryId, OrElse(a.workItemId - b.workItemId, OrElse(a.generation - b.generation, a.slotId - b.slotId))))
  {
    low := CompareKeys(LowKey(a), LowKey(b));
    CompareFive(Train(a), a.repositoryId, a.workItemId, a.generation, a.slotId, [], Train(b), b.repositoryId, b.workItemId, b.generation, b.slotId, []);
    assert LowKey(a) + [] == LowKey(a) && LowKey(b) + [] == LowKey(b);
  }

  lemma CompareHigh(a: Slot, b: Slot, low: int)
    requires low == CompareKeys(LowKey(a), LowKey(b))
    ensures CompareKeys([-Flag(a.fairnessReserved), a.launchClass, -(a.criticalHeight as int), -(a.phaseProgress as int), -(a.bypassCount as int)] + LowKey(a),
                        [-Flag(b.fairnessReserved), b.launchClass, -(b.criticalHeight as int), -(b.phaseProgress as int), -(b.bypassCount as int)] + LowKey(b))
         == OrElse(Flag(b.fairnessReserved) - Flag(a.fairnessReserved), OrElse(a.launchClass - b.launchClass,
            OrElse(b.criticalHeight - a.criticalHeight, OrElse(b.phaseProgress - a.phaseProgress, OrElse(b.bypassCount - a.bypassCount, low)))))
  {
    hide OrElse, CompareKeys, LowKey;
    CompareFive(-Flag(a.fairnessReserved), a.launchClass, -(a.criticalHeight as int), -(a.phaseProgress as int), -(a.bypassCount as int), LowKey(a),
                -Flag(b.fairnessReserved), b.launchClass, -(b.criticalHeight as int), -(b.phaseProgress as int), -(b.bypassCount as int), LowKey(b));
  }

  lemma CompareFive(v: int, w: int, x: int, y: int, z: int, s: seq<int>, v': int, w': int, x': int, y': int, z': int, s': seq<int>)
    requires |s| == |s'|
    ensures CompareKeys([v, w, x, y, z] + s, [v', w', x', y', z'] + s')
         == OrElse(v - v', OrElse(w - w', OrElse(x - x', OrElse(y - y', OrElse(z - z', CompareKeys(s, s'))))))
  {
    hide OrElse, CompareKeys;
    CompareHead(z, s, z', s');
    CompareHead(y, [z] + s, y', [z'] + s');
    CompareHead(x, [y] + ([z] + s), x', [y'] + ([z'] + s'));
    CompareHead(w, [x] + ([y] + ([z] + s)), w', [x'] + ([y'] + ([z'] + s')));
    CompareHead(v, [w] + ([x] + ([y] + ([z] + s))), v', [w'] + ([x'] + ([y'] + ([z'] + s'))));
    assert [v, w, x, y, z] + s == [v] + ([w] + ([x] + ([y] + ([z] + s))));
    assert [v', w', x', y', z'] + s' == [v'] + ([w'] + ([x'] + ([y'] + ([z'] + s'))));
  }

  lemma CompareHead(x: int, a: seq<int>, y: int, b: seq<int>)
    requires |a| == |b|
    ensures CompareKeys([x] + a, [y] + b) == OrElse(x - y, CompareKeys(a, b))
  {
    assert ([x] + a)[1..] == a && ([y] + b)[1..] == b;
  }

  /** Any two slots with different identifiers are ranked one way, and only one. */
  lemma BeforeTotal(a: Slot, b: Slot)
    ensures !(Before(a, b) && Before(b, a))
    ensures a.slotId != b.slotId ==> Before(a, b) || Before(b, a)
  {
    CompareIsLexicographic(a, b);
    CompareIsLexicographic(b, a);
    KeysAntisymmetric(Key(a), Key(b));
    assert Key(a)[9] == a.slotId && Key(b)[9] == b.slotId;
    hide CompareSlots, CompareKeys;
  }

  predicate SameTurn(a: Slot, b: Slot) {
    a.fairnessReserved == b.fairnessReserved && a.launchClass == b.launchClass && a.criticalHeight == b.criticalHeight
  }

  predicate SameRank(a: Slot, b: Slot) {
    SameTurn(a, b) && a.phaseProgress == b.phaseProgress && a.bypassCount == b.bypassCount
  }

  predicate SamePlace(a: Slot, b: Slot) {
    SameRank(a, b) && a.trainPosition == b.trainPosition && a.repositoryId == b.repositoryId
  }

  /** Each criterion in its direction: due waiters, lower class, greater height, later phase, more bypasses, earlier in the train. */
  lemma CriteriaDecide(a: Slot, b: Slot)
    ensures a.fairnessReserved && !b.fairnessReserved ==> Before(a, b)
    ensures a.fairnessReserved == b.fairnessReserved && a.launchClass < b.launchClass ==> Before(a, b)
    ensures a.fairnessReserved == b.fairnessReserved && a.launchClass == b.launchClass && a.criticalHeight > b.criticalHeight ==> Before(a, b)
    ensures SameTurn(a, b) && a.phaseProgress > b.phaseProgress ==> Before(a, b)
    ensures SameTurn(a, b) && a.phaseProgress == b.phaseProgress && a.bypassCount > b.bypassCount ==> Before(a, b)
    ensures SameRank(a, b) && a.trainPosition.Some? && b.trainPosition.Some? && a.trainPosition.value < b.trainPosition.value ==> Before(a, b)
    ensures SameRank(a, b) && a.trainPosition.Some? && b.trainPosition.None? && a.trainPosition.value < MAX_SAFE_INTEGER ==> Before(a, b)
    ensures SameRank(a, b) && a.trainPosition == b.trainPosition && a.repositoryId < b.repositoryId ==> Before(a, b)
    ensures SamePlace(a, b) && a.workItemId < b.workItemId ==> Before(a, b)
    ensures SamePlace(a, b) && a.workItemId == b.workItemId && a.generation < b.generation ==> Before(a, b)
    ensures SamePlace(a, b) && a.workItemId == b.workItemId && a.generation == b.generation && a.slotId < b.slotId ==> Before(a, b)
  {
  }

  lemma BeforeTransitive(a: Slot, b: Slot, c: Slot)
    requires Before(a, b) && Before(b, c)
    ensures Before(a, c)
  {
    hide CompareSlots, CompareKeys;
    CompareIsLexicographic(a, b);
    CompareIsLexicographic(b, c);
    CompareIsLexicographic(a, c);
    KeysTransitive(Key(a), Key(b), Key(c));
  }

  // ---------- the first of a set of slots ----------

  predicate DistinctSet(slots: set<Slot>) {
    forall a, b :: a in slots && b in slots && a.slotId == b.slotId ==> a == b
  }

  predicate IsFirst(m: Slot, slots: set<Slot>) {
    m in slots && forall x :: x in slots && x != m ==> Before(m, x)
  }

  lemma {:induction false} FirstExists(slots: set<Slot>)
    requires slots != {} && DistinctSet(slots)
    ensures exists m :: IsFirst(m, slots)
  {
    hide Before;
    var x :| x in slots;
    var rest := slots - {x};
    if rest == {} {
      assert slots == {x};
      assert IsFirst(x, slots);
    } else {
      FirstExists(rest);
      var m :| IsFirst(m, rest);
      BeforeTotal(x, m);
      if Before(m, x) {
        assert IsFirst(m, slots);
      } else {
        forall y | y in slots && y != x ensures Before(x, y) {
          if y != m {
            assert y in rest;
            BeforeTransitive(x, m, y);
          }
        }
        assert IsFirst(x, slots);
      }
    }
  }

  lemma FirstUnique(m: Slot, n: Slot, slots: set<Slot>)
    requires IsFirst(m, slots) && IsFirst(n, slots)
    ensures m == n
  {
    hide Before;
    BeforeTotal(m, n);
  }

  ghost function First(slots: set<Slot>): (m: Slot)
    requires slots != {} && DistinctSet(slots)
    ensures IsFirst(m, slots)
  {
    FirstExists(slots);
    var m :| IsFirst(m, slots);
    m
  }

  ghost function Members(slots: seq<Slot>): (r: set<Slot>)
    ensures slots != [] ==> r != {}
    ensures forall x :: x in r <==> x in slots
  {
    var r := set s | s in slots;
    assert slots != [] ==> slots[0] in r;
    r
  }

  /** A linear scan for the first slot, as taking the head of the sorted list. */
  method FindFirst(slots: seq<Slot>) returns (m: Slot)
    requires slots != [] && DistinctSet(Members(slots))
    ensures m == First(Members(slots))
  {
    hide Before;
    m := slots[0];
    for i := 1 to |slots|
      invariant m in slots[..i]
      invariant forall x :: x in slots[..i] && x != m ==> Before(m, x)
    {
      assert slots[..i + 1] == slots[..i] + [slots[i]];
      ghost var was := m;
      BeforeTotal(slots[i], m);
      if Before(slots[i], m) {
        m := slots[i];
        forall x | x in slots[..i + 1] && x != m ensures Before(m, x) {
          if x != was {
            BeforeTransitive(m, was, x);
          }
        }
      }
    }
    assert slots[..|slots|] == slots;
    assert IsFirst(m, Members(slots));
    FirstUnique(m, First(Members(slots)), Members(slots));
  }
}
