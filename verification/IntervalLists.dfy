/** Facts about filtering, sorting and totalling open intervals. */
module IntervalLists {
  import opened FiniteSets
  import opened Wrappers
  import opened CreditModel
  import opened Accumulator

  predicate UniqueHashes(s: seq<OpenInterval>) {
    forall i, j :: 0 <= i < j < |s| ==> s[i].hash != s[j].hash
  }

  lemma {:induction false} TotalAppend(a: seq<OpenInterval>, b: seq<OpenInterval>, f: OpenInterval -> int)
    ensures Total(a + b, f) == Total(a, f) + Total(b, f)
  {
    if a == [] {
      assert a + b == b;
    } else {
      assert (a + b)[1..] == a[1..] + b;
      TotalAppend(a[1..], b, f);
    }
  }

  lemma {:induction false} TotalInsert(x: OpenInterval, s: seq<OpenInterval>, f: OpenInterval -> int)
    ensures Total(InsertByHash(x, s), f) == f(x) + Total(s, f)
  {
    var r := InsertByHash(x, s);
    if s == [] || x.hash <= s[0].hash {
      assert r[1..] == s;
    } else {
      assert r[1..] == InsertByHash(x, s[1..]);
      TotalInsert(x, s[1..], f);
    }
  }

  lemma {:induction false} TotalSort(s: seq<OpenInterval>, f: OpenInterval -> int)
    ensures Total(SortByHash(s), f) == Total(s, f)
  {
    if s != [] {
      TotalSort(s[1..], f);
      TotalInsert(s[0], SortByHash(s[1..]), f);
    }
  }

  /** A filter and its complement split every total. */
  lemma {:induction false} TotalSplit(s: seq<OpenInterval>, p: OpenInterval -> bool, q: OpenInterval -> bool, f: OpenInterval -> int)
    requires forall x :: x in s ==> p(x) != q(x)
    ensures Total(s, f) == Total(Filter(s, p), f) + Total(Filter(s, q), f)
  {
    if s != [] {
      TotalSplit(s[1..], p, q, f);
      TotalAppend(if p(s[0]) then [s[0]] else [], Filter(s[1..], p), f);
      TotalAppend(if q(s[0]) then [s[0]] else [], Filter(s[1..], q), f);
      TotalOne(s[0], f);
    }
  }

  lemma TotalOne(x: OpenInterval, f: OpenInterval -> int)
    ensures Total([x], f) == f(x)
  {
    assert [x][1..] == [];
  }

  lemma {:induction false} TotalSame(s: seq<OpenInterval>, f: OpenInterval -> int, g: OpenInterval -> int)
    requires forall x :: x in s ==> f(x) == g(x)
    ensures Total(s, f) == Total(s, g)
  {
    if s != [] {
      TotalSame(s[1..], f, g);
    }
  }

  lemma {:induction false} TotalZero(s: seq<OpenInterval>, f: OpenInterval -> int)
    requires forall x :: x in s ==> f(x) == 0
    ensures Total(s, f) == 0
  {
    if s != [] {
      TotalZero(s[1..], f);
    }
  }

  lemma {:induction false} TotalShift(s: seq<OpenInterval>, f: OpenInterval -> int, g: OpenInterval -> int, h: OpenInterval -> int, c: int)
    requires forall x :: x in s ==> f(x) == g(x) + c * h(x)
    ensures Total(s, f) == Total(s, g) + c * Total(s, h)
  {
    if s != [] {
      TotalShift(s[1..], f, g, h, c);
    }
  }

  lemma {:induction false} TotalOnes(s: seq<OpenInterval>, f: OpenInterval -> int)
    requires forall x :: x in s ==> f(x) == 1
    ensures Total(s, f) == |s|
  {
    if s != [] {
      TotalOnes(s[1..], f);
    }
  }

  lemma {:induction false} TotalAtMost(s: seq<OpenInterval>, f: OpenInterval -> int, g: OpenInterval -> int)
    requires forall x :: x in s ==> 0 <= f(x) <= g(x)
    ensures 0 <= Total(s, f) <= Total(s, g)
  {
    if s != [] {
      TotalAtMost(s[1..], f, g);
    }
  }

  lemma {:induction false} FilterAppend(a: seq<OpenInterval>, b: seq<OpenInterval>, p: OpenInterval -> bool)
    ensures Filter(a + b, p) == Filter(a, p) + Filter(b, p)
  {
    if a == [] {
      assert a + b == b;
    } else {
      assert (a + b)[1..] == a[1..] + b;
      FilterAppend(a[1..], b, p);
    }
  }

  lemma {:induction false} FilterUnique(s: seq<OpenInterval>, p: OpenInterval -> bool)
    requires UniqueHashes(s)
    ensures UniqueHashes(Filter(s, p))
  {
    if s != [] {
      FilterUnique(s[1..], p);
      var rest := Filter(s[1..], p);
      forall j | 0 <= j < |rest| ensures rest[j].hash != s[0].hash {
        assert rest[j] in s[1..];
      }
    }
  }

  lemma {:induction false} InsertSorted(x: OpenInterval, s: seq<OpenInterval>)
    requires SortedByHash(s) && !HasHash(s, x.hash)
    ensures SortedByHash(InsertByHash(x, s))
  {
    if s != [] && !(x.hash <= s[0].hash) {
      assert !HasHash(s[1..], x.hash);
      InsertSorted(x, s[1..]);
      var r := InsertByHash(x, s[1..]);
      forall j | 0 <= j < |r| ensures s[0].hash < r[j].hash {
        assert r[j] in r;
        if r[j] != x {
          assert r[j] in s[1..];
        }
      }
    }
  }

  lemma {:induction false} SortSorted(s: seq<OpenInterval>)
    requires UniqueHashes(s)
    ensures SortedByHash(SortByHash(s))
  {
    if s != [] {
      SortSorted(s[1..]);
      var rest := SortByHash(s[1..]);
      forall i | 0 <= i < |rest| ensures rest[i].hash != s[0].hash {
        assert rest[i] in s[1..];
      }
      InsertSorted(s[0], rest);
    }
  }

  ghost function Hashes(s: seq<OpenInterval>): set<Hash> {
    set i | 0 <= i < |s| :: s[i].hash
  }

  lemma {:induction false} UniqueSize(s: seq<OpenInterval>)
    requires UniqueHashes(s)
    ensures |Hashes(s)| == |s|
  {
    if s == [] {
      assert Hashes(s) == {};
    } else {
      UniqueSize(s[1..]);
      assert forall i :: 0 < i < |s| ==> s[i] == s[1..][i - 1];
      assert Hashes(s) == {s[0].hash} + Hashes(s[1..]);
    }
  }

  ghost function Elements(s: seq<Hash>): set<Hash> {
    set h | h in s
  }

  lemma {:induction false} ElementsSize(s: seq<Hash>)
    ensures |Elements(s)| <= |s|
  {
    if s == [] {
      assert Elements(s) == {};
    } else {
      ElementsSize(s[1..]);
      assert Elements(s) == {s[0]} + Elements(s[1..]);
    }
  }

  /** Uniquely hashed intervals drawn from a list of hashes are no more than the list. */
  lemma UniqueWithin(s: seq<OpenInterval>, hashes: seq<Hash>)
    requires UniqueHashes(s)
    requires forall x :: x in s ==> x.hash in hashes
    ensures |s| <= |hashes|
  {
    UniqueSize(s);
    ElementsSize(hashes);
    SubsetSize(Hashes(s), Elements(hashes));
  }

  lemma UniqueAppend(a: seq<OpenInterval>, b: seq<OpenInterval>)
    requires UniqueHashes(a) && UniqueHashes(b)
    requires forall y :: y in b ==> !HasHash(a, y.hash)
    ensures UniqueHashes(a + b)
  {
    var s := a + b;
    forall i, j | 0 <= i < j < |s| ensures s[i].hash != s[j].hash {
      if i < |a| && |a| <= j {
        assert s[j] in b;
      }
    }
  }
}
