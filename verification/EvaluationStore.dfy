/** Publishing an envelope and maintaining the store, one durable write at a time. */
module EvaluationStore {
  import opened Wrappers
  import opened FiniteSets
  import opened LexOrder
  import opened EvaluationIndex

  datatype Error = StaleCorrection | MissingHead

  /** What survives a crash: the committed index and the envelope files. */
  datatype Disk = Disk(indexed: set<Entry>, envelopes: set<Hash>)

  ghost predicate EveryIndexedOnDisk(d: Disk) {
    forall e :: e in d.indexed ==> e.envelope in d.envelopes
  }

  // ---------- the sorted index ----------

  /** By project, then by retention. */
  predicate IndexBefore(a: Entry, b: Entry) {
    a.project < b.project || (a.project == b.project && Older(a, b))
  }

  predicate Sorted(s: seq<Entry>) {
    forall i, j :: 0 <= i < j < |s| ==> IndexBefore(s[i], s[j])
  }

  lemma IndexBeforeOrders(a: Entry, b: Entry, c: Entry)
    ensures a.envelope != b.envelope ==> IndexBefore(a, b) || IndexBefore(b, a)
    ensures !(IndexBefore(a, b) && IndexBefore(b, a)) && (a == b ==> !IndexBefore(a, b))
    ensures IndexBefore(a, b) && IndexBefore(b, c) ==> IndexBefore(a, c)
  {
    hide Older;
    OlderTotal(a, b);
    if Older(a, b) && Older(b, c) {
      OlderTransitive(a, b, c);
    }
  }

  /** The index lists its projects in order. */
  lemma ProjectsAscend(s: seq<Entry>, i: nat, j: nat)
    requires Sorted(s) && i <= j < |s|
    ensures s[i].project <= s[j].project
  {
  }

  /** Where a new entry goes in the sorted index. */
  function Insert(e: Entry, s: seq<Entry>): (r: seq<Entry>)
    ensures forall x :: x in r <==> x == e || x in s
  {
    if s == [] then [e]
    else if IndexBefore(e, s[0]) then [e] + s
    else [s[0]] + Insert(e, s[1..])
  }

  lemma {:induction false} InsertSorted(e: Entry, s: seq<Entry>)
    requires Sorted(s) && forall x :: x in s ==> x.envelope != e.envelope
    ensures Sorted(Insert(e, s))
  {
    hide IndexBefore;
    if s != [] {
      IndexBeforeOrders(e, s[0], e);
      if IndexBefore(e, s[0]) {
        forall j | 0 <= j < |s| ensures IndexBefore(e, s[j]) {
          if j > 0 {
            IndexBeforeOrders(e, s[0], s[j]);
          }
        }
      } else {
        InsertSorted(e, s[1..]);
        var tail := Insert(e, s[1..]);
        assert s[0] in s;
        forall j | 0 <= j < |tail| ensures IndexBefore(s[0], tail[j]) {
          assert tail[j] in tail;
        }
      }
    }
  }

  function Without(s: seq<Entry>, keep: Entry -> bool): (r: seq<Entry>)
    ensures forall x :: x in r <==> x in s && keep(x)
    ensures |r| <= |s|
  {
    if s == [] then [] else (if keep(s[0]) then [s[0]] else []) + Without(s[1..], keep)
  }

  lemma {:induction false} WithoutSorted(s: seq<Entry>, keep: Entry -> bool)
    requires Sorted(s)
    ensures Sorted(Without(s, keep))
  {
    hide IndexBefore;
    if s != [] {
      WithoutSorted(s[1..], keep);
      var tail := Without(s[1..], keep);
      forall j | 0 <= j < |tail| ensures IndexBefore(s[0], tail[j]) {
        assert tail[j] in tail;
      }
    }
  }

  // ---------- the oldest beyond fifty ----------

  function OfProject(project: Hash): Entry -> bool { (e: Entry) => e.project == project }

  lemma {:induction false} SortedSize(s: seq<Entry>)
    requires Sorted(s)
    ensures |Elements(s)| == |s|
  {
    hide IndexBefore;
    if s != [] {
      SortedSize(s[1..]);
      forall j | 1 <= j < |s| ensures s[j] != s[0] {
        IndexBeforeOrders(s[0], s[j], s[0]);
      }
      assert s[0] !in s[1..];
      assert Elements(s) == Elements(s[1..]) + {s[0]};
    }
  }

  /** In a project's sorted entries the newer ones are those that follow. */
  lemma FollowingAreNewer(s: seq<Entry>, project: Hash, k: nat)
    requires Sorted(s) && k < |Without(s, OfProject(project))|
    ensures var q := Without(s, OfProject(project)); Newer(Elements(s), q[k]) == Elements(q[k + 1..]) && |Newer(Elements(s), q[k])| == |q| - 1 - k
  {
    hide Without, Older, Sorted;
    var q := Without(s, OfProject(project));
    WithoutSorted(s, OfProject(project));
    assert q[k] in q;
    forall x ensures x in Newer(Elements(s), q[k]) <==> x in q[k + 1..] {
      OnlyFollowing(q, k, project, x);
    }
    assert Newer(Elements(s), q[k]) == Elements(q[k + 1..]);
    SuffixSorted(q, k + 1);
    SortedSize(q[k + 1..]);
  }

  lemma SuffixSorted(q: seq<Entry>, k: nat)
    requires Sorted(q) && k <= |q|
    ensures Sorted(q[k..])
  {
    hide IndexBefore;
  }

  lemma OnlyFollowing(q: seq<Entry>, k: nat, project: Hash, x: Entry)
    requires Sorted(q) && k < |q| && forall y :: y in q ==> y.project == project
    ensures x in q[k + 1..] <==> x in q && Older(q[k], x)
  {
    hide Older;
    assert q[k] in q;
    if x in q[k + 1..] {
      var j :| 0 <= j < |q[k + 1..]| && q[k + 1..][j] == x;
      assert IndexBefore(q[k], q[k + 1 + j]);
      assert x in q;
    }
    if x in q && Older(q[k], x) {
      var j :| 0 <= j < |q| && q[j] == x;
      IndexBeforeOrders(q[k], x, x);
      assert j > k;
      assert q[k + 1..][j - k - 1] == x;
    }
  }

  predicate UniqueEnvelopes(s: seq<Entry>) {
    forall x, y :: x in s && y in s && x.envelope == y.envelope ==> x == y
  }

  /** The envelopes of entries older than their project's newest fifty. */
  method RemovedHashes(s: seq<Entry>) returns (removed: set<Hash>)
    requires Sorted(s) && UniqueEnvelopes(s)
    ensures forall e :: e in s ==> (e.envelope in removed <==> e !in Retained(Elements(s)))
    ensures forall h :: h in removed ==> exists e :: e in s && e.envelope == h
  {
    hide Without, Sorted, Newer;
    removed := {};
    var done: set<Hash> := {};
    for i := 0 to |s|
      invariant forall j :: 0 <= j < i ==> s[j].project in done
      invariant forall e :: e in s && e.project in done ==> (e.envelope in removed <==> e !in Retained(Elements(s)))
      invariant forall h :: h in removed ==> exists e :: e in s && e.envelope == h && e.project in done
    {
      if s[i].project !in done {
        var q := Without(s, OfProject(s[i].project));
        var surplus := if |q| > RETAINED then |q| - RETAINED else 0;
        var oldest := set k | 0 <= k < surplus :: q[k].envelope;
        Surplus(s, s[i].project, oldest);
        removed := removed + oldest;
        done := done + {s[i].project};
      }
    }
  }

  lemma Surplus(s: seq<Entry>, project: Hash, oldest: set<Hash>)
    requires Sorted(s) && UniqueEnvelopes(s)
    requires var q := Without(s, OfProject(project)); oldest == set k | 0 <= k < (if |q| > RETAINED then |q| - RETAINED else 0) :: q[k].envelope
    ensures forall e :: e in s && e.project == project ==> (e.envelope in oldest <==> e !in Retained(Elements(s)))
    ensures forall e :: e in s && e.envelope in oldest ==> e.project == project
    ensures forall h :: h in oldest ==> exists e :: e in s && e.envelope == h && e.project == project
  {
    hide Without, Sorted, Newer;
    var q := Without(s, OfProject(project));
    var surplus := if |q| > RETAINED then |q| - RETAINED else 0;
    forall k | 0 <= k < |q| ensures q[k] in s && q[k].project == project && (q[k] !in Retained(Elements(s)) <==> k < surplus) {
      assert q[k] in q;
      FollowingAreNewer(s, project, k);
    }
    forall e | e in s && e.project == project ensures e.envelope in oldest <==> e !in Retained(Elements(s)) {
      assert e in q;
      var k :| 0 <= k < |q| && q[k] == e;
    }
  }

  // ---------- the store ----------

  class Store {
    var entries: seq<Entry>
    var envelopes: set<Hash>
    /** An envelope's hash determines its entry. */
    ghost const entryOf: Hash -> Entry
    ghost var published: set<Entry>
    ghost var corrected: bool
    ghost var history: seq<Disk>

    constructor (ghost entryOf: Hash -> Entry)
      ensures this.entryOf == entryOf
      ensures Valid() && entries == [] && published == {} && !corrected
    {
      this.entryOf := entryOf;
      entries, envelopes := [], {};
      published, corrected, history := {}, false, [Disk({}, {})];
    }

    ghost function Now(): Disk
      reads this
    {
      Disk(Elements(entries), envelopes)
    }

    /** The index is sorted, has one entry per cutoff, is retained, and all its envelopes are on disk, as at every crash point before. */
    ghost predicate Valid()
      reads this
    {
      && Sorted(entries)
      && (forall x, y :: x in entries && y in entries && x.cutoff == y.cutoff ==> x == y)
      && (forall x :: x in entries ==> entryOf(x.envelope) == x)
      && (!corrected ==> Elements(entries) == Retained(published))
      && history != [] && history[|history| - 1] == Now()
      && (forall i :: 0 <= i < |history| ==> EveryIndexedOnDisk(history[i]))
    }

    method WriteEnvelope(h: Hash)
      requires Valid()
      modifies this`envelopes, this`history
      ensures Valid() && envelopes == old(envelopes) + {h} && history == old(history) + [Now()]
    {
      hide Sorted, Retained;
      envelopes := envelopes + {h};
      history := history + [Now()];
    }

    /** Removing a file that no entry of the index names; the removal may fail. */
    method RemoveEnvelope(h: Hash, fails: bool) returns (removed: bool)
      requires Valid() && forall x :: x in entries ==> x.envelope != h
      modifies this`envelopes, this`history
      ensures Valid() && envelopes == (if fails then old(envelopes) else old(envelopes) - {h})
      ensures old(history) <= history && removed == (!fails && h in old(envelopes))
    {
      hide Sorted, Retained;
      removed := !fails && h in envelopes;
      if removed {
        envelopes := envelopes - {h};
        history := history + [Now()];
      }
    }

    /** The entry of the same cutoff, if there is one. */
    method Existing(cutoff: Hash) returns (e: Option<Entry>)
      ensures e.None? ==> forall x :: x in entries ==> x.cutoff != cutoff
      ensures e.Some? ==> e.value in entries && e.value.cutoff == cutoff
    {
      for i := 0 to |entries|
        invariant forall j :: 0 <= j < i ==> entries[j].cutoff != cutoff
      {
        if entries[i].cutoff == cutoff {
          return Some(entries[i]);
        }
      }
      return None;
    }

    /** The index with one more entry, less what is not retained; and the removed hashes. */
    method Next(e: Entry) returns (next: seq<Entry>, removed: set<Hash>)
      requires Valid() && entryOf(e.envelope) == e && forall x :: x in entries && x.cutoff == e.cutoff ==> x.envelope != e.envelope
      ensures Sorted(next)
      ensures Elements(next) == Retained((set x | x in entries && x.cutoff != e.cutoff) + {e})
      ensures removed == set x | x in (set y | y in entries && y.cutoff != e.cutoff) + {e} && x !in next :: x.envelope
    {
      hide Retained, Without, Insert, IndexBefore;
      var others := Without(entries, (x: Entry) => x.cutoff != e.cutoff);
      WithoutSorted(entries, (x: Entry) => x.cutoff != e.cutoff);
      forall x | x in others ensures x.envelope != e.envelope {
        assert entryOf(x.envelope) == x;
      }
      var all := Insert(e, others);
      InsertSorted(e, others);
      ghost var goal := (set x | x in entries && x.cutoff != e.cutoff) + {e};
      assert Elements(all) == goal;
      hide Sorted;
      removed := RemovedHashes(all);
      next := Without(all, (x: Entry) => x.envelope !in removed);
      WithoutSorted(all, (x: Entry) => x.envelope !in removed);
      RetainedWithin(goal);
      assert Elements(next) == Retained(goal);
    }

    lemma RetainedWithin(all: set<Entry>)
      ensures Retained(all) <= all
    {
    }

    /** The index commit. */
    method WriteIndex(next: seq<Entry>, ghost e: Entry, ghost correction: bool)
      requires Valid() && Sorted(next) && e.envelope in envelopes && entryOf(e.envelope) == e
      requires Elements(next) == Retained((set x | x in entries && x.cutoff != e.cutoff) + {e})
      requires correction <==> exists x :: x in entries && x.cutoff == e.cutoff
      modifies this`entries, this`published, this`corrected, this`history
      ensures Valid() && entries == next && published == old(published) + {e} && corrected == (old(corrected) || correction)
      ensures old(history) <= history
    {
      hide Retained, Sorted;
      ghost var all := (set x | x in entries && x.cutoff != e.cutoff) + {e};
      RetainedWithin(all);
      forall x | x in next ensures x in all {
        assert x in Elements(next);
      }
      if !correction {
        assert all == Elements(entries) + {e};
      }
      ghost var was := published;
      if !correction && !corrected {
        RetainedAbsorbs(was, e);
      }
      assert history[|history| - 1] == Now();
      entries := next;
      published := published + {e};
      corrected := corrected || correction;
      history := history + [Now()];
    }

    /** Writes the envelope, then the index that names it, then removes what the index no longer names. */
    method PublishNew(e: Entry, existing: Option<Entry>, undeletable: set<Hash>) returns (pruned: nat)
      requires Valid() && entryOf(e.envelope) == e && e !in entries
      requires existing.None? ==> forall x :: x in entries ==> x.cutoff != e.cutoff
      requires existing.Some? ==> existing.value in entries && existing.value.cutoff == e.cutoff && existing.value.envelope != e.envelope
      modifies this
      ensures Valid() && old(history) <= history
      ensures Elements(entries) == Retained((set x | x in old(entries) && x.cutoff != e.cutoff) + {e})
      ensures published == old(published) + {e} && corrected == (old(corrected) || existing.Some?)
      ensures envelopes == (old(envelopes) + {e.envelope}) - ((set x | x in old(Elements(entries)) + {e} && x !in entries :: x.envelope) - undeletable)
      ensures pruned == |old(envelopes) + {e.envelope}| - |envelopes|
    {
      hide Retained, Sorted;
      var next, removed := Next(e);
      WriteEnvelope(e.envelope);
      WriteIndex(next, e, existing.Some?);
      var obsolete := removed + (if existing.Some? then {existing.value.envelope} else {});
      pruned := Prune(obsolete, undeletable);
    }

    /**
     * The envelope is written before the index that names it is committed, and only hashes that the
     * new index does not name are removed after. A crash leaves one of the recorded disks, and in
     * each of them every indexed envelope is there.
     */
    method PublishEnvelope(e: Entry, expectedPrior: Option<Hash>, supersedes: Option<Hash>, undeletable: set<Hash>) returns (r: Result<nat, Error>)
      requires Valid() && entryOf(e.envelope) == e
      modifies this
      ensures Valid() && old(history) <= history
      ensures r.Failure? <==> e !in old(entries) && (if exists x :: x in old(entries) && x.cutoff == e.cutoff
                then !exists x :: x in old(entries) && x.cutoff == e.cutoff && expectedPrior == Some(x.envelope) && supersedes == Some(x.envelope)
                else expectedPrior != None || supersedes != None)
      ensures r.Failure? ==> Now() == old(Now()) && history == old(history)
      ensures r.Failure? ==> r.error == if exists x :: x in old(entries) && x.cutoff == e.cutoff then StaleCorrection else MissingHead
      ensures e in old(entries) ==> r == Success(0) && entries == old(entries) && envelopes == old(envelopes) + {e.envelope}
      ensures r.Success? && e !in old(entries) ==> r.value == |old(envelopes) + {e.envelope}| - |envelopes|
      ensures r.Success? && e !in old(entries) ==>
                && Elements(entries) == Retained((set x | x in old(entries) && x.cutoff != e.cutoff) + {e})
                && published == old(published) + {e}
                && corrected == (old(corrected) || exists x :: x in old(entries) && x.cutoff == e.cutoff)
                && envelopes == (old(envelopes) + {e.envelope}) - ((set x | x in old(Elements(entries)) + {e} && x !in entries :: x.envelope) - undeletable)
    {
      hide Retained, Sorted;
      var existing := Existing(e.cutoff);
      if existing.Some? && existing.value.envelope == e.envelope {
        WriteEnvelope(e.envelope);
        return Success(0);
      }
      if existing.Some? {
        if expectedPrior != Some(existing.value.envelope) || supersedes != Some(existing.value.envelope) {
          return Failure(StaleCorrection);
        }
      } else if expectedPrior != None || supersedes != None {
        return Failure(MissingHead);
      }
      var pruned := PublishNew(e, existing, undeletable);
      r := Success(pruned);
    }

    /** Removes the files of the given hashes that the index does not name. */
    method Prune(hashes: set<Hash>, undeletable: set<Hash>) returns (pruned: nat)
      requires Valid()
      modifies this`envelopes, this`history
      ensures Valid() && old(history) <= history
      ensures envelopes == set h | h in old(envelopes) && (h !in hashes || h in undeletable || exists x :: x in entries && x.envelope == h)
      ensures pruned == |old(envelopes)| - |envelopes|
    {
      hide Sorted, Retained;
      pruned := 0;
      var left := hashes;
      while left != {}
        invariant Valid() && old(history) <= history && left <= hashes
        invariant pruned == |old(envelopes)| - |envelopes|
        invariant envelopes == set h | h in old(envelopes) && (h !in hashes - left || h in undeletable || exists x :: x in entries && x.envelope == h)
        decreases |left|
      {
        var h :| h in left;
        left := left - {h};
        if !exists x :: x in entries && x.envelope == h {
          var removed := RemoveEnvelope(h, h in undeletable);
          pruned := pruned + (if removed then 1 else 0);
        }
      }
    }

    /** Removes every envelope file that the index does not name, best effort. */
    method Maintain(undeletable: set<Hash>) returns (pruned: nat)
      requires Valid()
      modifies this`envelopes, this`history
      ensures Valid() && old(history) <= history
      ensures envelopes == set h | h in old(envelopes) && (h in undeletable || exists x :: x in entries && x.envelope == h)
      ensures pruned == |old(envelopes)| - |envelopes|
    {
      pruned := Prune(envelopes, undeletable);
    }
  }
}
