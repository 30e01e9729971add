/** The evaluation index: which envelopes of a project are retained, and how one more is published. */
module EvaluationIndex {
  import opened FiniteSets
  import opened LexOrder

  type Hash = nat
  const RETAINED := 50

  /** An index entry; its cutoff is a point of time in nanoseconds. */
  datatype Entry = Entry(project: Hash, cutoffAt: int, sourceRevision: nat, run: Hash, nonce: Hash, cutoff: Hash, envelope: Hash)

  function RetentionKey(e: Entry): (k: seq<int>)
    ensures |k| == 6
  {
    [e.cutoffAt, e.sourceRevision, e.run, e.nonce, e.cutoff, e.envelope]
  }

  function CompareRetention(a: Entry, b: Entry): int {
    CompareKeys(RetentionKey(a), RetentionKey(b))
  }

  predicate Older(a: Entry, b: Entry) {
    CompareRetention(a, b) < 0
  }

  /** Any two entries of different envelopes are ranked one way, and only one. */
  lemma OlderTotal(a: Entry, b: Entry)
    ensures !(Older(a, b) && Older(b, a))
    ensures a.envelope != b.envelope ==> Older(a, b) || Older(b, a)
    ensures a == b ==> !Older(a, b)
  {
    KeysAntisymmetric(RetentionKey(a), RetentionKey(b));
    assert RetentionKey(a)[5] == a.envelope && RetentionKey(b)[5] == b.envelope;
    hide CompareKeys;
  }

  lemma OlderTransitive(a: Entry, b: Entry, c: Entry)
    requires Older(a, b) && Older(b, c)
    ensures Older(a, c)
  {
    hide CompareKeys;
    KeysTransitive(RetentionKey(a), RetentionKey(b), RetentionKey(c));
  }

  // ---------- retention on sets ----------

  ghost function Newer(all: set<Entry>, e: Entry): set<Entry> {
    set x | x in all && x.project == e.project && Older(e, x)
  }

  /** The newest fifty of each project. */
  ghost function Retained(all: set<Entry>): set<Entry> {
    set e | e in all && |Newer(all, e)| < RETAINED
  }

  lemma NewerGrows(a: set<Entry>, b: set<Entry>, e: Entry)
    requires a <= b
    ensures Newer(a, e) <= Newer(b, e) && |Newer(a, e)| <= |Newer(b, e)|
  {
    hide Older;
    assert Newer(a, e) <= Newer(b, e);
    SubsetSize(Newer(a, e), Newer(b, e));
  }

  lemma NewerNests(all: set<Entry>, e: Entry, y: Entry)
    requires y in Newer(all, e)
    ensures Newer(all, y) <= Newer(all, e) && |Newer(all, y)| < |Newer(all, e)|
  {
    hide Older;
    forall z | z in Newer(all, y) ensures z in Newer(all, e) {
      OlderTransitive(e, y, z);
    }
    OlderTotal(y, y);
    assert y !in Newer(all, y);
    SubsetSize(Newer(all, y), Newer(all, e) - {y});
  }

  /** With fifty newer entries there are fifty newer retained ones. */
  lemma {:induction false} NewerRetained(all: set<Entry>, e: Entry)
    requires |Newer(all, e)| >= RETAINED
    ensures |Newer(Retained(all), e)| >= RETAINED
    decreases |Newer(all, e)|
  {
    hide Older;
    if y :| y in Newer(all, e) && y !in Retained(all) {
      NewerNests(all, e, y);
      NewerRetained(all, y);
      NewerOfNewer(Retained(all), e, y);
    } else {
      assert Newer(Retained(all), e) == Newer(all, e);
    }
  }

  lemma NewerOfNewer(all: set<Entry>, e: Entry, y: Entry)
    requires Older(e, y) && y.project == e.project
    ensures |Newer(all, y)| <= |Newer(all, e)|
  {
    hide Older;
    forall z | z in Newer(all, y) ensures z in Newer(all, e) {
      OlderTransitive(e, y, z);
    }
    SubsetSize(Newer(all, y), Newer(all, e));
  }

  lemma FewNewerAreRetained(all: set<Entry>, e: Entry)
    requires |Newer(all, e)| < RETAINED
    ensures Newer(Retained(all), e) == Newer(all, e)
  {
    hide Older;
    forall y | y in Newer(all, e) ensures y in Retained(all) {
      NewerNests(all, e, y);
    }
  }

  /** Dropping what is not retained before one more is published loses nothing. */
  lemma RetainedAbsorbs(all: set<Entry>, e: Entry)
    ensures Retained(Retained(all) + {e}) == Retained(all + {e})
  {
    hide Older;
    forall x ensures x in Retained(Retained(all) + {e}) <==> x in Retained(all + {e}) {
      if x in all + {e} {
        RetainedAlike(all, e, x);
      }
    }
  }

  lemma RetainedAlike(all: set<Entry>, e: Entry, x: Entry)
    requires x in all + {e}
    ensures x in Retained(Retained(all) + {e}) <==> x in Retained(all + {e})
  {
    hide Newer;
    NewerGrows(Retained(all) + {e}, all + {e}, x);
    NewerGrows(all, all + {e}, x);
    if |Newer(all, x)| >= RETAINED {
      NewerRetained(all, x);
      NewerGrows(Retained(all), Retained(all) + {e}, x);
    } else {
      FewNewerAreRetained(all, x);
      NewerWith(all, e, x);
      NewerWith(Retained(all), e, x);
    }
  }

  lemma NewerWith(all: set<Entry>, e: Entry, x: Entry)
    ensures Newer(all + {e}, x) == Newer(all, x) + (if x.project == e.project && Older(x, e) then {e} else {})
  {
    hide Older;
  }

  lemma KeyStep(x: seq<int>, y: seq<int>, i: nat)
    requires i < |x| == |y|
    ensures CompareKeys(x[i..], y[i..]) == OrElse(x[i] - y[i], CompareKeys(x[i + 1..], y[i + 1..]))
  {
    assert x[i..][1..] == x[i + 1..] && y[i..][1..] == y[i + 1..];
  }

  predicate SameMoment(a: Entry, b: Entry) {
    a.cutoffAt == b.cutoffAt && a.sourceRevision == b.sourceRevision
  }

  /** Each criterion in its order: the cutoff, the revision of the source, the run, its nonce, the cutoff's hash, the envelope. */
  lemma LaterIsNewer(a: Entry, b: Entry)
    ensures a.cutoffAt < b.cutoffAt ==> Older(a, b)
    ensures a.cutoffAt == b.cutoffAt && a.sourceRevision < b.sourceRevision ==> Older(a, b)
    ensures SameMoment(a, b) && a.run < b.run ==> Older(a, b)
    ensures SameMoment(a, b) && a.run == b.run && a.nonce < b.nonce ==> Older(a, b)
    ensures SameMoment(a, b) && a.run == b.run && a.nonce == b.nonce && a.cutoff < b.cutoff ==> Older(a, b)
    ensures SameMoment(a, b) && a.run == b.run && a.nonce == b.nonce && a.cutoff == b.cutoff && a.envelope < b.envelope ==> Older(a, b)
  {
    var x, y := RetentionKey(a), RetentionKey(b);
    KeyStep(x, y, 0);
    KeyStep(x, y, 1);
    KeyStep(x, y, 2);
    KeyStep(x, y, 3);
    KeyStep(x, y, 4);
    KeyStep(x, y, 5);
    assert x[0..] == x && y[0..] == y;
    hide CompareKeys;
  }

  /** An earlier entry of a project is never kept in place of a later one. */
  lemma LaterIsKept(all: set<Entry>, earlier: Entry, later: Entry)
    requires earlier in Retained(all) && later in all && earlier.project == later.project && earlier.cutoffAt < later.cutoffAt
    ensures later in Retained(all)
  {
    LaterIsNewer(earlier, later);
    hide Older;
    NewerNests(all, earlier, later);
  }

  ghost function OfProject(all: set<Entry>, project: Hash): set<Entry> {
    set e | e in all && e.project == project
  }

  predicate DistinctEnvelopes(all: set<Entry>) {
    forall a, b :: a in all && b in all && a.envelope == b.envelope ==> a == b
  }

  lemma {:induction false} OldestExists(all: set<Entry>) returns (e: Entry)
    requires all != {} && DistinctEnvelopes(all)
    ensures e in all && forall x :: x in all && x != e ==> Older(e, x)
  {
    hide Older;
    e :| e in all;
    var rest := all - {e};
    if rest != {} {
      var m := OldestExists(rest);
      OlderTotal(m, e);
      if Older(m, e) {
        forall x | x in all && x != m ensures Older(m, x) {
          assert x == e || x in rest;
        }
        e := m;
      } else {
        forall x | x in all && x != e ensures Older(e, x) {
          if x != m {
            assert x in rest;
            OlderTransitive(e, m, x);
          }
        }
      }
    } else {
      assert all == {e};
    }
  }

  /** A project keeps all its entries while they are at most fifty, and fifty of them afterwards. */
  lemma {:induction false} FiftyAreKept(all: set<Entry>, project: Hash)
    requires DistinctEnvelopes(all)
    ensures |OfProject(Retained(all), project)| == if |OfProject(all, project)| <= 50 then |OfProject(all, project)| else 50
    decreases |all|
  {
    hide Older;
    var mine := OfProject(all, project);
    if mine == {} {
      assert OfProject(Retained(all), project) == {};
    } else {
      var oldest := OldestExists(mine);
      forall x ensures x in Newer(all, oldest) <==> x in mine && x != oldest {
        OlderTotal(oldest, oldest);
      }
      assert Newer(all, oldest) == mine - {oldest};
      var rest := all - {oldest};
      FiftyAreKept(rest, project);
      assert OfProject(rest, project) == mine - {oldest};
      WithoutOldest(all, project, oldest);
    }
  }

  lemma WithoutOldest(all: set<Entry>, project: Hash, oldest: Entry)
    requires oldest in all && oldest.project == project && forall x :: x in all && x.project == project && x != oldest ==> Older(oldest, x)
    ensures OfProject(Retained(all), project) == OfProject(Retained(all - {oldest}), project) + (if |Newer(all, oldest)| < RETAINED then {oldest} else {})
    ensures oldest !in OfProject(Retained(all - {oldest}), project)
  {
    hide Older;
    forall x | x in all && x.project == project && x != oldest ensures Newer(all, x) == Newer(all - {oldest}, x) {
      OlderTotal(oldest, x);
    }
  }

  ghost function Elements(s: seq<Entry>): set<Entry> {
    set e | e in s
  }

  /** The index after first-time publications, one after another. */
  ghost function PublishAll(s: seq<Entry>): set<Entry> {
    if s == [] then {} else Retained(PublishAll(s[..|s| - 1]) + {s[|s| - 1]})
  }

  /** Whatever the order of publication, the index holds each project's newest fifty of everything published. */
  lemma {:induction false} PublishAllRetains(s: seq<Entry>)
    ensures PublishAll(s) == Retained(Elements(s))
  {
    if s == [] {
      assert Retained(Elements(s)) == {};
    } else {
      var init := s[..|s| - 1];
      PublishAllRetains(init);
      RetainedAbsorbs(Elements(init), s[|s| - 1]);
      assert Elements(init) + {s[|s| - 1]} == Elements(s) by {
        assert s == init + [s[|s| - 1]];
      }
    }
  }
}
