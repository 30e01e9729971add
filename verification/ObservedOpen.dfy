/**
 * What a fold leaves open is what was observed: one interval for each observed hash, in its class, going on from
 * the prior interval of that hash and class or opened at the observation. What it closes is the rest, each counted once.
 */
module ObservedOpen {
  import opened Wrappers
  import opened CreditModel
  import opened Accumulator
  import opened IntervalLists
  import opened AccumulatorLaws
  import opened TimeConservation

  // ---------- the open lists against the observation ----------

  /** The list has an interval of this hash and class. */
  predicate Lists(s: seq<OpenInterval>, hash: Hash, kind: IntervalClass) {
    exists i :: 0 <= i < |s| && s[i].hash == hash && s[i].kind == kind
  }

  predicate SameOrigin(x: OpenInterval, y: OpenInterval) {
    x.sourceRevision == y.sourceRevision && x.sourceSnapshot == y.sourceSnapshot && x.epoch == y.epoch && x.openedAt == y.openedAt
  }

  predicate OpenedNow(x: OpenInterval, o: Observation) {
    x.sourceRevision == o.revision && x.sourceSnapshot == o.snapshot && x.epoch == o.epoch && x.openedAt == o.tick
  }

  /** Each interval goes on from the prior one of its hash and class, or is opened now when there was none. */
  ghost predicate Continues(next: seq<OpenInterval>, prior: seq<OpenInterval>, o: Observation) {
    && SortedByHash(next)
    && (forall x, y :: x in next && y in prior && y.hash == x.hash && y.kind == x.kind ==> SameOrigin(x, y) && (x.kind == Operation || x.credit == y.credit))
    && (forall x :: x in next && !Lists(prior, x.hash, x.kind) ==> OpenedNow(x, o) && (x.kind == Operation || x.credit == None))
  }

  /** Open is exactly what was observed, each class in its list, and operations with their observed credit. */
  ghost predicate Observed(open: Open, o: Observation) {
    && (forall h, k :: Lists(open.readiness, h, k) <==> k == ReadinessLaneAdmit && h in o.ready)
    && (forall h, k :: Lists(open.active, h, k) <==> (k == ReservedDispatch && h in o.reserved) || (k == Operation && exists i :: 0 <= i < |o.active| && o.active[i].hash == h))
    && (forall h, k :: Lists(open.human, h, k) <==> (k == HumanActive && h in o.human) || (k == AuthorityWait && h in o.authority))
    && (forall h, k :: Lists(open.recovery, h, k) <==> k == Recovery && h in o.recovery)
    && (forall x :: x in open.active && x.kind == Operation ==> ActiveOperation(x.hash, x.credit) in o.active)
  }

  /** The next revision, read on the same supported clock at no earlier tick. */
  predicate Unbroken(a: Accumulator, o: Observation) {
    o.clockSupported && o.epoch == a.source.epoch && a.source.tick <= o.tick && o.revision == a.source.revision + 1
  }

  /** What was open before and still counts: nothing after a break in the clock or the revisions. */
  function CarriedOver(a: Accumulator, o: Observation): Open {
    if Unbroken(a, o) then a.open else NOTHING_OPEN
  }

  ghost predicate Tracks(a: Accumulator, o: Observation, open: Open) {
    var prior := CarriedOver(a, o);
    && Observed(open, o)
    && Continues(open.readiness, prior.readiness, o) && Continues(open.active, prior.active, o)
    && Continues(open.human, prior.human, o) && Continues(open.recovery, prior.recovery, o)
  }

  lemma {:induction false} FreshComplete(hashes: seq<Hash>, kept: seq<OpenInterval>, kindOf: Hash -> IntervalClass, o: Observation, h: Hash)
    requires h in hashes && !HasHash(kept, h)
    ensures OpenAt(h, kindOf(h), o, None) in Fresh(hashes, kept, kindOf, o)
  {
    if h != hashes[0] {
      assert h in hashes[1..];
      FreshComplete(hashes[1..], kept, kindOf, o, h);
    }
  }

  lemma {:induction false} FreshOperationsComplete(active: seq<ActiveOperation>, kept: seq<OpenInterval>, o: Observation, i: nat)
    requires i < |active| && !HasHash(kept, active[i].hash)
    ensures OpenAt(active[i].hash, Operation, o, active[i].credit) in FreshOperations(active, kept, o)
  {
    if i > 0 {
      FreshOperationsComplete(active[1..], kept, o, i - 1);
    }
  }

  lemma {:induction false} CreditAt(active: seq<ActiveOperation>, i: nat)
    requires i < |active| && UniqueList(OperationHashes(active))
    ensures CreditFor(active, active[i].hash) == active[i].credit
  {
    var hashes := OperationHashes(active);
    if i > 0 {
      assert hashes[0] != hashes[i];
      assert OperationHashes(active[1..]) == hashes[1..];
      CreditAt(active[1..], i - 1);
    }
  }

  lemma MemberLists(s: seq<OpenInterval>, x: OpenInterval)
    requires x in s
    ensures Lists(s, x.hash, x.kind)
  {
  }

  lemma SortedUniqueMember(s: seq<OpenInterval>, x: OpenInterval, y: OpenInterval)
    requires SortedByHash(s) && x in s && y in s && x.hash == y.hash
    ensures x == y
  {
  }

  /** The two groups of a reconciled list, by what is known of each. */
  ghost predicate KeptAndFresh(prior: seq<OpenInterval>, hashes: seq<Hash>, kindOf: Hash -> IntervalClass, o: Observation,
                               kept: seq<OpenInterval>, added: seq<OpenInterval>, next: seq<OpenInterval>) {
    && SortedByHash(prior) && SortedByHash(next)
    && (forall x :: x in next <==> x in kept || x in added)
    && (forall x :: x in kept <==> x in prior && x.hash in hashes && x.kind == kindOf(x.hash))
    && (forall x :: x in added ==> x.hash in hashes && !HasHash(kept, x.hash) && x == OpenAt(x.hash, kindOf(x.hash), o, None))
    && (forall h :: h in hashes && !HasHash(kept, h) ==> OpenAt(h, kindOf(h), o, None) in added)
  }

  lemma ReconciledGroups(prior: seq<OpenInterval>, hashes: seq<Hash>, kindOf: Hash -> IntervalClass, o: Observation) returns (kept: seq<OpenInterval>, added: seq<OpenInterval>)
    requires SortedByHash(prior) && UniqueList(hashes)
    ensures KeptAndFresh(prior, hashes, kindOf, o, kept, added, Reconciled(prior, hashes, kindOf, o))
  {
    kept := Filter(prior, Stays(hashes, kindOf));
    added := Fresh(hashes, kept, kindOf, o);
    hide Filter, Fresh, SortByHash, HasHash;
    FilterUnique(prior, Stays(hashes, kindOf));
    FreshFacts(hashes, kept, kindOf, o);
    UniqueAppend(kept, added);
    SortSorted(kept + added);
    forall h | h in hashes && !HasHash(kept, h) ensures OpenAt(h, kindOf(h), o, None) in added {
      FreshComplete(hashes, kept, kindOf, o, h);
    }
  }

  lemma GroupsListed(prior: seq<OpenInterval>, hashes: seq<Hash>, kindOf: Hash -> IntervalClass, o: Observation,
                     kept: seq<OpenInterval>, added: seq<OpenInterval>, next: seq<OpenInterval>)
    requires KeptAndFresh(prior, hashes, kindOf, o, kept, added, next)
    ensures forall h, k :: Lists(next, h, k) <==> h in hashes && k == kindOf(h)
  {
    forall h, k ensures Lists(next, h, k) <==> h in hashes && k == kindOf(h) {
      if h in hashes && k == kindOf(h) {
        if HasHash(kept, h) {
          var i :| 0 <= i < |kept| && kept[i].hash == h;
          assert kept[i] in kept;
          MemberLists(next, kept[i]);
        } else {
          MemberLists(next, OpenAt(h, kindOf(h), o, None));
        }
      }
      if Lists(next, h, k) {
        var i :| 0 <= i < |next| && next[i].hash == h && next[i].kind == k;
        assert next[i] in next;
      }
    }
  }

  lemma GroupsContinue(prior: seq<OpenInterval>, hashes: seq<Hash>, kindOf: Hash -> IntervalClass, o: Observation,
                       kept: seq<OpenInterval>, added: seq<OpenInterval>, next: seq<OpenInterval>)
    requires KeptAndFresh(prior, hashes, kindOf, o, kept, added, next)
    ensures Continues(next, prior, o)
  {
    forall y | y in prior && y.hash in hashes && y.kind == kindOf(y.hash) ensures HasHash(kept, y.hash) {
      assert y in kept;
    }
    forall x, y | x in next && y in prior && y.hash == x.hash && y.kind == x.kind ensures x == y {
      if x in kept {
        SortedUniqueMember(prior, x, y);
      }
    }
    forall x | x in next && !Lists(prior, x.hash, x.kind) ensures x == OpenAt(x.hash, x.kind, o, None) {
      if x in kept {
        MemberLists(prior, x);
      }
    }
  }

  lemma ReconciledObserved(prior: seq<OpenInterval>, hashes: seq<Hash>, kindOf: Hash -> IntervalClass, o: Observation)
    requires SortedByHash(prior) && UniqueList(hashes)
    ensures forall h, k :: Lists(Reconciled(prior, hashes, kindOf, o), h, k) <==> h in hashes && k == kindOf(h)
    ensures Continues(Reconciled(prior, hashes, kindOf, o), prior, o)
  {
    hide *;
    var kept, added := ReconciledGroups(prior, hashes, kindOf, o);
    var next := Reconciled(prior, hashes, kindOf, o);
    GroupsListed(prior, hashes, kindOf, o, kept, added, next);
    GroupsContinue(prior, hashes, kindOf, o, kept, added, next);
  }

  lemma ActiveObserved(prior: seq<OpenInterval>, o: Observation)
    requires SortedByHash(prior) && ValidObservation(o)
    ensures forall h, k :: Lists(ReconciledActive(prior, o), h, k) <==>
              (k == ReservedDispatch && h in o.reserved) || (k == Operation && exists i :: 0 <= i < |o.active| && o.active[i].hash == h)
    ensures forall x :: x in ReconciledActive(prior, o) && x.kind == Operation ==> ActiveOperation(x.hash, x.credit) in o.active
    ensures Continues(ReconciledActive(prior, o), prior, o)
  {
    var kept := Recredit(Filter(prior, StaysActive(o)), o);
    var reserved, operations := Fresh(o.reserved, kept, ReservedKind(), o), FreshOperations(o.active, kept, o);
    var next := ReconciledActive(prior, o);
    hide *;
    ActiveGrouped(prior, o, kept, reserved, operations);
    KeptActive(prior, o, kept);
    ActiveHashesUnique(o);
    ActiveListed(o, kept, reserved, operations, next);
    ActiveContinues(prior, o, kept, reserved, operations, next);
  }

  lemma ActiveGrouped(prior: seq<OpenInterval>, o: Observation, kept: seq<OpenInterval>, reserved: seq<OpenInterval>, operations: seq<OpenInterval>)
    requires SortedByHash(prior) && ValidObservation(o)
    requires kept == Recredit(Filter(prior, StaysActive(o)), o)
    requires reserved == Fresh(o.reserved, kept, ReservedKind(), o) && operations == FreshOperations(o.active, kept, o)
    ensures Groups(o, kept, reserved, operations, ReconciledActive(prior, o))
    ensures SortedByHash(ReconciledActive(prior, o)) && UniqueHashes(kept + reserved + operations)
  {
    hide Filter, Fresh, FreshOperations, Recredit, SortByHash, ValidObservation, OperationHashes, SortedByHash, UniqueHashes;
    ActiveGroupsUnique(prior, o, kept, reserved, operations);
    var all := kept + reserved + operations;
    assert ReconciledActive(prior, o) == SortByHash(all);
    SortSorted(all);
    hide ReconciledActive;
    assert forall x :: x in SortByHash(all) <==> x in kept || x in reserved || x in operations;
  }

  /** The kept part of the active list: the prior reservations and operations still observed, operations recredited. */
  ghost predicate IsKept(prior: seq<OpenInterval>, o: Observation, kept: seq<OpenInterval>) {
    && (forall x :: x in kept ==> exists y :: y in prior && x == (if y.kind == Operation then y.(credit := CreditFor(o.active, y.hash)) else y))
    && (forall y :: y in prior && ((y.kind == ReservedDispatch && y.hash in o.reserved) || (y.kind == Operation && y.hash in OperationHashes(o.active))) ==> HasHash(kept, y.hash))
  }

  lemma KeptActive(prior: seq<OpenInterval>, o: Observation, kept: seq<OpenInterval>)
    requires kept == Recredit(Filter(prior, StaysActive(o)), o)
    ensures IsKept(prior, o, kept)
  {
    var survivors := Filter(prior, StaysActive(o));
    forall x | x in kept ensures exists y :: y in prior && x == (if y.kind == Operation then y.(credit := CreditFor(o.active, y.hash)) else y) {
      var i :| 0 <= i < |kept| && kept[i] == x;
      assert survivors[i] in prior;
    }
    forall y | y in prior && ((y.kind == ReservedDispatch && y.hash in o.reserved) || (y.kind == Operation && y.hash in OperationHashes(o.active))) ensures HasHash(kept, y.hash) {
      assert y in survivors;
      var i :| 0 <= i < |survivors| && survivors[i] == y;
      assert kept[i].hash == y.hash;
    }
  }

  /** The three groups of the active list, by what is known of each. */
  ghost predicate Groups(o: Observation, kept: seq<OpenInterval>, reserved: seq<OpenInterval>, operations: seq<OpenInterval>, next: seq<OpenInterval>) {
    && (forall x :: x in next <==> x in kept || x in reserved || x in operations)
    && (forall x :: x in reserved ==> x.hash in o.reserved && x == OpenAt(x.hash, ReservedDispatch, o, None))
    && (forall x :: x in operations ==> x.hash in OperationHashes(o.active) && x == OpenAt(x.hash, Operation, o, CreditFor(o.active, x.hash)))
    && (forall x :: x in kept ==> (x.kind == ReservedDispatch && x.hash in o.reserved) || (x.kind == Operation && x.hash in OperationHashes(o.active)))
  }

  lemma ActiveListed(o: Observation, kept: seq<OpenInterval>, reserved: seq<OpenInterval>, operations: seq<OpenInterval>, next: seq<OpenInterval>)
    requires Groups(o, kept, reserved, operations, next)
    requires UniqueList(o.reserved + OperationHashes(o.active))
    requires reserved == Fresh(o.reserved, kept, ReservedKind(), o) && operations == FreshOperations(o.active, kept, o)
    ensures forall h, k :: Lists(next, h, k) <==>
              (k == ReservedDispatch && h in o.reserved) || (k == Operation && exists i :: 0 <= i < |o.active| && o.active[i].hash == h)
  {
    var hashes := OperationHashes(o.active);
    hide Fresh, FreshOperations, OperationHashes, UniqueList;
    forall h, k | Lists(next, h, k) ensures (k == ReservedDispatch && h in o.reserved) || (k == Operation && exists i :: 0 <= i < |o.active| && o.active[i].hash == h) {
      var i :| 0 <= i < |next| && next[i].hash == h && next[i].kind == k;
      assert next[i] in next;
      if k == Operation {
        assert h in hashes;
        var j :| 0 <= j < |hashes| && hashes[j] == h;
        assert o.active[j].hash == h;
      }
    }
    forall h | h in o.reserved ensures Lists(next, h, ReservedDispatch) {
      ReservedListed(o, kept, reserved, next, h);
    }
    forall j | 0 <= j < |o.active| ensures Lists(next, o.active[j].hash, Operation) {
      OperationListed(o, kept, operations, next, j);
    }
  }

  lemma ReservedListed(o: Observation, kept: seq<OpenInterval>, reserved: seq<OpenInterval>, next: seq<OpenInterval>, h: Hash)
    requires forall x :: x in kept || x in reserved ==> x in next
    requires forall x :: x in kept ==> (x.kind == ReservedDispatch && x.hash in o.reserved) || (x.kind == Operation && x.hash in OperationHashes(o.active))
    requires UniqueList(o.reserved + OperationHashes(o.active)) && h in o.reserved
    requires reserved == Fresh(o.reserved, kept, ReservedKind(), o)
    ensures Lists(next, h, ReservedDispatch)
  {
    if HasHash(kept, h) {
      var i :| 0 <= i < |kept| && kept[i].hash == h;
      assert kept[i] in kept;
      NotBoth(o.reserved, OperationHashes(o.active), h);
      MemberLists(next, kept[i]);
    } else {
      FreshComplete(o.reserved, kept, ReservedKind(), o, h);
      MemberLists(next, OpenAt(h, ReservedDispatch, o, None));
    }
  }

  lemma OperationListed(o: Observation, kept: seq<OpenInterval>, operations: seq<OpenInterval>, next: seq<OpenInterval>, j: nat)
    requires forall x :: x in kept || x in operations ==> x in next
    requires forall x :: x in kept ==> (x.kind == ReservedDispatch && x.hash in o.reserved) || (x.kind == Operation && x.hash in OperationHashes(o.active))
    requires UniqueList(o.reserved + OperationHashes(o.active)) && j < |o.active|
    requires operations == FreshOperations(o.active, kept, o)
    ensures Lists(next, o.active[j].hash, Operation)
  {
    var h := o.active[j].hash;
    assert OperationHashes(o.active)[j] == h;
    if HasHash(kept, h) {
      var i :| 0 <= i < |kept| && kept[i].hash == h;
      assert kept[i] in kept;
      if h in o.reserved {
        NotBoth(o.reserved, OperationHashes(o.active), h);
      }
      MemberLists(next, kept[i]);
    } else {
      FreshOperationsComplete(o.active, kept, o, j);
      MemberLists(next, OpenAt(h, Operation, o, o.active[j].credit));
    }
  }

  lemma NotBoth(a: seq<Hash>, b: seq<Hash>, h: Hash)
    requires UniqueList(a + b) && h in a
    ensures h !in b
  {
    var i :| 0 <= i < |a| && a[i] == h;
    forall j | 0 <= j < |b| ensures b[j] != h {
      assert (a + b)[i] == h && (a + b)[|a| + j] == b[j];
    }
  }

  lemma ActiveContinues(prior: seq<OpenInterval>, o: Observation, kept: seq<OpenInterval>, reserved: seq<OpenInterval>, operations: seq<OpenInterval>, next: seq<OpenInterval>)
    requires Groups(o, kept, reserved, operations, next) && IsKept(prior, o, kept)
    requires SortedByHash(prior) && SortedByHash(next)
    requires UniqueHashes(kept + reserved + operations)
    requires UniqueList(o.reserved + OperationHashes(o.active))
    ensures Continues(next, prior, o)
    ensures forall x :: x in next && x.kind == Operation ==> ActiveOperation(x.hash, x.credit) in o.active
  {
    forall x | x in next && x.kind == Operation ensures ActiveOperation(x.hash, x.credit) in o.active {
      assert x.hash in OperationHashes(o.active) && x.credit == CreditFor(o.active, x.hash);
      CreditObserved(o, x.hash);
    }
    forall x, y | x in next && y in prior && y.hash == x.hash && y.kind == x.kind ensures SameOrigin(x, y) && (x.kind == Operation || x.credit == y.credit) {
      if x in kept {
        var z :| z in prior && x == (if z.kind == Operation then z.(credit := CreditFor(o.active, z.hash)) else z);
        SortedUniqueMember(prior, y, z);
      } else {
        assert HasHash(kept, y.hash);
        OneGroup(kept, reserved, operations, x);
      }
    }
    forall x | x in next && !Lists(prior, x.hash, x.kind) ensures OpenedNow(x, o) && (x.kind == Operation || x.credit == None) {
      if x in kept {
        var z :| z in prior && x == (if z.kind == Operation then z.(credit := CreditFor(o.active, z.hash)) else z);
        MemberLists(prior, z);
      }
    }
  }

  lemma OneGroup(kept: seq<OpenInterval>, reserved: seq<OpenInterval>, operations: seq<OpenInterval>, x: OpenInterval)
    requires UniqueHashes(kept + reserved + operations) && (x in reserved || x in operations)
    ensures !HasHash(kept, x.hash)
  {
    var all := kept + reserved + operations;
    forall i | 0 <= i < |kept| ensures kept[i].hash != x.hash {
      assert all[i] == kept[i];
      if x in reserved {
        var j :| 0 <= j < |reserved| && reserved[j] == x;
        assert all[|kept| + j] == x;
      } else {
        var j :| 0 <= j < |operations| && operations[j] == x;
        assert all[|kept| + |reserved| + j] == x;
      }
    }
  }

  lemma CreditObserved(o: Observation, h: Hash)
    requires UniqueList(o.reserved + OperationHashes(o.active)) && h in OperationHashes(o.active)
    ensures ActiveOperation(h, CreditFor(o.active, h)) in o.active
  {
    var hashes := OperationHashes(o.active);
    var i :| 0 <= i < |hashes| && hashes[i] == h;
    forall p, q | 0 <= p < q < |hashes| ensures hashes[p] != hashes[q] {
      assert (o.reserved + hashes)[|o.reserved| + p] == hashes[p] && (o.reserved + hashes)[|o.reserved| + q] == hashes[q];
    }
    CreditAt(o.active, i);
    assert o.active[i] == ActiveOperation(h, CreditFor(o.active, h));
  }

  /** Every fold that takes an observation in leaves open exactly what was observed. */
  lemma FoldTracks(a: Accumulator, o: Observation)
    requires Fold(a, o).Success? && a.source.revision < o.revision
    ensures Tracks(a, o, Fold(a, o).value.open)
  {
    FoldedParts(a, o);
    var prior := CarriedOver(a, o);
    hide *;
    ActiveHashesUnique(o);
    ObservedUnique(o);
    ReconciledObserved(prior.readiness, o.ready, ReadyKind(), o);
    ActiveObserved(prior.active, o);
    ReconciledObserved(prior.human, o.human + o.authority, HumanKind(o.authority), o);
    ReconciledObserved(prior.recovery, o.recovery, RecoveryKind(), o);
    TracksWhole(a, o, prior);
  }

  lemma FoldedParts(a: Accumulator, o: Observation)
    requires Fold(a, o).Success? && a.source.revision < o.revision
    ensures ValidObservation(o) && Fold(a, o).value == Next(a, o) && Fold(a, o).value.open == ReconcileOpen(CarriedOver(a, o), o)
    ensures Consistent(a) && (Contiguous(a, o) ==> IncidentError(a, o, 0).None?)
    ensures var prior := CarriedOver(a, o); SortedByHash(prior.readiness) && SortedByHash(prior.active) && SortedByHash(prior.human) && SortedByHash(prior.recovery)
  {
    hide ReconcileOpen, ValidObservation, InRange, ReconcileBooks, CensorBooks, CoverRevisions, TickClock, Integrate;
  }

  lemma ObservedUnique(o: Observation)
    requires ValidObservation(o)
    ensures UniqueList(o.ready) && UniqueList(o.recovery) && UniqueList(o.human + o.authority) && Disjoint(o.human, o.authority)
  {
  }

  lemma TracksWhole(a: Accumulator, o: Observation, prior: Open)
    requires prior == CarriedOver(a, o) && Disjoint(o.human, o.authority)
    requires forall h, k :: Lists(Reconciled(prior.readiness, o.ready, ReadyKind(), o), h, k) <==> h in o.ready && k == ReadyKind()(h)
    requires forall h, k :: Lists(ReconciledActive(prior.active, o), h, k) <==>
               (k == ReservedDispatch && h in o.reserved) || (k == Operation && exists i :: 0 <= i < |o.active| && o.active[i].hash == h)
    requires forall h, k :: Lists(Reconciled(prior.human, o.human + o.authority, HumanKind(o.authority), o), h, k) <==> h in o.human + o.authority && k == HumanKind(o.authority)(h)
    requires forall h, k :: Lists(Reconciled(prior.recovery, o.recovery, RecoveryKind(), o), h, k) <==> h in o.recovery && k == RecoveryKind()(h)
    requires forall x :: x in ReconciledActive(prior.active, o) && x.kind == Operation ==> ActiveOperation(x.hash, x.credit) in o.active
    requires Continues(Reconciled(prior.readiness, o.ready, ReadyKind(), o), prior.readiness, o)
    requires Continues(ReconciledActive(prior.active, o), prior.active, o)
    requires Continues(Reconciled(prior.human, o.human + o.authority, HumanKind(o.authority), o), prior.human, o)
    requires Continues(Reconciled(prior.recovery, o.recovery, RecoveryKind(), o), prior.recovery, o)
    ensures Tracks(a, o, ReconcileOpen(prior, o))
  {
    hide Lists, Continues, Reconciled, ReconciledActive;
    forall h ensures h in o.human ==> h !in o.authority {
    }
  }
}
