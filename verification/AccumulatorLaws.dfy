/** What every fold keeps: the validator's clauses, the ledgers, time, and revision coverage. */
module AccumulatorLaws {
  import opened Wrappers
  import opened CreditModel
  import TickArea
  import opened Accumulator
  import opened IntervalLists

  // ---------- reconciled lists ----------

  predicate UniqueList(hashes: seq<Hash>) {
    forall i, j :: 0 <= i < j < |hashes| ==> hashes[i] != hashes[j]
  }

  lemma {:induction false} FreshFacts(hashes: seq<Hash>, kept: seq<OpenInterval>, kindOf: Hash -> IntervalClass, o: Observation)
    requires UniqueList(hashes)
    ensures UniqueHashes(Fresh(hashes, kept, kindOf, o))
    ensures forall x :: x in Fresh(hashes, kept, kindOf, o) ==>
              x.hash in hashes && !HasHash(kept, x.hash) && x == OpenAt(x.hash, kindOf(x.hash), o, None)
  {
    if hashes != [] {
      FreshFacts(hashes[1..], kept, kindOf, o);
      var rest := Fresh(hashes[1..], kept, kindOf, o);
      forall x | x in rest ensures x.hash in hashes && x.hash != hashes[0] {
        TailMember(hashes, x.hash);
      }
      var head := if HasHash(kept, hashes[0]) then [] else [OpenAt(hashes[0], kindOf(hashes[0]), o, None)];
      UniqueAppend(head, rest);
    }
  }

  lemma TailMember(hashes: seq<Hash>, h: Hash)
    requires UniqueList(hashes) && hashes != [] && h in hashes[1..]
    ensures h in hashes && h != hashes[0]
  {
    var i :| 0 <= i < |hashes[1..]| && hashes[1..][i] == h;
    assert hashes[i + 1] == h;
  }

  lemma {:induction false} FreshOperationFacts(active: seq<ActiveOperation>, kept: seq<OpenInterval>, o: Observation, context: CreditContext)
    requires UniqueList(OperationHashes(active))
    requires forall i :: 0 <= i < |active| ==> Creditable(active[i].credit, context)
    ensures UniqueHashes(FreshOperations(active, kept, o))
    ensures forall x :: x in FreshOperations(active, kept, o) ==>
              && x.hash in OperationHashes(active) && !HasHash(kept, x.hash)
              && x == OpenAt(x.hash, Operation, o, CreditFor(active, x.hash)) && Creditable(x.credit, context)
  {
    if active != [] {
      var hashes := OperationHashes(active);
      assert hashes[1..] == OperationHashes(active[1..]);
      FreshOperationFacts(active[1..], kept, o, context);
      var rest := FreshOperations(active[1..], kept, o);
      forall x | x in rest ensures x.hash in hashes && x.hash != hashes[0] {
        TailMember(hashes, x.hash);
      }
      var head := if HasHash(kept, active[0].hash) then [] else [OpenAt(active[0].hash, Operation, o, active[0].credit)];
      UniqueAppend(head, rest);
    }
  }

  lemma {:induction false} CreditForCreditable(active: seq<ActiveOperation>, hash: Hash, context: CreditContext)
    requires forall i :: 0 <= i < |active| ==> Creditable(active[i].credit, context)
    ensures Creditable(CreditFor(active, hash), context)
  {
    if active != [] {
      CreditForCreditable(active[1..], hash, context);
    }
  }

  lemma ReconciledValid(prior: seq<OpenInterval>, hashes: seq<Hash>, kindOf: Hash -> IntervalClass, o: Observation, before: Source, after: Source, context: CreditContext)
    requires ValidOpen(prior, before, context) && UniqueList(hashes)
    requires after.epoch == o.epoch && after.tick == o.tick
    requires prior != [] ==> before.epoch == o.epoch && before.tick <= o.tick
    ensures ValidOpen(Reconciled(prior, hashes, kindOf, o), after, context)
    ensures |Reconciled(prior, hashes, kindOf, o)| <= |hashes|
    ensures forall x :: x in Reconciled(prior, hashes, kindOf, o) ==> x.kind == kindOf(x.hash)
  {
    var kept := Filter(prior, Stays(hashes, kindOf));
    var added := Fresh(hashes, kept, kindOf, o);
    FilterUnique(prior, Stays(hashes, kindOf));
    FreshFacts(hashes, kept, kindOf, o);
    UniqueAppend(kept, added);
    SortSorted(kept + added);
    UniqueWithin(kept + added, hashes);
    forall x | x in SortByHash(kept + added)
      ensures x.epoch == after.epoch && x.openedAt <= after.tick && Creditable(x.credit, context) && x.kind == kindOf(x.hash)
    {
      assert x in kept || x in added;
    }
  }

  /** The hashes of the reserved and the active operations together are unique. */
  lemma ActiveHashesUnique(o: Observation)
    requires ValidObservation(o)
    ensures UniqueList(o.reserved + OperationHashes(o.active))
    ensures UniqueList(o.human + o.authority)
    ensures |o.reserved + OperationHashes(o.active)| <= 1024 && |o.human + o.authority| <= 128
  {
  }

  /** The three groups from which the next active list is sorted. */
  ghost predicate ActiveGroups(prior: seq<OpenInterval>, o: Observation, kept: seq<OpenInterval>, reserved: seq<OpenInterval>, operations: seq<OpenInterval>) {
    && kept == Recredit(Filter(prior, StaysActive(o)), o)
    && reserved == Fresh(o.reserved, kept, ReservedKind(), o)
    && operations == FreshOperations(o.active, kept, o)
    && ReconciledActive(prior, o) == SortByHash(kept + reserved + operations)
  }

  lemma ActiveGroupsUnique(prior: seq<OpenInterval>, o: Observation, kept: seq<OpenInterval>, reserved: seq<OpenInterval>, operations: seq<OpenInterval>)
    requires SortedByHash(prior) && ValidObservation(o)
    requires ActiveGroups(prior, o, kept, reserved, operations)
    ensures UniqueHashes(kept + reserved + operations)
    ensures forall x :: x in reserved ==> x.hash in o.reserved && x == OpenAt(x.hash, ReservedDispatch, o, None)
    ensures forall x :: x in operations ==> x.hash in OperationHashes(o.active) && x == OpenAt(x.hash, Operation, o, CreditFor(o.active, x.hash)) && Creditable(x.credit, o.context)
    ensures forall x :: x in kept ==> (x.kind == ReservedDispatch && x.hash in o.reserved) || (x.kind == Operation && x.hash in OperationHashes(o.active))
  {
    var survivors := Filter(prior, StaysActive(o));
    FilterUnique(prior, StaysActive(o));
    assert forall i :: 0 <= i < |kept| ==> kept[i].hash == survivors[i].hash && kept[i].kind == survivors[i].kind && survivors[i] in survivors;
    FreshFacts(o.reserved, kept, ReservedKind(), o);
    FreshOperationFacts(o.active, kept, o, o.context);
    UniqueAppend(kept, reserved);
    forall y | y in operations ensures !HasHash(kept + reserved, y.hash) {
      assert y.hash in OperationHashes(o.active);
      forall i | 0 <= i < |kept + reserved| ensures (kept + reserved)[i].hash != y.hash {
        if i >= |kept| {
          assert (kept + reserved)[i] in reserved;
        }
      }
    }
    UniqueAppend(kept + reserved, operations);
  }

  lemma ReconciledActiveValid(prior: seq<OpenInterval>, o: Observation, before: Source, after: Source)
    requires ValidOpen(prior, before, o.context) && ValidObservation(o)
    requires after.epoch == o.epoch && after.tick == o.tick
    requires prior != [] ==> before.epoch == o.epoch && before.tick <= o.tick
    ensures ValidOpen(ReconciledActive(prior, o), after, o.context)
    ensures |ReconciledActive(prior, o)| <= 1024
    ensures forall x :: x in ReconciledActive(prior, o) ==> x.kind == ReservedDispatch || x.kind == Operation
  {
    var kept := Recredit(Filter(prior, StaysActive(o)), o);
    var reserved := Fresh(o.reserved, kept, ReservedKind(), o);
    var operations := FreshOperations(o.active, kept, o);
    ActiveGroupsUnique(prior, o, kept, reserved, operations);
    ActiveGroupsValid(prior, o, before, after, kept, reserved, operations);
    var all := kept + reserved + operations;
    SortSorted(all);
    ActiveHashesUnique(o);
    hide Recredit, Fresh, FreshOperations, Filter, StaysActive, ValidObservation, OperationHashes;
    forall x | x in all
      ensures x.hash in o.reserved + OperationHashes(o.active)
    {
      assert x in kept || x in reserved || x in operations;
    }
    UniqueWithin(all, o.reserved + OperationHashes(o.active));
  }

  lemma ActiveGroupsValid(prior: seq<OpenInterval>, o: Observation, before: Source, after: Source, kept: seq<OpenInterval>, reserved: seq<OpenInterval>, operations: seq<OpenInterval>)
    requires ValidOpen(prior, before, o.context) && ValidObservation(o)
    requires after.epoch == o.epoch && after.tick == o.tick
    requires prior != [] ==> before.epoch == o.epoch && before.tick <= o.tick
    requires ActiveGroups(prior, o, kept, reserved, operations)
    ensures forall x :: x in kept + reserved + operations ==>
              x.epoch == after.epoch && x.openedAt <= after.tick && Creditable(x.credit, o.context) && (x.kind == ReservedDispatch || x.kind == Operation)
  {
    ActiveGroupsUnique(prior, o, kept, reserved, operations);
    var survivors := Filter(prior, StaysActive(o));
    forall x | x in kept + reserved + operations
      ensures x.epoch == after.epoch && x.openedAt <= after.tick && Creditable(x.credit, o.context) && (x.kind == ReservedDispatch || x.kind == Operation)
    {
      if x in kept {
        var i :| 0 <= i < |kept| && kept[i] == x;
        assert survivors[i] in prior;
        CreditForCreditable(o.active, survivors[i].hash, o.context);
      } else {
        assert x in reserved || x in operations;
      }
    }
  }

  // ---------- closing ----------

  function Ages(now: int): OpenInterval -> int { (x: OpenInterval) => now - x.openedAt }
  function AgesOf(kind: IntervalClass, now: int): OpenInterval -> int { (x: OpenInterval) => if x.kind == kind then now - x.openedAt else 0 }
  function CountOf(kind: IntervalClass): OpenInterval -> int { (x: OpenInterval) => if x.kind == kind then 1 else 0 }

  predicate OpenedBy(s: seq<OpenInterval>, now: int) {
    forall x :: x in s ==> x.openedAt <= now
  }

  lemma {:induction false} CloseAllKeepsSums(books: Books, s: seq<OpenInterval>, now: nat, ledger: Ledger)
    requires NonNegativeSums(books.sums) && OpenedBy(s, now)
    ensures NonNegativeSums(CloseAll(books, s, now, ledger).sums)
    decreases |s|
  {
    if s != [] {
      assert s[0] in s;
      CloseAllKeepsSums(Close(books, s[0], now, ledger), s[1..], now, ledger);
    }
  }

  lemma {:induction false} CloseActiveKeepsSums(books: Books, s: seq<OpenInterval>, now: nat)
    requires NonNegativeSums(books.sums) && OpenedBy(s, now)
    ensures NonNegativeSums(CloseActive(books, s, now).sums)
    decreases |s|
  {
    if s != [] {
      assert s[0] in s;
      CloseActiveKeepsSums(Close(books, s[0], now, ActiveLedger(s[0])), s[1..], now);
    }
  }

  lemma ReconcileKeepsSums(books: Books, open: Open, o: Observation)
    requires NonNegativeSums(books.sums)
    requires OpenedBy(open.readiness, o.tick) && OpenedBy(open.active, o.tick) && OpenedBy(open.human, o.tick) && OpenedBy(open.recovery, o.tick)
    ensures NonNegativeSums(ReconcileBooks(books, open, o).sums)
  {
    var b1 := CloseAll(books, Filter(open.readiness, Ends(o.ready, ReadyKind())), o.tick, ReadinessLedger);
    var b2 := CloseActive(b1, Filter(open.active, EndsActive(o)), o.tick);
    var b3 := CloseAll(b2, Filter(open.human, Ends(o.human + o.authority, HumanKind(o.authority))), o.tick, NoLedger);
    CloseAllKeepsSums(books, Filter(open.readiness, Ends(o.ready, ReadyKind())), o.tick, ReadinessLedger);
    CloseActiveKeepsSums(b1, Filter(open.active, EndsActive(o)), o.tick);
    CloseAllKeepsSums(b2, Filter(open.human, Ends(o.human + o.authority, HumanKind(o.authority))), o.tick, NoLedger);
    CloseAllKeepsSums(b3, Filter(open.recovery, Ends(o.recovery, RecoveryKind())), o.tick, RecoveryLedger);
  }

  lemma CensorKeepsSums(books: Books, open: Open, boundary: nat)
    requires NonNegativeSums(books.sums)
    requires OpenedBy(open.readiness, boundary) && OpenedBy(open.active, boundary) && OpenedBy(open.human, boundary) && OpenedBy(open.recovery, boundary)
    ensures NonNegativeSums(CensorBooks(books, open, boundary).sums)
  {
    var b1 := CloseAll(books, open.readiness, boundary, ReadinessLedger);
    var b2 := CloseActive(b1, open.active, boundary);
    var b3 := CloseAll(b2, open.human, boundary, NoLedger);
    CloseAllKeepsSums(books, open.readiness, boundary, ReadinessLedger);
    CloseActiveKeepsSums(b1, open.active, boundary);
    CloseAllKeepsSums(b2, open.human, boundary, NoLedger);
    CloseAllKeepsSums(b3, open.recovery, boundary, RecoveryLedger);
  }

  // ---------- the validator's clauses ----------

  lemma {:induction false} WasteNonNegative(o: Observation, count: nat)
    requires count <= |o.incidents|
    requires forall i :: 0 <= i < count ==> o.incidents[i].wasteStart <= o.tick
    ensures 0 <= Waste(o, count)
  {
    if count > 0 {
      WasteNonNegative(o, count - 1);
      var i := o.incidents[count - 1];
      assert 0 <= (o.tick - i.wasteStart) * |i.operations|;
    }
  }

  lemma {:induction false} NoIncidentError(a: Accumulator, o: Observation, from: nat)
    requires IncidentError(a, o, from).None?
    ensures forall i :: from <= i < |o.incidents| ==> InWindow(a, o, o.incidents[i]) && OnOpenOperations(a, o.incidents[i])
    decreases |o.incidents| - from
  {
    if from < |o.incidents| {
      NoIncidentError(a, o, from + 1);
    }
  }

  lemma GapPushed(gaps: seq<Gap>, g: Gap)
    requires 0 < g.first <= g.last && ValidGaps(gaps, g.first - 1)
    requires |gaps| > 0 ==> gaps[|gaps| - 1].last + 1 < g.first
    ensures ValidGaps(gaps + [g], g.last)
    ensures Represented(gaps + [g]) == Represented(gaps) + g.last - g.first + 1
  {
    hide ValidGaps;
    GapsStayApart(gaps, g);
    assert (gaps + [g])[..|gaps|] == gaps;
  }

  lemma GapsStayApart(gaps: seq<Gap>, g: Gap)
    requires 0 < g.first <= g.last && ValidGaps(gaps, g.first - 1)
    requires |gaps| > 0 ==> gaps[|gaps| - 1].last + 1 < g.first
    ensures ValidGaps(gaps + [g], g.last)
  {
    var r := gaps + [g];
    forall i, j | 0 <= i < j < |r| ensures r[i].last + 1 < r[j].first {
      assert r[i] == gaps[i];
      if j < |gaps| {
        assert r[j] == gaps[j];
      } else {
        assert i < |gaps| - 1 ==> gaps[i].last + 1 < gaps[|gaps| - 1].first;
      }
    }
  }

  lemma GapExtended(gaps: seq<Gap>, first: nat, last: nat)
    requires 0 < first <= last && ValidGaps(gaps, first - 1)
    requires |gaps| > 0 && first <= gaps[|gaps| - 1].last + 1
    ensures var r := gaps[|gaps| - 1 := Gap(gaps[|gaps| - 1].first, last)];
            ValidGaps(r, last) && Represented(r) == Represented(gaps) + last - first + 1
  {
    var n := |gaps|;
    var r := gaps[n - 1 := Gap(gaps[n - 1].first, last)];
    assert r[..n - 1] == gaps[..n - 1];
  }

  /** Extending the merged, sorted gap list keeps it merged, sorted and no longer than the cap. */
  lemma AddGapValid(c: Coverage, first: nat, last: nat)
    requires 0 < first <= last && ValidGaps(c.gaps, first - 1) && |c.gaps| <= MAX_GAPS
    ensures ValidGaps(AddGap(c, first, last).gaps, last)
    ensures |AddGap(c, first, last).gaps| <= MAX_GAPS
    ensures Represented(AddGap(c, first, last).gaps) + AddGap(c, first, last).gapOverflow <= Represented(c.gaps) + c.gapOverflow + last - first + 1
    ensures Represented(AddGap(c, first, last).gaps) <= Represented(c.gaps) + last - first + 1
  {
    var n := |c.gaps|;
    if n > 0 && first <= c.gaps[n - 1].last + 1 {
      GapExtended(c.gaps, first, last);
    } else if n < MAX_GAPS {
      GapPushed(c.gaps, Gap(first, last));
    }
  }

  lemma SkipValid(c: Coverage, from: nat, to: nat)
    requires from < to && ValidCoverage(c, from)
    ensures ValidCoverage(Skip(c, from, to).(observed := c.observed + 1), to)
    ensures Skip(c, from, to).observed == c.observed
    ensures Skip(c, from, to).missing == c.missing + (to - from - 1)
  {
    hide AddGap, ValidGaps, Represented;
    var skipped := to - from - 1;
    AddGapKeeps(c.(missing := c.missing + skipped), from + 1, to - 1);
    if skipped > 0 {
      AddGapValid(c.(missing := c.missing + skipped), from + 1, to - 1);
      GapsLater(Skip(c, from, to).gaps, to - 1, to);
    } else {
      GapsLater(c.gaps, from, to);
    }
  }

  lemma AddGapKeeps(c: Coverage, first: nat, last: int)
    requires last >= 0
    ensures AddGap(c, first, last).observed == c.observed && AddGap(c, first, last).missing == c.missing
  {
  }

  lemma CoverValid(a: Accumulator, o: Observation)
    requires ValidCoverage(a.coverage, a.source.revision) && a.source.revision < o.revision
    ensures ValidCoverage(CoverRevisions(a, o), o.revision)
    ensures CoverRevisions(a, o).observed == a.coverage.observed + 1
    ensures CoverRevisions(a, o).missing == a.coverage.missing + (o.revision - a.source.revision - 1)
  {
    hide Skip, AddGap, ValidGaps, Represented;
    var c := a.coverage.(dropped := a.coverage.dropped + o.droppedBefore, observerFailures := a.coverage.observerFailures + o.failuresBefore);
    SkipValid(c, a.source.revision, o.revision);
  }

  lemma GapsLater(gaps: seq<Gap>, revision: nat, later: nat)
    requires ValidGaps(gaps, revision) && revision <= later
    ensures ValidGaps(gaps, later)
  {
  }

  lemma CountsOrdered(a: Accumulator)
    ensures 0 <= CreditableCount(a) <= OperationCount(a)
    ensures 0 <= WaitingCount(a)
  {
    TotalAtMost(a.open.active, IsCreditable(a.context), IsOperation());
    TotalAtMost(a.open.active, IsReserved(), IsReserved());
  }

  lemma IntegrateValid(i: Integrals, elapsed: int, all: int, creditable: int, ready: int)
    requires ValidIntegrals(i) && 0 <= elapsed && 0 <= creditable <= all && 0 <= ready
    ensures ValidIntegrals(Integrals(
              i.autonomousElapsed + elapsed, i.allOperationWork + elapsed * all, i.creditableWork + elapsed * creditable,
              i.usefulOverlap + elapsed * TickArea.Excess(creditable), i.parallelOpportunity + elapsed * TickArea.Excess(all + ready)))
  {
    Scale(elapsed, creditable, all);
    Scale(elapsed, TickArea.Excess(creditable), creditable);
    Scale(elapsed, TickArea.Excess(creditable), TickArea.Excess(all + ready));
    Scale(elapsed, creditable - TickArea.Excess(creditable), 1);
    assert elapsed * (creditable - TickArea.Excess(creditable)) == elapsed * creditable - elapsed * TickArea.Excess(creditable);
    if elapsed == 0 {
      assert elapsed * all == 0 && elapsed * creditable == 0;
    }
  }

  lemma Scale(k: int, x: int, y: int)
    requires 0 <= k && 0 <= x <= y
    ensures 0 <= k * x <= k * y
  {
  }

  /** From any valid accumulator, folding keeps every clause of the validator except the numeric range. */
  lemma FoldKeepsConsistent(a: Accumulator, o: Observation)
    requires Consistent(a) && ValidObservation(o) && o.context == a.context && a.source.revision < o.revision
    requires Contiguous(a, o) ==> IncidentError(a, o, 0).None?
    ensures Consistent(Next(a, o))
  {
    CoverValid(a, o);
    OpenValid(a, o);
    BooksValid(a, o);
    NextIntegralsValid(a, o);
  }

  lemma NextIntegralsValid(a: Accumulator, o: Observation)
    requires ValidIntegrals(a.integrals) && a.source.revision < o.revision
    ensures ValidIntegrals(Next(a, o).integrals)
  {
    hide ReconcileOpen, ReconcileBooks, BookIncidents, CensorBooks, CoverRevisions, TickClock, ValidIntegrals, OperationCount, CreditableCount, WaitingCount;
    if Contiguous(a, o) {
      CountsOrdered(a);
      IntegrateValid(a.integrals, o.tick - a.source.tick, OperationCount(a), CreditableCount(a), WaitingCount(a));
    }
  }

  lemma BooksValid(a: Accumulator, o: Observation)
    requires Consistent(a) && a.source.revision < o.revision
    requires Contiguous(a, o) ==> IncidentError(a, o, 0).None?
    ensures NonNegativeSums(Next(a, o).books.sums)
  {
    if Contiguous(a, o) {
      NoIncidentError(a, o, 0);
      WasteNonNegative(o, |o.incidents|);
      ReconcileKeepsSums(BookIncidents(a.books, o), a.open, o);
    } else {
      CensorKeepsSums(a.books, a.open, a.source.tick);
    }
  }

  lemma OpenValid(a: Accumulator, o: Observation)
    requires Consistent(a) && ValidObservation(o) && o.context == a.context && a.source.revision < o.revision
    ensures var n := Next(a, o);
            && |n.open.readiness| <= 512 && |n.open.active| <= 1024 && |n.open.human| <= 128 && |n.open.recovery| <= 64
            && ValidOpen(n.open.readiness, n.source, n.context) && ValidOpen(n.open.active, n.source, n.context)
            && ValidOpen(n.open.human, n.source, n.context) && ValidOpen(n.open.recovery, n.source, n.context)
            && WellKinded(n.open)
  {
    var n := Next(a, o);
    var prior := if Contiguous(a, o) then a.open else NOTHING_OPEN;
    ActiveHashesUnique(o);
    ReconciledValid(prior.readiness, o.ready, ReadyKind(), o, a.source, n.source, a.context);
    ReconciledActiveValid(prior.active, o, a.source, n.source);
    ReconciledValid(prior.human, o.human + o.authority, HumanKind(o.authority), o, a.source, n.source, a.context);
    ReconciledValid(prior.recovery, o.recovery, RecoveryKind(), o, a.source, n.source, a.context);
  }

  /** Each list holds only the classes the fold puts there. */
  predicate WellKinded(open: Open) {
    && (forall x :: x in open.readiness ==> x.kind == ReadinessLaneAdmit)
    && (forall x :: x in open.active ==> x.kind == ReservedDispatch || x.kind == Operation)
    && (forall x :: x in open.human ==> x.kind == HumanActive || x.kind == AuthorityWait)
    && (forall x :: x in open.recovery ==> x.kind == Recovery)
  }

  /** So sealing a fold can fail only on the numeric range, and a sealed fold is valid again. */
  lemma FoldSealsExactly(a: Accumulator, o: Observation)
    requires ValidAccumulator(a) && ValidObservation(o) && o.context == a.context && a.source.revision < o.revision
    requires Contiguous(a, o) ==> IncidentError(a, o, 0).None?
    requires !Contiguous(a, o) ==> o.incidents == []
    ensures ValidAccumulator(Next(a, o)) <==> InRange(Next(a, o))
    ensures Fold(a, o) == if InRange(Next(a, o)) then Success(Next(a, o)) else Failure(Overflow)
  {
    FoldKeepsConsistent(a, o);
  }

  // ---------- how much one observation may hold ----------

  function Upward(from: nat, n: nat): (r: seq<Hash>)
    ensures |r| == n && forall i :: 0 <= i < n ==> r[i] == from + i
  {
    seq(n, i requires 0 <= i => from + i)
  }

  function Uncredited(from: nat, n: nat): (r: seq<ActiveOperation>)
    ensures |r| == n && forall i :: 0 <= i < n ==> r[i] == ActiveOperation(from + i, None)
  {
    seq(n, i requires 0 <= i => ActiveOperation(from + i, None))
  }

  /** An observation of as many distinct hashes as given in each class, and nothing else. */
  function Census(ready: nat, reserved: nat, active: nat, human: nat, authority: nat, recovery: nat, context: CreditContext): Observation {
    Observation(1, 0, 0, 0, Upward(0, ready), Upward(ready, reserved), Uncredited(ready + reserved, active),
                Upward(0, human), Upward(human, authority), Upward(0, recovery), [], context, 0, 0, true)
  }

  /** The caps on each class, met exactly. */
  lemma CapsExactly(ready: nat, reserved: nat, active: nat, human: nat, authority: nat, recovery: nat, context: CreditContext)
    requires ValidContext(context)
    ensures ValidObservation(Census(ready, reserved, active, human, authority, recovery, context)) <==>
              ready <= 512 && reserved <= 512 && active <= 512 && human <= 64 && authority <= 64 && recovery <= 64
  {
    hide ValidContext, OperationHashes, Creditable;
    UncreditedAccepted(context);
  }

  /** Every incident is an accepted disposition, and no two are the same or waste one operation. */
  lemma IncidentsAccepted(o: Observation, i: nat, j: nat)
    requires ValidObservation(o) && i < j < |o.incidents|
    ensures Accepted(FindingDisposition(o.incidents[i].finding, o.incidents[i].disposition), o.context)
    ensures Accepted(FindingDisposition(o.incidents[j].finding, o.incidents[j].disposition), o.context)
    ensures o.incidents[i].finding != o.incidents[j].finding
    ensures forall h :: h in o.incidents[i].operations ==> h !in o.incidents[j].operations
  {
    OneDispositionEach(o.context);
  }

  lemma OneDispositionEach(context: CreditContext)
    requires ValidContext(context)
    ensures forall f, d, e :: (f, d) in context.dispositions && (f, e) in context.dispositions ==> d == e
  {
  }

  lemma UncreditedAccepted(context: CreditContext)
    ensures Creditable(None, context)
  {
  }
}
