/**
 * The fold as the program performs it: the accumulator is cloned into a draft whose counters,
 * sums, histograms, integrals and open lists are updated step by step, then sealed.
 */
module AccumulatorDraft {
  import opened Wrappers
  import opened CreditModel
  import opened Accumulator
  import TickArea
  import IL = IntervalLists
  import Laws = AccumulatorLaws
  import Seen = ObservedOpen
  import Time = TimeConservation
  import Revisions = RevisionCoverage

  class Draft {
    const context: CreditContext
    var source: Source
    var clock: ClockHistory
    var open: Open
    var books: Books
    var integrals: Integrals
    var coverage: Coverage

    constructor Clone(a: Accumulator)
      ensures Value() == a
    {
      context, source, clock, open, books, integrals, coverage := a.context, a.source, a.clock, a.open, a.books, a.integrals, a.coverage;
    }

    function Value(): Accumulator
      reads this
    {
      Accumulator(context, source, clock, open, books, integrals, coverage)
    }

    method CloseInterval(x: OpenInterval, now: nat, ledger: Ledger)
      modifies this`books
      ensures books == Close(old(books), x, now, ledger)
      ensures Time.ClosedTime(books.sums) == Time.Plus(Time.ClosedTime(old(books.sums)), now - x.openedAt, Time.Counted(x.kind, ledger))
      ensures Time.HistogramsBalance(old(books)) ==> Time.HistogramsBalance(books)
    {
      hide Bump, Time.HistogramsBalance, Time.ClosedTime, Time.Plus, Time.Counted;
      ghost var was := books;
      var duration := now - x.openedAt;
      match ledger {
        case ReadinessLedger =>
          books := books.(sums := books.sums.(readinessWait := books.sums.readinessWait + duration));
          books := books.(histograms := books.histograms.(readinessWait := Bump(books.histograms.readinessWait, duration)));
          books := books.(counters := books.counters.(readiness := books.counters.readiness + 1));
        case DispatchLedger =>
          books := books.(sums := books.sums.(dispatchWait := books.sums.dispatchWait + duration));
          books := books.(histograms := books.histograms.(dispatchWait := Bump(books.histograms.dispatchWait, duration)));
          books := books.(counters := books.counters.(dispatch := books.counters.dispatch + 1));
        case RecoveryLedger =>
          books := books.(sums := books.sums.(recovery := books.sums.recovery + duration));
          books := books.(histograms := books.histograms.(recovery := Bump(books.histograms.recovery, duration)));
          books := books.(counters := books.counters.(recovery := books.counters.recovery + 1));
        case ActivityLedger =>
          books := books.(counters := books.counters.(active := books.counters.active + 1));
        case NoLedger =>
      }
      if x.kind == HumanActive {
        books := books.(sums := books.sums.(humanActive := books.sums.humanActive + duration));
        books := books.(counters := books.counters.(human := books.counters.human + 1));
      }
      if x.kind == AuthorityWait {
        books := books.(sums := books.sums.(authorityWait := books.sums.authorityWait + duration));
        books := books.(counters := books.counters.(authority := books.counters.authority + 1));
      }
      assert books == Close(was, x, now, ledger);
      hide Close;
      Time.CloseAddsDuration(was, x, now, ledger);
      if Time.HistogramsBalance(was) {
        Time.CloseBalances(was, x, now, ledger);
      }
    }

    method ReconcileIntervals(prior: seq<OpenInterval>, hashes: seq<Hash>, kindOf: Hash -> IntervalClass, o: Observation, ledger: Ledger)
      returns (next: seq<OpenInterval>)
      modifies this`books
      ensures books == CloseAll(old(books), Filter(prior, Ends(hashes, kindOf)), o.tick, ledger)
      ensures next == Reconciled(prior, hashes, kindOf, o)
      ensures SortedByHash(prior) && Laws.UniqueList(hashes) ==>
                Seen.Continues(next, prior, o) && forall h, k :: Seen.Lists(next, h, k) <==> h in hashes && k == kindOf(h)
    {
      var ends := Ends(hashes, kindOf);
      ghost var closed := CloseAll(books, Filter(prior, ends), o.tick, ledger);
      for i := 0 to |prior|
        invariant CloseAll(books, Filter(prior[i..], ends), o.tick, ledger) == closed
      {
        hide Filter, CloseAll, Close;
        FilterHead(prior[i..], ends);
        assert prior[i..][1..] == prior[i + 1..];
        if ends(prior[i]) {
          CloseAllHead(books, prior[i], Filter(prior[i + 1..], ends), o.tick, ledger);
          CloseInterval(prior[i], o.tick, ledger);
        } else {
          assert [] + Filter(prior[i + 1..], ends) == Filter(prior[i + 1..], ends);
        }
      }
      var kept := Filter(prior, Stays(hashes, kindOf));
      var added := OpenFresh(hashes, kept, kindOf, o);
      next := SortByHash(kept + added);
      assert next == Reconciled(prior, hashes, kindOf, o);
      hide Reconciled, CloseAll, Filter, SortByHash;
      if SortedByHash(prior) && Laws.UniqueList(hashes) {
        Seen.ReconciledObserved(prior, hashes, kindOf, o);
      }
    }

    /** One prior entry is kept, closed, or (if of another class) left to be replaced by a new operation. */
    method KeepOrClose(x: OpenInterval, o: Observation) returns (kept: seq<OpenInterval>)
      modifies this`books
      ensures books == if EndsActive(o)(x) then Close(old(books), x, o.tick, ActiveLedger(x)) else old(books)
      ensures kept == if StaysActive(o)(x) then Recredit([x], o) else []
    {
      kept := [];
      if x.kind == ReservedDispatch {
        if x.hash in o.reserved {
          kept := [x];
        } else {
          CloseInterval(x, o.tick, DispatchLedger);
        }
      } else if x.hash in OperationHashes(o.active) {
        if x.kind == Operation {
          kept := [x.(credit := CreditFor(o.active, x.hash))];
        }
      } else {
        CloseInterval(x, o.tick, ActivityLedger);
      }
    }

    method KeepActive(prior: seq<OpenInterval>, o: Observation) returns (output: seq<OpenInterval>)
      modifies this`books
      ensures books == CloseActive(old(books), Filter(prior, EndsActive(o)), o.tick)
      ensures output == Recredit(Filter(prior, StaysActive(o)), o)
    {
      hide *;
      output := [];
      ghost var closed, kept := CloseActive(books, Filter(prior, EndsActive(o)), o.tick), Recredit(Filter(prior, StaysActive(o)), o);
      assert prior[0..] == prior && [] + kept == kept;
      for i := 0 to |prior|
        invariant CloseActive(books, Filter(prior[i..], EndsActive(o)), o.tick) == closed
        invariant output + Recredit(Filter(prior[i..], StaysActive(o)), o) == kept
      {
        assert prior[i..] == [prior[i]] + prior[i + 1..];
        CloseStep(books, prior[i], prior[i + 1..], o);
        KeepStep(prior[i], prior[i + 1..], o);
        var one := KeepOrClose(prior[i], o);
        output := output + one;
      }
      assert prior[|prior|..] == [];
      NothingLeft(books, o);
    }

    method ReconcileActiveIntervals(prior: seq<OpenInterval>, o: Observation) returns (next: seq<OpenInterval>)
      modifies this`books
      ensures books == CloseActive(old(books), Filter(prior, EndsActive(o)), o.tick)
      ensures next == ReconciledActive(prior, o)
      ensures SortedByHash(prior) && ValidObservation(o) ==>
                && Seen.Continues(next, prior, o)
                && (forall h, k :: Seen.Lists(next, h, k) <==>
                      (k == ReservedDispatch && h in o.reserved) || (k == Operation && exists i :: 0 <= i < |o.active| && o.active[i].hash == h))
                && (forall x :: x in next && x.kind == Operation ==> ActiveOperation(x.hash, x.credit) in o.active)
    {
      var output := KeepActive(prior, o);
      var reserved := OpenFresh(o.reserved, output, ReservedKind(), o);
      var operations := OpenOperations(output, o);
      next := SortByHash(output + reserved + operations);
      hide CloseActive, Filter, SortByHash, ValidObservation, Recredit, Fresh, FreshOperations;
      if SortedByHash(prior) && ValidObservation(o) {
        Seen.ActiveObserved(prior, o);
      }
    }

    method CloseEach(s: seq<OpenInterval>, now: nat, ledger: Ledger)
      modifies this`books
      ensures books == CloseAll(old(books), s, now, ledger)
    {
      for i := 0 to |s|
        invariant CloseAll(books, s[i..], now, ledger) == CloseAll(old(books), s, now, ledger)
      {
        assert s[i..][1..] == s[i + 1..];
        CloseInterval(s[i], now, ledger);
      }
    }

    /** Everything open is closed at the last observed boundary and counted as censored. */
    method CensorOpenIntervals()
      modifies this`books, this`open, this`coverage
      ensures books == CensorBooks(old(books), old(open), source.tick)
      ensures open == NOTHING_OPEN
      ensures coverage == old(coverage).(censored := old(coverage).censored + |old(open).readiness| + |old(open).active| + |old(open).human| + |old(open).recovery|)
    {
      var boundary := source.tick;
      CloseEach(open.readiness, boundary, ReadinessLedger);
      ghost var closed := CloseActive(books, open.active, boundary);
      for i := 0 to |open.active|
        invariant open == old(open) && coverage == old(coverage)
        invariant CloseActive(books, open.active[i..], boundary) == closed
      {
        assert open.active[i..][1..] == open.active[i + 1..];
        CloseInterval(open.active[i], boundary, ActiveLedger(open.active[i]));
      }
      CloseEach(open.human, boundary, NoLedger);
      CloseEach(open.recovery, boundary, RecoveryLedger);
      coverage := coverage.(censored := coverage.censored + |open.readiness| + |open.active| + |open.human| + |open.recovery|);
      open := NOTHING_OPEN;
    }

    method ReconcileAll(o: Observation)
      modifies this`books, this`open
      ensures books == ReconcileBooks(old(books), old(open), o)
      ensures open == ReconcileOpen(old(open), o)
    {
      var readiness := ReconcileIntervals(open.readiness, o.ready, ReadyKind(), o, ReadinessLedger);
      var active := ReconcileActiveIntervals(open.active, o);
      var human := ReconcileIntervals(open.human, o.human + o.authority, HumanKind(o.authority), o, NoLedger);
      var recovery := ReconcileIntervals(open.recovery, o.recovery, RecoveryKind(), o, RecoveryLedger);
      open := Open(readiness, active, human, recovery);
    }

    method AddRevisionGap(first: nat, last: nat)
      modifies this`coverage
      ensures coverage == AddGap(old(coverage), first, last)
      ensures coverage.gapOverflow == old(coverage.gapOverflow) && (old(coverage.gaps) != [] ==> old(coverage.gaps[|coverage.gaps| - 1]).first <= first) ==>
                forall r :: Revisions.InSome(r, coverage.gaps) <==> Revisions.InSome(r, old(coverage.gaps)) || first <= r <= last
    {
      ghost var was := coverage;
      var n := |coverage.gaps|;
      if n > 0 && first <= coverage.gaps[n - 1].last + 1 {
        var end := if last > coverage.gaps[n - 1].last then last else coverage.gaps[n - 1].last;
        coverage := coverage.(gaps := coverage.gaps[n - 1 := Gap(coverage.gaps[n - 1].first, end)]);
      } else if n < MAX_GAPS {
        coverage := coverage.(gaps := coverage.gaps + [Gap(first, last)]);
      } else {
        coverage := coverage.(gapOverflow := coverage.gapOverflow + 1);
      }
      if coverage.gapOverflow == was.gapOverflow && (was.gaps != [] ==> was.gaps[|was.gaps| - 1].first <= first) {
        forall r ensures Revisions.InSome(r, coverage.gaps) <==> Revisions.InSome(r, was.gaps) || first <= r <= last {
          Revisions.AddGapCovers(was, first, last, r);
        }
      }
    }

    method ObserveRevision(a: Accumulator, o: Observation)
      requires a.source.revision < o.revision && clock == a.clock
      modifies this`clock, this`coverage
      ensures clock == TickClock(a, o)
      ensures coverage == Skip(old(coverage).(dropped := old(coverage).dropped + o.droppedBefore, observerFailures := old(coverage).observerFailures + o.failuresBefore),
                               a.source.revision, o.revision)
    {
      if o.epoch != a.source.epoch {
        clock := clock.(epochChanges := clock.epochChanges + 1);
      }
      if o.tick < a.source.tick {
        clock := clock.(monotonicResets := clock.monotonicResets + 1);
      }
      if !o.clockSupported {
        clock := clock.(unsupported := clock.unsupported + 1);
      }
      clock := clock.(currentEpoch := o.epoch);
      coverage := coverage.(dropped := coverage.dropped + o.droppedBefore);
      coverage := coverage.(observerFailures := coverage.observerFailures + o.failuresBefore);
      var skipped := o.revision - a.source.revision - 1;
      if skipped > 0 {
        coverage := coverage.(missing := coverage.missing + skipped);
        AddRevisionGap(a.source.revision + 1, o.revision - 1);
      }
    }

    /** Books the incidents one by one; the first bad one stops the fold. */
    method BookAllIncidents(a: Accumulator, o: Observation) returns (error: Option<FoldError>)
      modifies this`books
      ensures error == IncidentError(a, o, 0)
      ensures error.None? ==> books == BookIncidents(old(books), o)
    {
      for i := 0 to |o.incidents|
        invariant IncidentError(a, o, i) == IncidentError(a, o, 0)
        invariant books.histograms == old(books).histograms
        invariant books.counters == old(books).counters.(falseIndependence := old(books).counters.falseIndependence + i)
        invariant books.sums == old(books).sums.(falseIndependenceWaste := old(books).sums.falseIndependenceWaste + Waste(o, i))
      {
        var incident := o.incidents[i];
        if !InWindow(a, o, incident) {
          return Some(IncidentOutsideWindow(i));
        }
        if !OnOpenOperations(a, incident) {
          return Some(IncidentNotOpen(i));
        }
        books := books.(counters := books.counters.(falseIndependence := books.counters.falseIndependence + 1));
        books := books.(sums := books.sums.(falseIndependenceWaste := books.sums.falseIndependenceWaste + (o.tick - incident.wasteStart) * |incident.operations|));
      }
      return None;
    }

    method AccumulateIntegrals(a: Accumulator, elapsed: int)
      requires integrals == a.integrals
      modifies this`integrals
      ensures integrals == Integrate(a, elapsed)
      ensures 0 <= elapsed && ValidIntegrals(old(integrals)) ==> ValidIntegrals(integrals)
    {
      var all, creditable, ready := OperationCount(a), CreditableCount(a), WaitingCount(a);
      integrals := integrals.(autonomousElapsed := integrals.autonomousElapsed + elapsed);
      integrals := integrals.(allOperationWork := integrals.allOperationWork + elapsed * all);
      integrals := integrals.(creditableWork := integrals.creditableWork + elapsed * creditable);
      integrals := integrals.(usefulOverlap := integrals.usefulOverlap + elapsed * TickArea.Excess(creditable));
      integrals := integrals.(parallelOpportunity := integrals.parallelOpportunity + elapsed * TickArea.Excess(all + ready));
      if 0 <= elapsed && ValidIntegrals(a.integrals) {
        Laws.CountsOrdered(a);
        Laws.IntegrateValid(a.integrals, elapsed, all, creditable, ready);
      }
    }
  }

  method OpenFresh(hashes: seq<Hash>, kept: seq<OpenInterval>, kindOf: Hash -> IntervalClass, o: Observation) returns (added: seq<OpenInterval>)
    ensures added == Fresh(hashes, kept, kindOf, o)
  {
    hide HasHash;
    added := [];
    for i := 0 to |hashes|
      invariant added + Fresh(hashes[i..], kept, kindOf, o) == Fresh(hashes, kept, kindOf, o)
    {
      assert hashes[i..][1..] == hashes[i + 1..];
      if !HasHash(kept, hashes[i]) {
        added := added + [OpenAt(hashes[i], kindOf(hashes[i]), o, None)];
      }
    }
    assert hashes[|hashes|..] == [];
  }

  method OpenOperations(kept: seq<OpenInterval>, o: Observation) returns (added: seq<OpenInterval>)
    ensures added == FreshOperations(o.active, kept, o)
  {
    hide HasHash;
    added := [];
    for i := 0 to |o.active|
      invariant added + FreshOperations(o.active[i..], kept, o) == FreshOperations(o.active, kept, o)
    {
      assert o.active[i..][1..] == o.active[i + 1..];
      if !HasHash(kept, o.active[i].hash) {
        added := added + [OpenAt(o.active[i].hash, Operation, o, o.active[i].credit)];
      }
    }
    assert o.active[|o.active|..] == [];
  }

  lemma FilterHead(s: seq<OpenInterval>, p: OpenInterval -> bool)
    requires s != []
    ensures Filter(s, p) == (if p(s[0]) then [s[0]] else []) + Filter(s[1..], p)
  {
  }

  lemma CloseAllHead(books: Books, x: OpenInterval, rest: seq<OpenInterval>, now: nat, ledger: Ledger)
    ensures CloseAll(books, [x] + rest, now, ledger) == CloseAll(Close(books, x, now, ledger), rest, now, ledger)
  {
    assert ([x] + rest)[1..] == rest;
  }

  lemma CloseActiveHead(books: Books, x: OpenInterval, rest: seq<OpenInterval>, now: nat)
    ensures CloseActive(books, [x] + rest, now) == CloseActive(Close(books, x, now, ActiveLedger(x)), rest, now)
  {
    assert ([x] + rest)[1..] == rest;
  }

  lemma CloseStep(books: Books, x: OpenInterval, rest: seq<OpenInterval>, o: Observation)
    ensures CloseActive(books, Filter([x] + rest, EndsActive(o)), o.tick)
         == CloseActive(if EndsActive(o)(x) then Close(books, x, o.tick, ActiveLedger(x)) else books, Filter(rest, EndsActive(o)), o.tick)
  {
    hide Close, CloseActive, EndsActive;
    var ended := Filter(rest, EndsActive(o));
    assert ([x] + rest)[1..] == rest;
    FilterHead([x] + rest, EndsActive(o));
    CloseActiveHead(books, x, ended, o.tick);
    assert [] + ended == ended;
  }

  lemma KeepStep(x: OpenInterval, rest: seq<OpenInterval>, o: Observation)
    ensures Recredit(Filter([x] + rest, StaysActive(o)), o)
         == (if StaysActive(o)(x) then Recredit([x], o) else []) + Recredit(Filter(rest, StaysActive(o)), o)
  {
    hide Recredit, StaysActive;
    var stayed := Filter(rest, StaysActive(o));
    assert ([x] + rest)[1..] == rest;
    FilterHead([x] + rest, StaysActive(o));
    RecreditHead(x, stayed, o);
    assert [] + stayed == stayed;
  }

  lemma NothingLeft(books: Books, o: Observation)
    ensures CloseActive(books, Filter([], EndsActive(o)), o.tick) == books
    ensures Recredit(Filter([], StaysActive(o)), o) == []
  {
  }

  lemma RecreditHead(x: OpenInterval, rest: seq<OpenInterval>, o: Observation)
    ensures Recredit([x] + rest, o) == Recredit([x], o) + Recredit(rest, o)
  {
    assert ([x] + rest)[1..] == rest;
  }

  /** Builds the unsealed successor in a draft, or reports the first refusal. */
  method Advance(a: Accumulator, o: Observation) returns (draft: Draft, error: Option<FoldError>)
    requires a.source.revision < o.revision
    ensures error == if Contiguous(a, o) then IncidentError(a, o, 0) else if o.incidents != [] then Some(IncidentWithoutInterval) else None
    ensures error.None? ==> draft.Value() == Next(a, o)
  {
    hide ReconcileBooks, ReconcileOpen, CensorBooks, Integrate, Skip, IncidentError, TickClock, BookIncidents;
    draft := new Draft.Clone(a);
    draft.ObserveRevision(a, o);
    if Contiguous(a, o) {
      error := draft.BookAllIncidents(a, o);
      if error.Some? {
        return;
      }
      draft.AccumulateIntegrals(a, o.tick - a.source.tick);
      draft.ReconcileAll(o);
    } else {
      if |o.incidents| > 0 {
        error := Some(IncidentWithoutInterval);
        return;
      }
      error := None;
      draft.CensorOpenIntervals();
      EmptyReconcile(draft.books, o);
      draft.ReconcileAll(o);
    }
    draft.coverage := draft.coverage.(observed := draft.coverage.observed + 1);
    draft.source := Source(o.revision, o.snapshot, o.epoch, o.tick);
  }

  /**
   * The fold. A sealed result is revalidated in full; the only clause that can fail is the
   * numeric range, which is why the result is the functional fold exactly.
   */
  method FoldObservation(a: Accumulator, o: Observation) returns (r: Result<Accumulator, FoldError>)
    ensures r == Fold(a, o)
    ensures r.Success? && a.source.revision < o.revision ==> Seen.Tracks(a, o, r.value.open)
  {
    hide Seen.Tracks;
    if Fold(a, o).Success? && a.source.revision < o.revision {
      Seen.FoldTracks(a, o);
    }
    hide Consistent, InRange, ValidObservation, IncidentError, Next;
    if !ValidAccumulator(a) {
      return Failure(InvalidAccumulator);
    }
    if !ValidObservation(o) {
      return Failure(InvalidObservation);
    }
    if o.context != a.context {
      return Failure(CreditContextMismatch);
    }
    if o.revision <= a.source.revision {
      return Success(a);
    }
    var draft, error := Advance(a, o);
    if error.Some? {
      return Failure(error.value);
    }
    Laws.FoldSealsExactly(a, o);
    if !ValidAccumulator(draft.Value()) {
      return Failure(Overflow);
    }
    return Success(draft.Value());
  }

  lemma EmptyReconcile(books: Books, o: Observation)
    ensures ReconcileBooks(books, NOTHING_OPEN, o) == books
  {
  }
}
