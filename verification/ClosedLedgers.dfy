/**
 * What a fold closes: each prior interval that the next open lists do not go on with is counted once, in the counter,
 * the sum and the histogram bucket of its class, and nothing else is. Booked waste counts wasted ticks of operations.
 */
module ClosedLedgers {
  import opened FiniteSets
  import opened Wrappers
  import opened CreditModel
  import opened Accumulator
  import opened IntervalLists
  import opened AccumulatorLaws
  import opened TimeConservation
  import opened ObservedOpen

  // ---------- closing a list, counter by counter ----------

  predicate Fits(duration: int, b: nat) {
    b < 6 && (b > 0 ==> THRESHOLDS[b - 1] <= duration) && (b < 5 ==> duration < THRESHOLDS[b])
  }

  function One(): OpenInterval -> int { (x: OpenInterval) => 1 }
  function InBucket(b: nat, now: int): OpenInterval -> int { (x: OpenInterval) => if Fits(now - x.openedAt, b) then 1 else 0 }
  function InBucketOf(kind: IntervalClass, b: nat, now: int): OpenInterval -> int {
    (x: OpenInterval) => if x.kind == kind && Fits(now - x.openedAt, b) then 1 else 0
  }

  lemma BumpFits(h: Histogram, duration: int, b: nat)
    requires b < 6
    ensures Bump(h, duration)[b] == h[b] + (if Fits(duration, b) then 1 else 0)
  {
  }

  lemma {:induction false} CloseAllCounters(books: Books, s: seq<OpenInterval>, now: nat, ledger: Ledger)
    ensures var c, c' := books.counters, CloseAll(books, s, now, ledger).counters;
            && c'.readiness == c.readiness + (if ledger.ReadinessLedger? then |s| else 0)
            && c'.dispatch == c.dispatch + (if ledger.DispatchLedger? then |s| else 0)
            && c'.active == c.active + (if ledger.ActivityLedger? then |s| else 0)
            && c'.recovery == c.recovery + (if ledger.RecoveryLedger? then |s| else 0)
            && c'.human == c.human + Total(s, CountOf(HumanActive)) && c'.authority == c.authority + Total(s, CountOf(AuthorityWait))
            && c'.falseIndependence == c.falseIndependence
    decreases |s|
  {
    hide Bump;
    if s != [] {
      CloseAllCounters(Close(books, s[0], now, ledger), s[1..], now, ledger);
    }
  }

  lemma {:induction false} CloseActiveCounters(books: Books, s: seq<OpenInterval>, now: nat)
    requires forall x :: x in s ==> x.kind == ReservedDispatch || x.kind == Operation
    ensures var c, c' := books.counters, CloseActive(books, s, now).counters;
            && c'.dispatch == c.dispatch + Total(s, CountOf(ReservedDispatch)) && c'.active == c.active + Total(s, CountOf(Operation))
            && c'.readiness == c.readiness && c'.recovery == c.recovery && c'.human == c.human && c'.authority == c.authority
            && c'.falseIndependence == c.falseIndependence
    decreases |s|
  {
    hide Bump;
    if s != [] {
      assert s[0] in s;
      CloseActiveCounters(Close(books, s[0], now, ActiveLedger(s[0])), s[1..], now);
    }
  }

  lemma {:induction false} CloseAllBuckets(books: Books, s: seq<OpenInterval>, now: nat, ledger: Ledger, b: nat)
    requires b < 6
    ensures var h, h' := books.histograms, CloseAll(books, s, now, ledger).histograms;
            && h'.readinessWait[b] == h.readinessWait[b] + (if ledger.ReadinessLedger? then Total(s, InBucket(b, now)) else 0)
            && h'.dispatchWait[b] == h.dispatchWait[b] + (if ledger.DispatchLedger? then Total(s, InBucket(b, now)) else 0)
            && h'.recovery[b] == h.recovery[b] + (if ledger.RecoveryLedger? then Total(s, InBucket(b, now)) else 0)
    decreases |s|
  {
    if s != [] {
      var d := now - s[0].openedAt;
      BumpFits(books.histograms.readinessWait, d, b);
      BumpFits(books.histograms.dispatchWait, d, b);
      BumpFits(books.histograms.recovery, d, b);
      hide Bump, Fits;
      CloseAllBuckets(Close(books, s[0], now, ledger), s[1..], now, ledger, b);
    }
  }

  lemma {:induction false} CloseActiveBuckets(books: Books, s: seq<OpenInterval>, now: nat, b: nat)
    requires b < 6 && forall x :: x in s ==> x.kind == ReservedDispatch || x.kind == Operation
    ensures var h, h' := books.histograms, CloseActive(books, s, now).histograms;
            && h'.dispatchWait[b] == h.dispatchWait[b] + Total(s, InBucketOf(ReservedDispatch, b, now))
            && h'.readinessWait == h.readinessWait && h'.recovery == h.recovery
    decreases |s|
  {
    if s != [] {
      assert s[0] in s;
      BumpFits(books.histograms.dispatchWait, now - s[0].openedAt, b);
      hide Bump, Fits;
      CloseActiveBuckets(Close(books, s[0], now, ActiveLedger(s[0])), s[1..], now, b);
    }
  }

  // ---------- the four lists together ----------

  /** The books after closing these intervals at one time. */
  ghost predicate Closed(before: Books, after: Books, open: Open, now: int) {
    var c, c', s, s' := before.counters, after.counters, before.sums, after.sums;
    && c'.readiness == c.readiness + Total(open.readiness, One()) && c'.dispatch == c.dispatch + Total(open.active, CountOf(ReservedDispatch))
    && c'.active == c.active + Total(open.active, CountOf(Operation)) && c'.recovery == c.recovery + Total(open.recovery, One())
    && c'.human == c.human + Total(open.human, CountOf(HumanActive)) && c'.authority == c.authority + Total(open.human, CountOf(AuthorityWait))
    && c'.falseIndependence == c.falseIndependence
    && s' == Sums(s.readinessWait + Total(open.readiness, Ages(now)), s.dispatchWait + Total(open.active, AgesOf(ReservedDispatch, now)),
                  s.humanActive + Total(open.human, AgesOf(HumanActive, now)), s.authorityWait + Total(open.human, AgesOf(AuthorityWait, now)),
                  s.recovery + Total(open.recovery, Ages(now)), s.falseIndependenceWaste)
    && forall b: nat :: b < 6 ==> ClosedBucket(before, after, open, now, b)
  }

  ghost predicate ClosedBucket(before: Books, after: Books, open: Open, now: int, b: nat)
    requires b < 6
  {
    var h, h' := before.histograms, after.histograms;
    && h'.readinessWait[b] == h.readinessWait[b] + Total(open.readiness, InBucket(b, now))
    && h'.dispatchWait[b] == h.dispatchWait[b] + Total(open.active, InBucketOf(ReservedDispatch, b, now))
    && h'.recovery[b] == h.recovery[b] + Total(open.recovery, InBucket(b, now))
  }

  lemma CensorCloses(books: Books, open: Open, now: nat)
    requires WellKinded(open)
    ensures Closed(books, CensorBooks(books, open, now), open, now)
  {
    CensorCounters(books, open, now);
    ClosedSums(books, open.readiness, open.active, open.human, open.recovery, now);
    hide CensorBooks, Total, Ages, AgesOf, CountOf, One, InBucket, InBucketOf, WellKinded;
    forall b: nat | b < 6 ensures ClosedBucket(books, CensorBooks(books, open, now), open, now, b) {
      CensorBuckets(books, open, now, b);
    }
  }

  lemma NoneOf(s: seq<OpenInterval>, kind: IntervalClass)
    requires forall x :: x in s ==> x.kind != kind
    ensures Total(s, CountOf(kind)) == 0
  {
    TotalZero(s, CountOf(kind));
  }

  lemma CensorCounters(books: Books, open: Open, now: nat)
    requires WellKinded(open)
    ensures var c, c' := books.counters, CensorBooks(books, open, now).counters;
            && c'.readiness == c.readiness + Total(open.readiness, One()) && c'.dispatch == c.dispatch + Total(open.active, CountOf(ReservedDispatch))
            && c'.active == c.active + Total(open.active, CountOf(Operation)) && c'.recovery == c.recovery + Total(open.recovery, One())
            && c'.human == c.human + Total(open.human, CountOf(HumanActive)) && c'.authority == c.authority + Total(open.human, CountOf(AuthorityWait))
            && c'.falseIndependence == c.falseIndependence
  {
    NoneOf(open.readiness, HumanActive);
    NoneOf(open.readiness, AuthorityWait);
    NoneOf(open.recovery, HumanActive);
    NoneOf(open.recovery, AuthorityWait);
    TotalOnes(open.readiness, One());
    TotalOnes(open.recovery, One());
    hide Total, CountOf, One;
    var b1 := CloseAll(books, open.readiness, now, ReadinessLedger);
    var b2 := CloseActive(b1, open.active, now);
    var b3 := CloseAll(b2, open.human, now, NoLedger);
    CloseAllCounters(books, open.readiness, now, ReadinessLedger);
    CloseActiveCounters(b1, open.active, now);
    CloseAllCounters(b2, open.human, now, NoLedger);
    CloseAllCounters(b3, open.recovery, now, RecoveryLedger);
  }

  lemma CensorBuckets(books: Books, open: Open, now: nat, b: nat)
    requires WellKinded(open) && b < 6
    ensures ClosedBucket(books, CensorBooks(books, open, now), open, now, b)
  {
    hide Total, InBucket, InBucketOf;
    var b1 := CloseAll(books, open.readiness, now, ReadinessLedger);
    var b2 := CloseActive(b1, open.active, now);
    var b3 := CloseAll(b2, open.human, now, NoLedger);
    CloseAllBuckets(books, open.readiness, now, ReadinessLedger, b);
    CloseActiveBuckets(b1, open.active, now, b);
    CloseAllBuckets(b2, open.human, now, NoLedger, b);
    CloseAllBuckets(b3, open.recovery, now, RecoveryLedger, b);
  }

  // ---------- what a fold closes ----------

  /** The intervals of a list that the next one does not go on with. */
  ghost predicate Dropped(dropped: seq<OpenInterval>, prior: seq<OpenInterval>, next: seq<OpenInterval>) {
    && SortedByHash(dropped)
    && forall x :: x in dropped <==> x in prior && !Lists(next, x.hash, x.kind)
  }

  /** After a break everything is closed at the last boundary; otherwise what is not observed any more, now. */
  ghost predicate Settles(a: Accumulator, o: Observation, next: Open, closed: Open, end: int) {
    if Unbroken(a, o) then
      && end == o.tick
      && Dropped(closed.readiness, a.open.readiness, next.readiness) && Dropped(closed.active, a.open.active, next.active)
      && Dropped(closed.human, a.open.human, next.human) && Dropped(closed.recovery, a.open.recovery, next.recovery)
    else closed == a.open && end == a.source.tick
  }

  lemma FilterSorted(s: seq<OpenInterval>, p: OpenInterval -> bool)
    requires SortedByHash(s)
    ensures SortedByHash(Filter(s, p))
  {
    if s != [] {
      FilterSorted(s[1..], p);
      var rest := Filter(s[1..], p);
      forall i | 0 <= i < |rest| ensures s[0].hash < rest[i].hash {
        assert rest[i] in s[1..];
      }
    }
  }

  lemma FilterDrops(prior: seq<OpenInterval>, p: OpenInterval -> bool, next: seq<OpenInterval>)
    requires SortedByHash(prior) && forall x :: x in prior ==> (p(x) <==> !Lists(next, x.hash, x.kind))
    ensures Dropped(Filter(prior, p), prior, next)
  {
    FilterSorted(prior, p);
  }

  /** A fold closes exactly the intervals it does not go on with, each once, for as long as it was open. */
  lemma FoldCloses(a: Accumulator, o: Observation) returns (closed: Open)
    requires Fold(a, o).Success? && a.source.revision < o.revision && WellKinded(a.open)
    ensures var b := Fold(a, o).value; var end := if Unbroken(a, o) then o.tick else a.source.tick;
            && Settles(a, o, b.open, closed, end)
            && Closed(if Unbroken(a, o) then BookIncidents(a.books, o) else a.books, b.books, closed, end)
  {
    FoldedParts(a, o);
    NextBooks(a, o);
    hide Next, Fold, Closed, Settles, Consistent, ValidObservation, Contiguous, ReconcileOpen, ReconcileBooks, CensorBooks, EndedOpen;
    if Contiguous(a, o) {
      closed := EndedOpen(a.open, o);
      EndedIsDropped(a, o);
      EndedWellKinded(a.open, o);
      CensorCloses(BookIncidents(a.books, o), closed, o.tick);
    } else {
      closed := a.open;
      CensorCloses(a.books, a.open, a.source.tick);
      EndsAtBoundary(a, o, ReconcileOpen(NOTHING_OPEN, o));
    }
  }

  lemma EndsAtBoundary(a: Accumulator, o: Observation, next: Open)
    requires !Contiguous(a, o)
    ensures Settles(a, o, next, a.open, a.source.tick)
  {
  }

  lemma NextBooks(a: Accumulator, o: Observation)
    requires a.source.revision < o.revision && WellKinded(a.open)
    ensures Next(a, o).books == if Contiguous(a, o) then CensorBooks(BookIncidents(a.books, o), EndedOpen(a.open, o), o.tick) else CensorBooks(a.books, a.open, a.source.tick)
  {
    hide ReconcileOpen, ReconcileBooks, CensorBooks, WellKinded, Integrate, CoverRevisions, TickClock, BookIncidents, EndedOpen;
    ReconcileBooksOpened(BookIncidents(a.books, o), a.open, o);
  }

  lemma EndedWellKinded(open: Open, o: Observation)
    requires WellKinded(open)
    ensures WellKinded(EndedOpen(open, o))
  {
  }

  lemma EndedIsDropped(a: Accumulator, o: Observation)
    requires Consistent(a) && WellKinded(a.open) && ValidObservation(o) && Contiguous(a, o)
    ensures Settles(a, o, ReconcileOpen(a.open, o), EndedOpen(a.open, o), o.tick)
  {
    ListsSorted(a);
    var open := a.open;
    EndsReconciled(open.readiness, o.ready, ReadyKind(), o);
    EndsReconciled(open.human, o.human + o.authority, HumanKind(o.authority), o);
    EndsReconciled(open.recovery, o.recovery, RecoveryKind(), o);
    EndsActiveReconciled(open.active, o);
    hide Reconciled, ReconciledActive, Dropped, Filter;
  }

  lemma ListsSorted(a: Accumulator)
    requires Consistent(a)
    ensures SortedByHash(a.open.readiness) && SortedByHash(a.open.active) && SortedByHash(a.open.human) && SortedByHash(a.open.recovery)
  {
  }

  lemma EndsReconciled(prior: seq<OpenInterval>, hashes: seq<Hash>, kindOf: Hash -> IntervalClass, o: Observation)
    requires SortedByHash(prior) && UniqueList(hashes)
    ensures Dropped(Filter(prior, Ends(hashes, kindOf)), prior, Reconciled(prior, hashes, kindOf, o))
  {
    ReconciledObserved(prior, hashes, kindOf, o);
    hide Reconciled, Filter, Lists;
    FilterDrops(prior, Ends(hashes, kindOf), Reconciled(prior, hashes, kindOf, o));
  }

  lemma EndsActiveReconciled(prior: seq<OpenInterval>, o: Observation)
    requires SortedByHash(prior) && ValidObservation(o) && forall x :: x in prior ==> x.kind == ReservedDispatch || x.kind == Operation
    ensures Dropped(Filter(prior, EndsActive(o)), prior, ReconciledActive(prior, o))
  {
    ActiveObserved(prior, o);
    hide ReconciledActive, Filter, Lists, ValidObservation;
    forall h ensures h in OperationHashes(o.active) <==> exists i :: 0 <= i < |o.active| && o.active[i].hash == h {
      if h in OperationHashes(o.active) {
        var i :| 0 <= i < |o.active| && OperationHashes(o.active)[i] == h;
      }
      if i :| 0 <= i < |o.active| && o.active[i].hash == h {
        assert OperationHashes(o.active)[i] == h;
      }
    }
    FilterDrops(prior, EndsActive(o), ReconciledActive(prior, o));
  }

  // ---------- booked waste ----------

  /** Operation h is wasted at tick t. */
  ghost predicate WastedAt(o: Observation, count: nat, h: Hash, t: int)
    requires count <= |o.incidents|
  {
    exists k :: 0 <= k < count && h in o.incidents[k].operations && o.incidents[k].wasteStart <= t < o.tick
  }

  ghost function Column(h: Hash, lo: int, hi: int): set<(Hash, int)> {
    set t | lo <= t < hi :: (h, t)
  }

  lemma {:induction false} ColumnSize(h: Hash, lo: int, hi: int)
    requires lo <= hi
    ensures |Column(h, lo, hi)| == hi - lo
    decreases hi - lo
  {
    if lo == hi {
      assert Column(h, lo, hi) == {};
    } else {
      ColumnSize(h, lo, hi - 1);
      assert Column(h, lo, hi) == Column(h, lo, hi - 1) + {(h, hi - 1)};
    }
  }

  ghost function Block(operations: seq<Hash>, lo: int, hi: int): set<(Hash, int)> {
    if operations == [] then {} else Column(operations[0], lo, hi) + Block(operations[1..], lo, hi)
  }

  lemma {:induction false} BlockMembers(operations: seq<Hash>, lo: int, hi: int, h: Hash, t: int)
    ensures (h, t) in Block(operations, lo, hi) <==> h in operations && lo <= t < hi
  {
    if operations != [] {
      BlockMembers(operations[1..], lo, hi, h, t);
      assert h in operations <==> h == operations[0] || h in operations[1..];
    }
  }

  lemma {:induction false} BlockSize(operations: seq<Hash>, lo: int, hi: int)
    requires lo <= hi && SortedUnique(operations)
    ensures |Block(operations, lo, hi)| == (hi - lo) * |operations|
  {
    if operations != [] {
      BlockSize(operations[1..], lo, hi);
      ColumnSize(operations[0], lo, hi);
      ColumnApart(operations, lo, hi);
      hide Column, SortedUnique;
      OneMore(hi - lo, |operations[1..]|);
    }
  }

  lemma ColumnApart(operations: seq<Hash>, lo: int, hi: int)
    requires operations != [] && SortedUnique(operations)
    ensures Column(operations[0], lo, hi) !! Block(operations[1..], lo, hi)
  {
    forall p | p in Column(operations[0], lo, hi) ensures p !in Block(operations[1..], lo, hi) {
      BlockMembers(operations[1..], lo, hi, p.0, p.1);
    }
  }

  lemma OneMore(d: int, n: int)
    ensures d * (n + 1) == d + d * n
  {
  }

  /** The pairs of an operation and a tick at which it was wasted. */
  ghost function WastedTicks(o: Observation, count: nat): set<(Hash, int)>
    requires count <= |o.incidents|
  {
    if count == 0 then {}
    else WastedTicks(o, count - 1) + Block(o.incidents[count - 1].operations, o.incidents[count - 1].wasteStart, o.tick)
  }

  lemma {:induction false} WastedTicksAre(o: Observation, count: nat, h: Hash, t: int)
    requires count <= |o.incidents|
    ensures (h, t) in WastedTicks(o, count) <==> WastedAt(o, count, h, t)
  {
    if count > 0 {
      WastedTicksAre(o, count - 1, h, t);
      BlockMembers(o.incidents[count - 1].operations, o.incidents[count - 1].wasteStart, o.tick, h, t);
    }
  }

  /** The waste booked for the incidents of an observation is the number of ticks of operations they waste, none twice. */
  lemma {:induction false} WasteIsTicks(o: Observation, count: nat)
    requires count <= |o.incidents| && ValidIncidents(o.incidents, o.context)
    requires forall i :: 0 <= i < |o.incidents| ==> o.incidents[i].wasteStart <= o.tick
    ensures Waste(o, count) == |WastedTicks(o, count)|
  {
    if count > 0 {
      WasteIsTicks(o, count - 1);
      var i := o.incidents[count - 1];
      IncidentSorted(o, count - 1);
      hide ValidIncidents, WastedAt, Block, SortedUnique;
      BlockSize(i.operations, i.wasteStart, o.tick);
      NotWastedBefore(o, count);
    }
  }

  lemma IncidentSorted(o: Observation, k: nat)
    requires k < |o.incidents| && ValidIncidents(o.incidents, o.context)
    ensures SortedUnique(o.incidents[k].operations)
  {
  }

  lemma NotWastedBefore(o: Observation, count: nat)
    requires 0 < count <= |o.incidents| && ValidIncidents(o.incidents, o.context)
    ensures WastedTicks(o, count - 1) !! Block(o.incidents[count - 1].operations, o.incidents[count - 1].wasteStart, o.tick)
  {
    var i := o.incidents[count - 1];
    hide WastedTicks, Block;
    forall p | p in WastedTicks(o, count - 1) ensures p !in Block(i.operations, i.wasteStart, o.tick) {
      WastedTicksAre(o, count - 1, p.0, p.1);
      assert (p.0, p.1) == p;
      BlockMembers(i.operations, i.wasteStart, o.tick, p.0, p.1);
      var k :| 0 <= k < count - 1 && p.0 in o.incidents[k].operations && o.incidents[k].wasteStart <= p.1 < o.tick;
      assert Disjoint(o.incidents[k].operations, i.operations);
    }
  }

  /** A fold books one incident each, and the ticks of operations wasted up to it; a break books none. */
  lemma FoldBooksWaste(a: Accumulator, o: Observation)
    requires Fold(a, o).Success? && a.source.revision < o.revision && WellKinded(a.open)
    ensures var b := Fold(a, o).value.books;
            && b.counters.falseIndependence == a.books.counters.falseIndependence + |o.incidents|
            && b.sums.falseIndependenceWaste == a.books.sums.falseIndependenceWaste + |WastedTicks(o, |o.incidents|)|
    ensures forall h: Hash, t: int :: (h, t) in WastedTicks(o, |o.incidents|) <==> WastedAt(o, |o.incidents|, h, t)
  {
    var closed := FoldCloses(a, o);
    FoldedParts(a, o);
    NoWasteOnBreak(a, o);
    if Contiguous(a, o) {
      NoIncidentError(a, o, 0);
    }
    hide Settles, Next, Fold, Consistent, WastedTicks, Waste;
    IncidentsValid(o);
    WasteIsTicks(o, |o.incidents|);
    forall h: Hash, t: int ensures (h, t) in WastedTicks(o, |o.incidents|) <==> WastedAt(o, |o.incidents|, h, t) {
      WastedTicksAre(o, |o.incidents|, h, t);
    }
  }

  lemma NoWasteOnBreak(a: Accumulator, o: Observation)
    requires Fold(a, o).Success? && a.source.revision < o.revision
    ensures !Contiguous(a, o) ==> o.incidents == []
  {
    hide Next, ValidAccumulator, ValidObservation;
  }

  lemma IncidentsValid(o: Observation)
    requires ValidObservation(o)
    ensures ValidIncidents(o.incidents, o.context)
  {
  }

  // ---------- which observations a fold takes in ----------

  /** The incident lies within the interval folded, and wastes only operations that were open. */
  predicate Attributable(a: Accumulator, o: Observation, i: Incident) {
    && a.source.tick <= i.wasteStart <= o.tick
    && forall k :: 0 <= k < |i.operations| ==> Lists(a.open.active, i.operations[k], Operation)
  }

  lemma OpenOperationListed(s: seq<OpenInterval>, h: Hash)
    ensures Lists(s, h, Operation) <==> OpenOperation(s, h)
  {
  }

  lemma AttributableIs(a: Accumulator, o: Observation, incident: Incident)
    ensures Attributable(a, o, incident) <==> InWindow(a, o, incident) && OnOpenOperations(a, incident)
  {
    hide Lists, OpenOperation;
    forall k | 0 <= k < |incident.operations|
      ensures Lists(a.open.active, incident.operations[k], Operation) <==> OpenOperation(a.open.active, incident.operations[k])
    {
      OpenOperationListed(a.open.active, incident.operations[k]);
    }
  }

  lemma {:induction false} IncidentErrorExactly(a: Accumulator, o: Observation, from: nat)
    requires from <= |o.incidents|
    ensures IncidentError(a, o, from).None? <==> forall i :: from <= i < |o.incidents| ==> Attributable(a, o, o.incidents[i])
    ensures match IncidentError(a, o, from)
            case Some(IncidentOutsideWindow(i)) => from <= i < |o.incidents| && !(a.source.tick <= o.incidents[i].wasteStart <= o.tick)
            case Some(IncidentNotOpen(i)) => from <= i < |o.incidents| && a.source.tick <= o.incidents[i].wasteStart <= o.tick && !Attributable(a, o, o.incidents[i])
            case _ => IncidentError(a, o, from).None?
    decreases |o.incidents| - from
  {
    if from < |o.incidents| {
      AttributableIs(a, o, o.incidents[from]);
      hide Attributable, OnOpenOperations;
      IncidentErrorExactly(a, o, from + 1);
    }
  }

  /** A newer valid observation in the accumulator's context is taken in exactly when its incidents are attributable and no number overflows. */
  lemma FoldSucceedsExactly(a: Accumulator, o: Observation)
    requires ValidAccumulator(a) && ValidObservation(o) && o.context == a.context && a.source.revision < o.revision
    ensures Fold(a, o).Success? <==>
              && InRange(Next(a, o))
              && (if Unbroken(a, o) then forall i :: 0 <= i < |o.incidents| ==> Attributable(a, o, o.incidents[i]) else o.incidents == [])
  {
    IncidentErrorExactly(a, o, 0);
    hide Next, InRange, ValidObservation, ValidAccumulator, IncidentError, Attributable;
  }

  // ---------- everything else ----------

  /** The identity of the observation, the clock history and the coverage counters after a fold. */
  lemma FoldStamps(a: Accumulator, o: Observation)
    requires Fold(a, o).Success? && a.source.revision < o.revision
    ensures var b := Fold(a, o).value;
            && b.context == a.context && b.source == Source(o.revision, o.snapshot, o.epoch, o.tick)
            && b.clock.initialEpoch == a.clock.initialEpoch && b.clock.currentEpoch == o.epoch
            && (b.clock.epochChanges == a.clock.epochChanges + 1 <==> o.epoch != a.source.epoch)
            && (b.clock.epochChanges == a.clock.epochChanges <==> o.epoch == a.source.epoch)
            && (b.clock.monotonicResets == a.clock.monotonicResets + 1 <==> o.tick < a.source.tick)
            && (b.clock.monotonicResets == a.clock.monotonicResets <==> a.source.tick <= o.tick)
            && (b.clock.unsupported == a.clock.unsupported + 1 <==> !o.clockSupported)
            && (b.clock.unsupported == a.clock.unsupported <==> o.clockSupported)
            && b.coverage.dropped == a.coverage.dropped + o.droppedBefore
            && b.coverage.observerFailures == a.coverage.observerFailures + o.failuresBefore
            && b.coverage.censored == a.coverage.censored + |a.open.readiness + a.open.active + a.open.human + a.open.recovery|
                                    - |CarriedOver(a, o).readiness + CarriedOver(a, o).active + CarriedOver(a, o).human + CarriedOver(a, o).recovery|
  {
    FoldedParts(a, o);
    hide Fold, Next, ReconcileOpen, ValidObservation, Consistent;
    NextStamps(a, o);
  }

  lemma NextStamps(a: Accumulator, o: Observation)
    requires a.source.revision < o.revision
    ensures var b := Next(a, o);
            && b.context == a.context && b.source == Source(o.revision, o.snapshot, o.epoch, o.tick) && b.clock == TickClock(a, o)
            && b.coverage.dropped == a.coverage.dropped + o.droppedBefore
            && b.coverage.observerFailures == a.coverage.observerFailures + o.failuresBefore
            && b.coverage.censored == a.coverage.censored + if Unbroken(a, o) then 0 else |a.open.readiness| + |a.open.active| + |a.open.human| + |a.open.recovery|
  {
    AddGapKeepsCounters(a, o);
    hide ReconcileOpen, ReconcileBooks, CensorBooks, Integrate, TickClock, Skip;
  }

  lemma AddGapKeepsCounters(a: Accumulator, o: Observation)
    requires a.source.revision < o.revision
    ensures forall c: Coverage ::
              var d := Skip(c, a.source.revision, o.revision); d.dropped == c.dropped && d.observerFailures == c.observerFailures && d.censored == c.censored
  {
  }
}
