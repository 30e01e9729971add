/**
 * Over every run, with clock resets and skipped revisions: closed waiting time plus the ages of
 * the open intervals is the integral of the open count, the histograms sum to their interval
 * counters, and booked waste never exceeds operation work.
 */
module TimeConservation {
  import opened Wrappers
  import opened CreditModel
  import opened Accumulator
  import opened IntervalLists
  import opened AccumulatorLaws

  // ---------- what closing does to the sums ----------

  lemma {:induction false} CloseAllSums(books: Books, s: seq<OpenInterval>, now: nat, ledger: Ledger)
    ensures CloseAll(books, s, now, ledger).sums == Sums(
              books.sums.readinessWait + (if ledger.ReadinessLedger? then Total(s, Ages(now)) else 0),
              books.sums.dispatchWait + (if ledger.DispatchLedger? then Total(s, Ages(now)) else 0),
              books.sums.humanActive + Total(s, AgesOf(HumanActive, now)),
              books.sums.authorityWait + Total(s, AgesOf(AuthorityWait, now)),
              books.sums.recovery + (if ledger.RecoveryLedger? then Total(s, Ages(now)) else 0),
              books.sums.falseIndependenceWaste)
    decreases |s|
  {
    if s != [] {
      CloseAllSums(Close(books, s[0], now, ledger), s[1..], now, ledger);
    }
  }

  lemma {:induction false} CloseActiveSums(books: Books, s: seq<OpenInterval>, now: nat)
    ensures CloseActive(books, s, now).sums == Sums(
              books.sums.readinessWait,
              books.sums.dispatchWait + Total(s, AgesOf(ReservedDispatch, now)),
              books.sums.humanActive + Total(s, AgesOf(HumanActive, now)),
              books.sums.authorityWait + Total(s, AgesOf(AuthorityWait, now)),
              books.sums.recovery,
              books.sums.falseIndependenceWaste)
    decreases |s|
  {
    if s != [] {
      CloseActiveSums(Close(books, s[0], now, ActiveLedger(s[0])), s[1..], now);
    }
  }

  /** Four groups closed one after another: readiness, active, human, recovery. */
  lemma ClosedSums(books: Books, readiness: seq<OpenInterval>, active: seq<OpenInterval>, human: seq<OpenInterval>, recovery: seq<OpenInterval>, now: nat)
    requires WellKinded(Open(readiness, active, human, recovery))
    ensures CensorBooks(books, Open(readiness, active, human, recovery), now).sums == Sums(
              books.sums.readinessWait + Total(readiness, Ages(now)),
              books.sums.dispatchWait + Total(active, AgesOf(ReservedDispatch, now)),
              books.sums.humanActive + Total(human, AgesOf(HumanActive, now)),
              books.sums.authorityWait + Total(human, AgesOf(AuthorityWait, now)),
              books.sums.recovery + Total(recovery, Ages(now)),
              books.sums.falseIndependenceWaste)
  {
    var b1 := CloseAll(books, readiness, now, ReadinessLedger);
    var b2 := CloseActive(b1, active, now);
    var b3 := CloseAll(b2, human, now, NoLedger);
    CloseAllSums(books, readiness, now, ReadinessLedger);
    CloseActiveSums(b1, active, now);
    CloseAllSums(b2, human, now, NoLedger);
    CloseAllSums(b3, recovery, now, RecoveryLedger);
    TotalZero(readiness, AgesOf(HumanActive, now));
    TotalZero(readiness, AgesOf(AuthorityWait, now));
    TotalZero(active, AgesOf(HumanActive, now));
    TotalZero(active, AgesOf(AuthorityWait, now));
    TotalZero(recovery, AgesOf(HumanActive, now));
    TotalZero(recovery, AgesOf(AuthorityWait, now));
  }

  // ---------- what reconciling does to a total ----------

  /** A measure that is zero on intervals opened now is split between those kept and those closed. */
  lemma ReconciledTotal(prior: seq<OpenInterval>, hashes: seq<Hash>, kindOf: Hash -> IntervalClass, o: Observation, f: OpenInterval -> int)
    requires UniqueList(hashes)
    requires forall x: OpenInterval :: x.openedAt == o.tick ==> f(x) == 0
    ensures Total(Reconciled(prior, hashes, kindOf, o), f) + Total(Filter(prior, Ends(hashes, kindOf)), f) == Total(prior, f)
  {
    var kept := Filter(prior, Stays(hashes, kindOf));
    var added := Fresh(hashes, kept, kindOf, o);
    FreshFacts(hashes, kept, kindOf, o);
    TotalSort(kept + added, f);
    TotalAppend(kept, added, f);
    TotalZero(added, f);
    TotalSplit(prior, Stays(hashes, kindOf), Ends(hashes, kindOf), f);
  }

  lemma {:induction false} RecreditTotal(kept: seq<OpenInterval>, o: Observation, f: OpenInterval -> int)
    requires forall x: OpenInterval, c :: x.kind == Operation ==> f(x.(credit := c)) == f(x)
    ensures Total(Recredit(kept, o), f) == Total(kept, f)
  {
    if kept != [] {
      RecreditTotal(kept[1..], o, f);
      assert Recredit(kept, o)[1..] == Recredit(kept[1..], o);
    }
  }

  lemma ReconciledActiveTotal(prior: seq<OpenInterval>, o: Observation, f: OpenInterval -> int)
    requires SortedByHash(prior) && ValidObservation(o)
    requires forall x :: x in prior ==> x.kind == ReservedDispatch || x.kind == Operation
    requires forall x: OpenInterval, c :: x.kind == Operation ==> f(x.(credit := c)) == f(x)
    requires forall x: OpenInterval :: x.openedAt == o.tick ==> f(x) == 0
    ensures Total(ReconciledActive(prior, o), f) + Total(Filter(prior, EndsActive(o)), f) == Total(prior, f)
  {
    var survivors := Filter(prior, StaysActive(o));
    var kept := Recredit(survivors, o);
    var reserved := Fresh(o.reserved, kept, ReservedKind(), o);
    var operations := FreshOperations(o.active, kept, o);
    ActiveGroupsUnique(prior, o, kept, reserved, operations);
    TotalSort(kept + reserved + operations, f);
    TotalAppend(kept + reserved, operations, f);
    TotalAppend(kept, reserved, f);
    TotalZero(reserved, f);
    TotalZero(operations, f);
    RecreditTotal(survivors, o, f);
    TotalSplit(prior, StaysActive(o), EndsActive(o), f);
  }

  lemma AgesAdvance(s: seq<OpenInterval>, then_: int, now: int)
    ensures Total(s, Ages(now)) == Total(s, Ages(then_)) + (now - then_) * |s|
  {
    var one := (x: OpenInterval) => 1;
    TotalShift(s, Ages(now), Ages(then_), one, now - then_);
    TotalOnes(s, one);
  }

  lemma AgesOfAdvance(s: seq<OpenInterval>, kind: IntervalClass, then_: int, now: int)
    ensures Total(s, AgesOf(kind, now)) == Total(s, AgesOf(kind, then_)) + (now - then_) * Total(s, CountOf(kind))
  {
    TotalShift(s, AgesOf(kind, now), AgesOf(kind, then_), CountOf(kind), now - then_);
  }

  // ---------- held time: closed sums plus open ages ----------

  datatype Held = Held(readiness: int, dispatch: int, human: int, authority: int, recovery: int)

  function OpenAges(open: Open, now: int): Held {
    Held(
      Total(open.readiness, Ages(now)),
      Total(open.active, AgesOf(ReservedDispatch, now)),
      Total(open.human, AgesOf(HumanActive, now)),
      Total(open.human, AgesOf(AuthorityWait, now)),
      Total(open.recovery, Ages(now)))
  }

  function ClosedTime(s: Sums): Held {
    Held(s.readinessWait, s.dispatchWait, s.humanActive, s.authorityWait, s.recovery)
  }

  function HeldTime(a: Accumulator): Held {
    Plus(ClosedTime(a.books.sums), 1, OpenAges(a.open, a.source.tick))
  }

  function OpenCounts(open: Open): Held {
    Held(
      |open.readiness|,
      Total(open.active, CountOf(ReservedDispatch)),
      Total(open.human, CountOf(HumanActive)),
      Total(open.human, CountOf(AuthorityWait)),
      |open.recovery|)
  }

  function Plus(h: Held, elapsed: int, c: Held): Held {
    Held(h.readiness + elapsed * c.readiness, h.dispatch + elapsed * c.dispatch, h.human + elapsed * c.human,
         h.authority + elapsed * c.authority, h.recovery + elapsed * c.recovery)
  }

  function ContiguousElapsed(a: Accumulator, o: Observation): int {
    if Contiguous(a, o) then o.tick - a.source.tick else 0
  }

  function EndedOpen(open: Open, o: Observation): Open {
    Open(
      Filter(open.readiness, Ends(o.ready, ReadyKind())),
      Filter(open.active, EndsActive(o)),
      Filter(open.human, Ends(o.human + o.authority, HumanKind(o.authority))),
      Filter(open.recovery, Ends(o.recovery, RecoveryKind())))
  }

  /** Ages of the next open lists plus ages of the ended ones are the ages of the prior ones. */
  lemma OpenTotals(open: Open, o: Observation)
    requires ValidObservation(o) && WellKinded(open) && SortedByHash(open.active)
    ensures Plus(OpenAges(ReconcileOpen(open, o), o.tick), 1, OpenAges(EndedOpen(open, o), o.tick)) == OpenAges(open, o.tick)
  {
    hide Reconciled, ReconciledActive, Total, Filter;
    ActiveHashesUnique(o);
    ReconciledAges(open.readiness, o.ready, ReadyKind(), o);
    ReconciledActiveAges(open.active, o);
    ReconciledAgesOf(open.human, o.human + o.authority, HumanKind(o.authority), o, HumanActive);
    ReconciledAgesOf(open.human, o.human + o.authority, HumanKind(o.authority), o, AuthorityWait);
    ReconciledAges(open.recovery, o.recovery, RecoveryKind(), o);
  }

  lemma ReconciledAges(prior: seq<OpenInterval>, hashes: seq<Hash>, kindOf: Hash -> IntervalClass, o: Observation)
    requires UniqueList(hashes)
    ensures Total(Reconciled(prior, hashes, kindOf, o), Ages(o.tick)) + Total(Filter(prior, Ends(hashes, kindOf)), Ages(o.tick)) == Total(prior, Ages(o.tick))
  {
    ReconciledTotal(prior, hashes, kindOf, o, Ages(o.tick));
  }

  lemma ReconciledAgesOf(prior: seq<OpenInterval>, hashes: seq<Hash>, kindOf: Hash -> IntervalClass, o: Observation, kind: IntervalClass)
    requires UniqueList(hashes)
    ensures Total(Reconciled(prior, hashes, kindOf, o), AgesOf(kind, o.tick)) + Total(Filter(prior, Ends(hashes, kindOf)), AgesOf(kind, o.tick)) == Total(prior, AgesOf(kind, o.tick))
  {
    ReconciledTotal(prior, hashes, kindOf, o, AgesOf(kind, o.tick));
  }

  lemma ReconciledActiveAges(prior: seq<OpenInterval>, o: Observation)
    requires SortedByHash(prior) && ValidObservation(o)
    requires forall x :: x in prior ==> x.kind == ReservedDispatch || x.kind == Operation
    ensures Total(ReconciledActive(prior, o), AgesOf(ReservedDispatch, o.tick)) + Total(Filter(prior, EndsActive(o)), AgesOf(ReservedDispatch, o.tick))
         == Total(prior, AgesOf(ReservedDispatch, o.tick))
  {
    ReconciledActiveTotal(prior, o, AgesOf(ReservedDispatch, o.tick));
  }

  lemma OpenAdvance(open: Open, then_: int, now: int)
    ensures OpenAges(open, now) == Plus(OpenAges(open, then_), now - then_, OpenCounts(open))
  {
    AgesAdvance(open.readiness, then_, now);
    AgesOfAdvance(open.active, ReservedDispatch, then_, now);
    AgesOfAdvance(open.human, HumanActive, then_, now);
    AgesOfAdvance(open.human, AuthorityWait, then_, now);
    AgesAdvance(open.recovery, then_, now);
  }

  lemma CensorConserves(books: Books, open: Open, boundary: nat)
    requires WellKinded(open)
    ensures ClosedTime(CensorBooks(books, open, boundary).sums) == Plus(ClosedTime(books.sums), 1, OpenAges(open, boundary))
  {
    ClosedSums(books, open.readiness, open.active, open.human, open.recovery, boundary);
  }

  lemma ReconcileIsCensorOfEnded(books: Books, open: Open, o: Observation)
    requires WellKinded(open)
    ensures WellKinded(EndedOpen(open, o))
    ensures ReconcileBooks(books, open, o) == CensorBooks(books, EndedOpen(open, o), o.tick)
  {
  }

  lemma NothingHeld(o: Observation)
    ensures WellKinded(NOTHING_OPEN) && SortedByHash(NOTHING_OPEN.active)
    ensures OpenAges(NOTHING_OPEN, o.tick) == Held(0, 0, 0, 0, 0)
    ensures OpenAges(EndedOpen(NOTHING_OPEN, o), o.tick) == Held(0, 0, 0, 0, 0)
  {
  }

  lemma ReconcileConserves(books: Books, open: Open, o: Observation, then_: int)
    requires ValidObservation(o) && WellKinded(open) && SortedByHash(open.active)
    ensures Plus(ClosedTime(ReconcileBooks(books, open, o).sums), 1, OpenAges(ReconcileOpen(open, o), o.tick))
         == Plus(Plus(ClosedTime(books.sums), 1, OpenAges(open, then_)), o.tick - then_, OpenCounts(open))
  {
    hide ReconcileBooks, CensorBooks, ReconcileOpen, OpenAges, OpenCounts, EndedOpen, ValidObservation, Plus;
    ReconcileIsCensorOfEnded(books, open, o);
    CensorConserves(books, EndedOpen(open, o), o.tick);
    OpenTotals(open, o);
    OpenAdvance(open, then_, o.tick);
    PlusRegroup(ClosedTime(books.sums), OpenAges(ReconcileOpen(open, o), o.tick), OpenAges(EndedOpen(open, o), o.tick), OpenAges(open, o.tick), OpenAges(open, then_), o.tick - then_, OpenCounts(open));
  }

  lemma PlusRegroup(closed: Held, kept: Held, ended: Held, now: Held, before: Held, elapsed: int, counts: Held)
    requires Plus(kept, 1, ended) == now && now == Plus(before, elapsed, counts)
    ensures Plus(Plus(closed, 1, ended), 1, kept) == Plus(Plus(closed, 1, before), elapsed, counts)
  {
  }

  lemma PlusZero(h: Held, kept: Held)
    ensures Plus(kept, 1, Held(0, 0, 0, 0, 0)) == Held(0, 0, 0, 0, 0) ==> Plus(h, 1, kept) == h
  {
  }

  lemma ReopenConserves(books: Books, open: Open, o: Observation, boundary: nat)
    requires ValidObservation(o) && WellKinded(open)
    ensures Plus(ClosedTime(CensorBooks(books, open, boundary).sums), 1, OpenAges(ReconcileOpen(NOTHING_OPEN, o), o.tick))
         == Plus(ClosedTime(books.sums), 1, OpenAges(open, boundary))
  {
    hide *;
    NothingHeld(o);
    CensorConserves(books, open, boundary);
    OpenTotals(NOTHING_OPEN, o);
    PlusZero(ClosedTime(CensorBooks(books, open, boundary).sums), OpenAges(ReconcileOpen(NOTHING_OPEN, o), o.tick));
  }

  /** One fold moves held time by elapsed time multiplied by the open counts, or not at all. */
  lemma FoldConservesTime(a: Accumulator, o: Observation)
    requires WellKinded(a.open) && SortedByHash(a.open.active) && ValidObservation(o) && a.source.revision < o.revision
    ensures HeldTime(Next(a, o)) == Plus(HeldTime(a), ContiguousElapsed(a, o), OpenCounts(a.open))
  {
    hide ReconcileBooks, CensorBooks, ReconcileOpen, OpenAges, OpenCounts, ValidObservation, TickClock, CoverRevisions, Integrate, WellKinded;
    if Contiguous(a, o) {
      ReconcileConserves(BookIncidents(a.books, o), a.open, o, a.source.tick);
    } else {
      ReopenConserves(a.books, a.open, o, a.source.tick);
    }
  }

  // ---------- histograms and waste ----------

  function HistogramTotal(h: Histogram): nat {
    h[0] + h[1] + h[2] + h[3] + h[4] + h[5]
  }

  predicate HistogramsBalance(b: Books) {
    && HistogramTotal(b.histograms.readinessWait) == b.counters.readiness
    && HistogramTotal(b.histograms.dispatchWait) == b.counters.dispatch
    && HistogramTotal(b.histograms.recovery) == b.counters.recovery
  }

  lemma BumpAddsOne(h: Histogram, duration: int)
    ensures HistogramTotal(Bump(h, duration)) == HistogramTotal(h) + 1
  {
  }

  lemma CloseBalances(b: Books, x: OpenInterval, now: nat, ledger: Ledger)
    requires HistogramsBalance(b)
    ensures HistogramsBalance(Close(b, x, now, ledger))
  {
    BumpAddsOne(b.histograms.readinessWait, now - x.openedAt);
    BumpAddsOne(b.histograms.dispatchWait, now - x.openedAt);
    BumpAddsOne(b.histograms.recovery, now - x.openedAt);
    hide Bump, HistogramTotal;
  }

  /** The waits whose closed time one closing adds to. */
  function Counted(kind: IntervalClass, ledger: Ledger): Held {
    Held(if ledger == ReadinessLedger then 1 else 0, if ledger == DispatchLedger then 1 else 0, if kind == HumanActive then 1 else 0,
         if kind == AuthorityWait then 1 else 0, if ledger == RecoveryLedger then 1 else 0)
  }

  /** One closing moves the interval's whole duration to the closed time of its waits. */
  lemma CloseAddsDuration(b: Books, x: OpenInterval, now: nat, ledger: Ledger)
    ensures ClosedTime(Close(b, x, now, ledger).sums) == Plus(ClosedTime(b.sums), now - x.openedAt, Counted(x.kind, ledger))
  {
    hide Bump;
  }

  lemma {:induction false} CloseAllBalances(b: Books, s: seq<OpenInterval>, now: nat, ledger: Ledger)
    requires HistogramsBalance(b)
    ensures HistogramsBalance(CloseAll(b, s, now, ledger))
    decreases |s|
  {
    hide Close, HistogramsBalance;
    if s != [] {
      CloseBalances(b, s[0], now, ledger);
      CloseAllBalances(Close(b, s[0], now, ledger), s[1..], now, ledger);
    }
  }

  lemma {:induction false} CloseActiveBalances(b: Books, s: seq<OpenInterval>, now: nat)
    requires HistogramsBalance(b)
    ensures HistogramsBalance(CloseActive(b, s, now))
    decreases |s|
  {
    hide Close, HistogramsBalance;
    if s != [] {
      CloseBalances(b, s[0], now, ActiveLedger(s[0]));
      CloseActiveBalances(Close(b, s[0], now, ActiveLedger(s[0])), s[1..], now);
    }
  }

  lemma CensorBalances(b: Books, open: Open, now: nat)
    requires HistogramsBalance(b)
    ensures HistogramsBalance(CensorBooks(b, open, now))
  {
    hide HistogramsBalance, CloseAll, CloseActive;
    var b1 := CloseAll(b, open.readiness, now, ReadinessLedger);
    var b2 := CloseActive(b1, open.active, now);
    var b3 := CloseAll(b2, open.human, now, NoLedger);
    CloseAllBalances(b, open.readiness, now, ReadinessLedger);
    CloseActiveBalances(b1, open.active, now);
    CloseAllBalances(b2, open.human, now, NoLedger);
    CloseAllBalances(b3, open.recovery, now, RecoveryLedger);
  }

  /** The wait histograms keep summing to their interval counters, from any accumulator where they do. */
  lemma FoldBalancesHistograms(a: Accumulator, o: Observation)
    requires HistogramsBalance(a.books) && a.source.revision < o.revision
    ensures HistogramsBalance(Next(a, o).books)
  {
    hide TickClock, CoverRevisions, Integrate, ReconcileOpen, CensorBooks;
    if Contiguous(a, o) {
      var books := BookIncidents(a.books, o);
      assert HistogramsBalance(books) by { hide HistogramTotal; }
      CensorBalances(books, EndedOpen(a.open, o), o.tick);
      assert ReconcileBooks(books, a.open, o) == CensorBooks(books, EndedOpen(a.open, o), o.tick) by {
        ReconcileBooksOpened(books, a.open, o);
      }
    } else {
      CensorBalances(a.books, a.open, a.source.tick);
    }
  }

  lemma ReconcileBooksOpened(books: Books, open: Open, o: Observation)
    ensures ReconcileBooks(books, open, o) == CensorBooks(books, EndedOpen(open, o), o.tick)
  {
  }
}
