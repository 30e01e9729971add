/**
 * The offline event sweep over whole intervals, proved exact against lengths and union measures.
 */
module IntervalSweep {
  import opened Wrappers
  import opened CreditModel
  import opened TickArea

  datatype OperationInterval = OperationInterval(hash: Hash, span: Span, credit: Option<CreditBasis>)
  datatype WaitInterval = WaitInterval(hash: Hash, span: Span)

  datatype Totals = Totals(
    autonomousElapsed: int,
    allOperationWork: int,
    creditableWork: int,
    usefulOverlap: int,
    parallelOpportunity: int)

  datatype SweepError = InvalidIntervals

  // ---------- the reference: lengths and measures, with no events ----------

  function OperationSpans(operations: seq<OperationInterval>): seq<Span> {
    if operations == [] then [] else [operations[0].span] + OperationSpans(operations[1..])
  }

  function CreditedSpans(operations: seq<OperationInterval>): seq<Span> {
    if operations == [] then []
    else (if operations[0].credit.Some? then [operations[0].span] else []) + CreditedSpans(operations[1..])
  }

  function WaitSpans(waits: seq<WaitInterval>): seq<Span> {
    if waits == [] then [] else [waits[0].span] + WaitSpans(waits[1..])
  }

  function EarliestStart(spans: seq<Span>): nat
    requires spans != []
  {
    if |spans| == 1 then spans[0].start
    else
      var rest := EarliestStart(spans[1..]);
      if spans[0].start < rest then spans[0].start else rest
  }

  function LatestEnd(spans: seq<Span>): nat
    requires spans != []
  {
    if |spans| == 1 then spans[0].end
    else
      var rest := LatestEnd(spans[1..]);
      if spans[0].end > rest then spans[0].end else rest
  }

  function ReferenceTotals(operations: seq<OperationInterval>, waits: seq<WaitInterval>): Totals {
    var work := OperationSpans(operations);
    var credited := CreditedSpans(operations);
    var exposed := work + WaitSpans(waits);
    Totals(
      if exposed == [] then 0 else LatestEnd(exposed) - EarliestStart(exposed),
      TotalLength(work),
      TotalLength(credited),
      TotalLength(credited) - |CoveredTicks(credited)|,
      TotalLength(exposed) - |CoveredTicks(exposed)|)
  }

  predicate OrderedSpans(operations: seq<OperationInterval>, waits: seq<WaitInterval>) {
    && (forall i :: 0 <= i < |operations| ==> operations[i].span.start <= operations[i].span.end)
    && (forall i :: 0 <= i < |waits| ==> waits[i].span.start <= waits[i].span.end)
  }

  predicate CreditsAccepted(operations: seq<OperationInterval>, context: CreditContext) {
    forall i :: 0 <= i < |operations| ==> Creditable(operations[i].credit, context)
  }

  predicate DistinctHashes(operations: seq<OperationInterval>, waits: seq<WaitInterval>) {
    && (forall i, j :: 0 <= i < j < |operations| ==> operations[i].hash != operations[j].hash)
    && (forall i, j :: 0 <= i < j < |waits| ==> waits[i].hash != waits[j].hash)
    && (forall i, j :: 0 <= i < |operations| && 0 <= j < |waits| ==> operations[i].hash != waits[j].hash)
  }

  predicate ValidSweepInput(operations: seq<OperationInterval>, waits: seq<WaitInterval>, context: CreditContext) {
    ValidContext(context) && OrderedSpans(operations, waits) && CreditsAccepted(operations, context) && DistinctHashes(operations, waits)
  }

  /** What the sweep returns. */
  function SweepTotals(operations: seq<OperationInterval>, waits: seq<WaitInterval>, context: CreditContext): Result<Totals, SweepError> {
    if ValidSweepInput(operations, waits, context) then Success(ReferenceTotals(operations, waits)) else Failure(InvalidIntervals)
  }

  // ---------- events ----------

  datatype Event = Event(time: nat, priority: nat, all: int, creditable: int, ready: int)

  function OperationEvents(operation: OperationInterval): seq<Event> {
    var credit := if operation.credit.Some? then 1 else 0;
    [Event(operation.span.start, 1, 1, credit, 0), Event(operation.span.end, 0, -1, -credit, 0)]
  }

  function WaitEvents(wait: WaitInterval): seq<Event> {
    [Event(wait.span.start, 1, 0, 0, 1), Event(wait.span.end, 0, 0, 0, -1)]
  }

  /** The comparator of the event sort: by time, closings before openings. */
  predicate NotAfter(a: Event, b: Event) {
    a.time < b.time || (a.time == b.time && a.priority <= b.priority)
  }

  predicate Sorted(events: seq<Event>) {
    forall i, j :: 0 <= i < j < |events| ==> NotAfter(events[i], events[j])
  }

  function InsertEvent(e: Event, events: seq<Event>): (r: seq<Event>)
    ensures multiset(r) == multiset(events) + multiset{e}
    ensures |r| == |events| + 1
    ensures forall x :: x in r <==> x == e || x in events
  {
    if events == [] || NotAfter(e, events[0]) then [e] + events
    else
      assert events == [events[0]] + events[1..];
      [events[0]] + InsertEvent(e, events[1..])
  }

  function SortEvents(events: seq<Event>): (r: seq<Event>)
    ensures |r| == |events|
    ensures forall x :: x in r <==> x in events
  {
    if events == [] then []
    else
      assert events == [events[0]] + events[1..];
      InsertEvent(events[0], SortEvents(events[1..]))
  }

  lemma {:induction false} InsertEventSorted(e: Event, events: seq<Event>)
    requires Sorted(events)
    ensures Sorted(InsertEvent(e, events))
  {
    if events != [] && !NotAfter(e, events[0]) {
      InsertEventSorted(e, events[1..]);
      var r := InsertEvent(e, events[1..]);
      forall j | 0 <= j < |r| ensures NotAfter(events[0], r[j]) {
        assert r[j] in r;
        if r[j] != e {
          assert r[j] in events[1..];
        }
      }
    }
  }

  /** Sorting keeps every event and puts closings before openings at the same time. */
  lemma {:induction false} SortEventsSorted(events: seq<Event>)
    ensures Sorted(SortEvents(events)) && multiset(SortEvents(events)) == multiset(events)
  {
    if events != [] {
      assert events == [events[0]] + events[1..];
      SortEventsSorted(events[1..]);
      InsertEventSorted(events[0], SortEvents(events[1..]));
    }
  }

  /** The running count at tick t: the deltas of every event no later than t. */
  ghost function Level(events: seq<Event>, t: int, delta: Event -> int): int {
    if events == [] then 0
    else (if events[0].time <= t then delta(events[0]) else 0) + Level(events[1..], t, delta)
  }

  lemma {:induction false} LevelAppend(a: seq<Event>, b: seq<Event>, t: int, delta: Event -> int)
    ensures Level(a + b, t, delta) == Level(a, t, delta) + Level(b, t, delta)
  {
    if a == [] {
      assert a + b == b;
    } else {
      assert (a + b)[1..] == a[1..] + b;
      LevelAppend(a[1..], b, t, delta);
    }
  }

  lemma {:induction false} LevelInsert(e: Event, events: seq<Event>, t: int, delta: Event -> int)
    ensures Level(InsertEvent(e, events), t, delta) == (if e.time <= t then delta(e) else 0) + Level(events, t, delta)
  {
    var r := InsertEvent(e, events);
    if events == [] || NotAfter(e, events[0]) {
      assert r[1..] == events;
    } else {
      assert r[1..] == InsertEvent(e, events[1..]);
      LevelInsert(e, events[1..], t, delta);
    }
  }

  /** Sorting does not change any running count. */
  lemma {:induction false} LevelSort(events: seq<Event>, t: int, delta: Event -> int)
    ensures Level(SortEvents(events), t, delta) == Level(events, t, delta)
  {
    if events != [] {
      LevelSort(events[1..], t, delta);
      LevelInsert(events[0], SortEvents(events[1..]), t, delta);
    }
  }

  ghost function PrefixSum(events: seq<Event>, index: nat, delta: Event -> int): int
    requires index <= |events|
  {
    if index == 0 then 0 else PrefixSum(events, index - 1, delta) + delta(events[index - 1])
  }

  lemma {:induction false} LevelIsPrefixSum(events: seq<Event>, index: nat, t: int, delta: Event -> int)
    requires index <= |events|
    requires forall k :: 0 <= k < index ==> events[k].time <= t
    requires forall k :: index <= k < |events| ==> t < events[k].time
    ensures Level(events, t, delta) == PrefixSum(events, index, delta)
  {
    assert events == events[..index] + events[index..];
    LevelAppend(events[..index], events[index..], t, delta);
    LevelOfLater(events[index..], t, delta);
    LevelOfEarlier(events, index, t, delta);
  }

  lemma {:induction false} LevelOfLater(events: seq<Event>, t: int, delta: Event -> int)
    requires forall k :: 0 <= k < |events| ==> t < events[k].time
    ensures Level(events, t, delta) == 0
  {
    if events != [] {
      LevelOfLater(events[1..], t, delta);
    }
  }

  lemma {:induction false} LevelOfEarlier(events: seq<Event>, index: nat, t: int, delta: Event -> int)
    requires index <= |events|
    requires forall k :: 0 <= k < index ==> events[k].time <= t
    ensures Level(events[..index], t, delta) == PrefixSum(events, index, delta)
  {
    if index > 0 {
      LevelOfEarlier(events, index - 1, t, delta);
      assert events[..index] == events[..index - 1] + [events[index - 1]];
      LevelAppend(events[..index - 1], [events[index - 1]], t, delta);
    }
  }

  // ---------- events against spans ----------

  ghost function DeltaAll(): Event -> int { (e: Event) => e.all }
  ghost function DeltaCreditable(): Event -> int { (e: Event) => e.creditable }
  ghost function DeltaReady(): Event -> int { (e: Event) => e.ready }

  ghost function AllEvents(operations: seq<OperationInterval>, waits: seq<WaitInterval>): seq<Event> {
    if operations != [] then OperationEvents(operations[0]) + AllEvents(operations[1..], waits)
    else if waits != [] then WaitEvents(waits[0]) + AllEvents([], waits[1..])
    else []
  }

  lemma {:induction false} LevelOfPair(a: Event, b: Event, t: int, delta: Event -> int)
    ensures Level([a, b], t, delta) == (if a.time <= t then delta(a) else 0) + (if b.time <= t then delta(b) else 0)
  {
    assert [a, b][1..] == [b];
    assert Level([b], t, delta) == (if b.time <= t then delta(b) else 0) + Level([b][1..], t, delta);
  }

  lemma {:induction false} LevelsAreCovers(operations: seq<OperationInterval>, waits: seq<WaitInterval>, t: int)
    requires OrderedSpans(operations, waits)
    ensures Level(AllEvents(operations, waits), t, DeltaAll()) == Cover(OperationSpans(operations), t)
    ensures Level(AllEvents(operations, waits), t, DeltaCreditable()) == Cover(CreditedSpans(operations), t)
    ensures Level(AllEvents(operations, waits), t, DeltaReady()) == Cover(WaitSpans(waits), t)
    decreases |operations| + |waits|
  {
    if operations != [] {
      var pair, rest := OperationEvents(operations[0]), AllEvents(operations[1..], waits);
      LevelsAreCovers(operations[1..], waits, t);
      PairLevels(pair, rest, t);
      if operations[0].credit.Some? {
        CoverAppend([operations[0].span], CreditedSpans(operations[1..]), t);
      } else {
        assert CreditedSpans(operations) == CreditedSpans(operations[1..]);
      }
    } else if waits != [] {
      var pair, rest := WaitEvents(waits[0]), AllEvents([], waits[1..]);
      LevelsAreCovers([], waits[1..], t);
      PairLevels(pair, rest, t);
    }
  }

  lemma PairLevels(pair: seq<Event>, rest: seq<Event>, t: int)
    requires |pair| == 2
    ensures forall delta: Event -> int ::
              Level(pair + rest, t, delta) ==
              (if pair[0].time <= t then delta(pair[0]) else 0) + (if pair[1].time <= t then delta(pair[1]) else 0) + Level(rest, t, delta)
  {
    forall delta: Event -> int
      ensures Level(pair + rest, t, delta) ==
              (if pair[0].time <= t then delta(pair[0]) else 0) + (if pair[1].time <= t then delta(pair[1]) else 0) + Level(rest, t, delta)
    {
      LevelAppend(pair, rest, t, delta);
      assert pair == [pair[0], pair[1]];
      LevelOfPair(pair[0], pair[1], t, delta);
    }
  }

  /** The events lie between the earliest start and the latest end, and meet both. */
  ghost predicate Framed(events: seq<Event>, spans: seq<Span>) {
    if spans == [] then events == []
    else
      && (forall e :: e in events ==> EarliestStart(spans) <= e.time <= LatestEnd(spans))
      && (exists e :: e in events && e.time == EarliestStart(spans))
      && (exists e :: e in events && e.time == LatestEnd(spans))
  }

  lemma FramedCons(span: Span, pair: seq<Event>, events: seq<Event>, spans: seq<Span>)
    requires span.start <= span.end && Framed(events, spans)
    requires |pair| == 2 && pair[0].time == span.start && pair[1].time == span.end
    ensures Framed(pair + events, [span] + spans)
  {
    var all := pair + events;
    assert ([span] + spans)[1..] == spans;
    assert pair[0] in all && pair[1] in all;
    assert forall e :: e in events ==> e in all;
    assert forall e :: e in all ==> e == pair[0] || e == pair[1] || e in events;
  }

  lemma FramedOperation(operation: OperationInterval, events: seq<Event>, spans: seq<Span>)
    requires operation.span.start <= operation.span.end && Framed(events, spans)
    ensures Framed(OperationEvents(operation) + events, [operation.span] + spans)
  {
    hide Framed;
    FramedCons(operation.span, OperationEvents(operation), events, spans);
  }

  lemma FramedWait(wait: WaitInterval, events: seq<Event>, spans: seq<Span>)
    requires wait.span.start <= wait.span.end && Framed(events, spans)
    ensures Framed(WaitEvents(wait) + events, [wait.span] + spans)
  {
    hide Framed;
    FramedCons(wait.span, WaitEvents(wait), events, spans);
  }

  lemma FramedNothing()
    ensures Framed([], [])
  {
  }

  lemma {:induction false} EventTimes(operations: seq<OperationInterval>, waits: seq<WaitInterval>)
    requires OrderedSpans(operations, waits)
    ensures |OperationSpans(operations) + WaitSpans(waits)| == |operations| + |waits|
    ensures Framed(AllEvents(operations, waits), OperationSpans(operations) + WaitSpans(waits))
    decreases |operations| + |waits|
  {
    hide Framed, OperationEvents, WaitEvents;
    if operations != [] {
      EventTimes(operations[1..], waits);
      var tail := OperationSpans(operations[1..]) + WaitSpans(waits);
      FramedOperation(operations[0], AllEvents(operations[1..], waits), tail);
      assert OperationSpans(operations) + WaitSpans(waits) == [operations[0].span] + tail;
    } else if waits != [] {
      EventTimes([], waits[1..]);
      var tail := OperationSpans([]) + WaitSpans(waits[1..]);
      FramedWait(waits[0], AllEvents([], waits[1..]), tail);
      assert OperationSpans(operations) + WaitSpans(waits) == [waits[0].span] + tail;
    } else {
      FramedNothing();
    }
  }

  lemma EndsByLatest(spans: seq<Span>)
    requires spans != []
    ensures EndBy(spans, LatestEnd(spans))
  {
    if |spans| > 1 {
      EndsByLatest(spans[1..]);
      forall i | 0 <= i < |spans| ensures spans[i].end <= LatestEnd(spans) {
        if i > 0 {
          assert spans[i] == spans[1..][i - 1];
        }
      }
    }
  }

  lemma {:induction false} CreditedAmongWork(operations: seq<OperationInterval>, hi: int)
    requires EndBy(OperationSpans(operations), hi)
    ensures EndBy(CreditedSpans(operations), hi)
  {
    if operations != [] {
      var work := OperationSpans(operations);
      assert work[0] == operations[0].span;
      assert work[1..] == OperationSpans(operations[1..]);
      assert forall i :: 0 <= i < |work[1..]| ==> work[1..][i] == work[i + 1];
      CreditedAmongWork(operations[1..], hi);
    }
  }

  // ---------- the sweep ----------

  ghost function LevelAll(events: seq<Event>): int -> int {
    t => Level(events, t, DeltaAll())
  }
  ghost function LevelCreditable(events: seq<Event>): int -> int {
    t => Level(events, t, DeltaCreditable())
  }
  ghost function LevelOverlap(events: seq<Event>): int -> int {
    t => Excess(Level(events, t, DeltaCreditable()))
  }
  ghost function LevelExposed(events: seq<Event>): int -> int {
    t => Excess(Level(events, t, DeltaAll()) + Level(events, t, DeltaReady()))
  }

  /** The four areas accumulated over the ticks [lo, hi). */
  ghost predicate HasAreas(totals: Totals, events: seq<Event>, lo: int, hi: int) {
    && totals.allOperationWork == Area(lo, hi, LevelAll(events))
    && totals.creditableWork == Area(lo, hi, LevelCreditable(events))
    && totals.usefulOverlap == Area(lo, hi, LevelOverlap(events))
    && totals.parallelOpportunity == Area(lo, hi, LevelExposed(events))
  }

  /** The running counts are the deltas of the events already applied. */
  ghost predicate Counts(events: seq<Event>, index: nat, all: int, creditable: int, ready: int)
    requires index <= |events|
  {
    && all == PrefixSum(events, index, DeltaAll())
    && creditable == PrefixSum(events, index, DeltaCreditable())
    && ready == PrefixSum(events, index, DeltaReady())
  }

  /** Between two event times the counts do not move, so each area grows by elapsed times count. */
  lemma AdvanceAreas(totals: Totals, events: seq<Event>, index: nat, lo: int, mid: int, hi: int, all: int, creditable: int, ready: int)
    requires index <= |events| && lo <= mid <= hi
    requires forall k :: 0 <= k < index ==> events[k].time <= mid
    requires forall k :: index <= k < |events| ==> hi <= events[k].time
    requires Counts(events, index, all, creditable, ready)
    requires HasAreas(totals, events, lo, mid)
    ensures var elapsed := hi - mid;
            HasAreas(totals.(allOperationWork := totals.allOperationWork + elapsed * all,
                             creditableWork := totals.creditableWork + elapsed * creditable,
                             usefulOverlap := totals.usefulOverlap + elapsed * Excess(creditable),
                             parallelOpportunity := totals.parallelOpportunity + elapsed * Excess(all + ready)),
                     events, lo, hi)
  {
    forall t | mid <= t < hi
      ensures LevelAll(events)(t) == all && LevelCreditable(events)(t) == creditable
      ensures LevelOverlap(events)(t) == Excess(creditable) && LevelExposed(events)(t) == Excess(all + ready)
    {
      LevelIsPrefixSum(events, index, t, DeltaAll());
      LevelIsPrefixSum(events, index, t, DeltaCreditable());
      LevelIsPrefixSum(events, index, t, DeltaReady());
    }
    AdvanceArea(lo, mid, hi, LevelAll(events), all);
    AdvanceArea(lo, mid, hi, LevelCreditable(events), creditable);
    AdvanceArea(lo, mid, hi, LevelOverlap(events), Excess(creditable));
    AdvanceArea(lo, mid, hi, LevelExposed(events), Excess(all + ready));
  }

  lemma AdvanceArea(lo: int, mid: int, hi: int, f: int -> int, c: int)
    requires lo <= mid <= hi
    requires forall t :: mid <= t < hi ==> f(t) == c
    ensures Area(lo, hi, f) == Area(lo, mid, f) + (hi - mid) * c
  {
    AreaSplit(lo, mid, hi, f);
    AreaConstant(mid, hi, f, c);
  }

  lemma SortedLevels(operations: seq<OperationInterval>, waits: seq<WaitInterval>, t: int)
    requires OrderedSpans(operations, waits)
    ensures var exposed, events := OperationSpans(operations) + WaitSpans(waits), SortEvents(AllEvents(operations, waits));
            && Level(events, t, DeltaAll()) == Cover(OperationSpans(operations), t)
            && Level(events, t, DeltaCreditable()) == Cover(CreditedSpans(operations), t)
            && Level(events, t, DeltaAll()) + Level(events, t, DeltaReady()) == Cover(exposed, t)
            && (exposed != [] && t < EarliestStart(exposed) ==>
                  Cover(OperationSpans(operations), t) == 0 && Cover(CreditedSpans(operations), t) == 0 && Cover(exposed, t) == 0)
  {
    var raw, exposed := AllEvents(operations, waits), OperationSpans(operations) + WaitSpans(waits);
    LevelsAreCovers(operations, waits, t);
    LevelSort(raw, t, DeltaAll());
    LevelSort(raw, t, DeltaCreditable());
    LevelSort(raw, t, DeltaReady());
    CoverAppend(OperationSpans(operations), WaitSpans(waits), t);
    if exposed != [] && t < EarliestStart(exposed) {
      EventTimes(operations, waits);
      assert forall k :: 0 <= k < |raw| ==> raw[k] in raw;
      LevelOfLater(raw, t, DeltaAll());
      LevelOfLater(raw, t, DeltaCreditable());
      LevelOfLater(raw, t, DeltaReady());
    }
  }

  lemma CoverArea(spans: seq<Span>, lo: int, hi: int, f: int -> int)
    requires 0 <= lo <= hi && EndBy(spans, hi)
    requires forall t :: f(t) == Cover(spans, t)
    requires forall t :: t < lo ==> Cover(spans, t) == 0
    ensures Area(lo, hi, f) == TotalLength(spans)
  {
    FromZero(lo, hi, f, t => Cover(spans, t));
    AreaOfCover(spans, hi);
  }

  lemma ExcessArea(spans: seq<Span>, lo: int, hi: int, f: int -> int)
    requires 0 <= lo <= hi && EndBy(spans, hi)
    requires forall t :: f(t) == Excess(Cover(spans, t))
    requires forall t :: t < lo ==> Cover(spans, t) == 0
    ensures Area(lo, hi, f) == TotalLength(spans) - |CoveredTicks(spans)|
  {
    FromZero(lo, hi, f, t => Excess(Cover(spans, t)));
    AreaOfExcess(spans, hi);
  }

  lemma FromZero(lo: int, hi: int, f: int -> int, g: int -> int)
    requires 0 <= lo <= hi
    requires forall t :: f(t) == g(t)
    requires forall t :: t < lo ==> g(t) == 0
    ensures Area(lo, hi, f) == Area(0, hi, g)
  {
    AreaCongruent(lo, hi, f, g);
    AreaSplit(0, lo, hi, g);
    AreaConstant(0, lo, g, 0);
  }

  /** The areas over the whole event range are the reference totals. */
  lemma AreasAreReference(totals: Totals, operations: seq<OperationInterval>, waits: seq<WaitInterval>, events: seq<Event>, exposed: seq<Span>)
    requires OrderedSpans(operations, waits)
    requires exposed == OperationSpans(operations) + WaitSpans(waits) && exposed != []
    requires events == SortEvents(AllEvents(operations, waits))
    requires EarliestStart(exposed) <= LatestEnd(exposed)
    requires totals.autonomousElapsed == LatestEnd(exposed) - EarliestStart(exposed)
    requires HasAreas(totals, events, EarliestStart(exposed), LatestEnd(exposed))
    ensures totals == ReferenceTotals(operations, waits)
  {
    var work, credited := OperationSpans(operations), CreditedSpans(operations);
    var lo, hi := EarliestStart(exposed), LatestEnd(exposed);
    EndsByLatest(exposed);
    assert EndBy(work, hi) by {
      assert forall i :: 0 <= i < |work| ==> work[i] == exposed[i];
    }
    CreditedAmongWork(operations, hi);
    forall t: int { SortedLevels(operations, waits, t); }
    CoverArea(work, lo, hi, LevelAll(events));
    CoverArea(credited, lo, hi, LevelCreditable(events));
    ExcessArea(credited, lo, hi, LevelOverlap(events));
    ExcessArea(exposed, lo, hi, LevelExposed(events));
  }

  /**
   * The event sweep: one start and one end event for each interval, sorted by time with closings
   * first, then one pass that adds elapsed time multiplied by the running counts.
   */
  method Sweep(operations: seq<OperationInterval>, waits: seq<WaitInterval>, context: CreditContext)
    returns (r: Result<Totals, SweepError>)
    ensures r == SweepTotals(operations, waits, context)
  {
    if !ValidSweepInput(operations, waits, context) {
      return Failure(InvalidIntervals);
    }
    EventTimes(operations, waits);
    if |operations| + |waits| == 0 {
      return Success(Totals(0, 0, 0, 0, 0));
    }
    var raw := BuildEvents(operations, waits);
    var events := SortEvents(raw);
    ghost var exposed := OperationSpans(operations) + WaitSpans(waits);
    SortedEnds(raw, exposed);
    SortEventsSorted(raw);
    var totals := SweepSorted(events);
    AreasAreReference(totals, operations, waits, events, exposed);
    return Success(totals);
  }

  /** The pass over the sorted events: all events of one time are applied together. */
  method SweepSorted(events: seq<Event>) returns (totals: Totals)
    requires events != [] && Sorted(events)
    ensures totals.autonomousElapsed == events[|events| - 1].time - events[0].time
    ensures HasAreas(totals, events, events[0].time, events[|events| - 1].time)
  {
    hide LevelAll, LevelCreditable, LevelOverlap, LevelExposed, Level;
    ghost var first, last := events[0].time, events[|events| - 1].time;
    var previous, all, creditable, ready := events[0].time, 0, 0, 0;
    totals := Totals(events[|events| - 1].time - events[0].time, 0, 0, 0, 0);
    var index := 0;
    while index < |events|
      invariant 0 <= index <= |events|
      invariant first <= previous <= last
      invariant index == |events| ==> previous == last
      invariant forall k :: 0 <= k < index ==> events[k].time <= previous
      invariant forall k :: index <= k < |events| ==> previous <= events[k].time
      invariant Counts(events, index, all, creditable, ready)
      invariant totals.autonomousElapsed == last - first
      invariant HasAreas(totals, events, first, previous)
    {
      var time := events[index].time;
      var elapsed := time - previous;
      AdvanceAreas(totals, events, index, first, previous, time, all, creditable, ready);
      totals := totals.(
        allOperationWork := totals.allOperationWork + elapsed * all,
        creditableWork := totals.creditableWork + elapsed * creditable,
        usefulOverlap := totals.usefulOverlap + elapsed * Excess(creditable),
        parallelOpportunity := totals.parallelOpportunity + elapsed * Excess(all + ready));
      ghost var group := index;
      while index < |events| && events[index].time == time
        invariant group <= index <= |events|
        invariant forall k :: group <= k < index ==> events[k].time == time
        invariant Counts(events, index, all, creditable, ready)
      {
        all, creditable, ready := all + events[index].all, creditable + events[index].creditable, ready + events[index].ready;
        index := index + 1;
      }
      previous := time;
    }
  }

  lemma SortedEnds(raw: seq<Event>, exposed: seq<Span>)
    requires exposed != [] && Framed(raw, exposed)
    ensures raw != []
    ensures EarliestStart(exposed) <= LatestEnd(exposed)
    ensures SortEvents(raw)[0].time == EarliestStart(exposed)
    ensures SortEvents(raw)[|raw| - 1].time == LatestEnd(exposed)
  {
    SortEventsSorted(raw);
    hide SortEvents, EarliestStart, LatestEnd;
    var events := SortEvents(raw);
    assert events[0] in events && events[|events| - 1] in events;
    var a :| a in raw && a.time == EarliestStart(exposed);
    var b :| b in raw && b.time == LatestEnd(exposed);
    assert a in events && b in events;
    var i :| 0 <= i < |events| && events[i] == a;
    var j :| 0 <= j < |events| && events[j] == b;
    assert i > 0 ==> NotAfter(events[0], events[i]);
    assert j < |events| - 1 ==> NotAfter(events[j], events[|events| - 1]);
  }

  /** A start and an end for each interval: at any time the events so far count the intervals that cover it. */
  method BuildEvents(operations: seq<OperationInterval>, waits: seq<WaitInterval>) returns (events: seq<Event>)
    ensures events == AllEvents(operations, waits)
    ensures OrderedSpans(operations, waits) ==> forall t ::
              && Level(events, t, DeltaAll()) == Cover(OperationSpans(operations), t)
              && Level(events, t, DeltaCreditable()) == Cover(CreditedSpans(operations), t)
              && Level(events, t, DeltaReady()) == Cover(WaitSpans(waits), t)
  {
    events := [];
    for i := 0 to |operations|
      invariant events + AllEvents(operations[i..], waits) == AllEvents(operations, waits)
    {
      events := events + OperationEvents(operations[i]);
      assert operations[i..][1..] == operations[i + 1..];
    }
    assert operations[|operations|..] == [];
    for i := 0 to |waits|
      invariant events + AllEvents([], waits[i..]) == AllEvents(operations, waits)
    {
      events := events + WaitEvents(waits[i]);
      assert waits[i..][1..] == waits[i + 1..];
    }
    assert waits[|waits|..] == [];
    assert events == AllEvents(operations, waits);
    if OrderedSpans(operations, waits) {
      forall t: int
        ensures && Level(events, t, DeltaAll()) == Cover(OperationSpans(operations), t)
                && Level(events, t, DeltaCreditable()) == Cover(CreditedSpans(operations), t)
                && Level(events, t, DeltaReady()) == Cover(WaitSpans(waits), t)
      {
        LevelsAreCovers(operations, waits, t);
      }
    }
  }

  // ---------- the order of the input does not matter ----------

  function Without<T>(s: seq<T>, k: nat): (r: seq<T>)
    requires k < |s|
    ensures |r| == |s| - 1
  {
    s[..k] + s[k + 1..]
  }

  lemma SplitAt<T>(a: seq<T>, k: nat)
    requires k < |a|
    ensures a[..k] + [a[k]] + a[k + 1..] == a && a[..k] + a[k + 1..] == Without(a, k)
  {
  }

  lemma SameWithout<T>(a: seq<T>, b: seq<T>, k: nat)
    requires multiset(a) == multiset(b)
    requires 0 < |a| && k < |b| && a[0] == b[k]
    ensures multiset(Without(a, 0)) == multiset(Without(b, k))
  {
    Rearranged(a, Without(a, 0), [], [a[0]], a[1..]);
    Rearranged(b, Without(b, k), b[..k], [b[k]], b[k + 1..]);
    CancelUnion(multiset(Without(a, 0)), multiset(Without(b, k)), multiset([a[0]]));
  }

  lemma MultisetMiddle<T>(a: seq<T>, m: seq<T>, b: seq<T>)
    ensures multiset(a + m + b) == multiset(a + b) + multiset(m)
  {}

  lemma Rearranged<T>(whole: seq<T>, rest: seq<T>, a: seq<T>, m: seq<T>, b: seq<T>)
    requires whole == a + m + b && rest == a + b
    ensures multiset(whole) == multiset(rest) + multiset(m)
  {
    MultisetMiddle(a, m, b);
  }

  lemma CancelUnion<T>(a: multiset<T>, b: multiset<T>, m: multiset<T>)
    requires a + m == b + m
    ensures a == b
  {
    forall x ensures a[x] == b[x] {
      assert (a + m)[x] == (b + m)[x];
    }
  }

  lemma MultisetAppend<T>(a: seq<T>, b: seq<T>, a': seq<T>, b': seq<T>)
    requires multiset(a) == multiset(a') && multiset(b) == multiset(b')
    ensures multiset(a + b) == multiset(a' + b')
  {}

  lemma {:induction false} TotalLengthWithout(spans: seq<Span>, k: nat)
    requires k < |spans|
    ensures TotalLength(spans) == Length(spans[k]) + TotalLength(Without(spans, k))
  {
    assert spans == spans[..k] + ([spans[k]] + spans[k + 1..]);
    TotalLengthAppend(spans[..k], [spans[k]] + spans[k + 1..]);
    TotalLengthAppend([spans[k]], spans[k + 1..]);
    assert TotalLength([spans[k]]) == Length(spans[k]) + TotalLength([spans[k]][1..]);
    TotalLengthAppend(spans[..k], spans[k + 1..]);
  }

  lemma {:induction false} TotalLengthPermuted(a: seq<Span>, b: seq<Span>)
    requires multiset(a) == multiset(b)
    ensures TotalLength(a) == TotalLength(b)
  {
    if a == [] {
      assert |b| == |multiset(b)| == 0;
    } else {
      assert a[0] in multiset(b);
      var k :| 0 <= k < |b| && b[k] == a[0];
      SameWithout(a, b, k);
      assert Without(a, 0) == a[1..];
      TotalLengthPermuted(a[1..], Without(b, k));
      TotalLengthWithout(b, k);
    }
  }

  lemma {:induction false} Extremes(spans: seq<Span>)
    requires spans != []
    ensures forall s :: s in spans ==> EarliestStart(spans) <= s.start && s.end <= LatestEnd(spans)
    ensures exists s :: s in spans && s.start == EarliestStart(spans)
    ensures exists s :: s in spans && s.end == LatestEnd(spans)
  {
    if |spans| > 1 {
      Extremes(spans[1..]);
      assert forall s :: s in spans <==> s == spans[0] || s in spans[1..];
    }
  }

  lemma SpansPermuted(a: seq<Span>, b: seq<Span>)
    requires multiset(a) == multiset(b)
    ensures TotalLength(a) == TotalLength(b)
    ensures CoveredTicks(a) == CoveredTicks(b)
    ensures a == [] <==> b == []
    ensures a != [] && b != [] ==> EarliestStart(a) == EarliestStart(b) && LatestEnd(a) == LatestEnd(b)
  {
    TotalLengthPermuted(a, b);
    assert forall s :: s in a <==> s in multiset(a);
    assert forall s :: s in b <==> s in multiset(b);
    forall t: int ensures t in CoveredTicks(a) <==> t in CoveredTicks(b) {
      CoveredMember(a, t);
      CoveredMember(b, t);
    }
    assert |a| == |multiset(a)| == |b|;
    if a != [] {
      Extremes(a);
      Extremes(b);
    }
  }

  lemma {:induction false} OperationSpansAppend(a: seq<OperationInterval>, b: seq<OperationInterval>)
    ensures OperationSpans(a + b) == OperationSpans(a) + OperationSpans(b)
  {
    if a == [] {
      assert a + b == b;
    } else {
      assert (a + b)[1..] == a[1..] + b;
      OperationSpansAppend(a[1..], b);
    }
  }

  lemma OperationSpansMiddle(x: seq<OperationInterval>, m: seq<OperationInterval>, y: seq<OperationInterval>)
    ensures multiset(OperationSpans(x + m + y)) == multiset(OperationSpans(x + y)) + multiset(OperationSpans(m))
  {
    OperationSpansAppend(x + m, y);
    OperationSpansAppend(x, m);
    OperationSpansAppend(x, y);
    MultisetMiddle(OperationSpans(x), OperationSpans(m), OperationSpans(y));
  }

  lemma OperationSpansAt(a: seq<OperationInterval>, k: nat)
    requires k < |a|
    ensures multiset(OperationSpans(a)) == multiset(OperationSpans(Without(a, k))) + multiset(OperationSpans([a[k]]))
  {
    hide *;
    SplitAt(a, k);
    OperationSpansMiddle(a[..k], [a[k]], a[k + 1..]);
  }

  lemma {:induction false} OperationSpansPermuted(a: seq<OperationInterval>, b: seq<OperationInterval>)
    requires multiset(a) == multiset(b)
    ensures multiset(OperationSpans(a)) == multiset(OperationSpans(b))
  {
    if a == [] {
      assert |b| == |multiset(b)| == 0;
    } else {
      hide OperationSpans, Without;
      assert a[0] in multiset(b);
      var k :| 0 <= k < |b| && b[k] == a[0];
      SameWithout(a, b, k);
      OperationSpansPermuted(Without(a, 0), Without(b, k));
      OperationSpansAt(a, 0);
      OperationSpansAt(b, k);
    }
  }

  lemma {:induction false} CreditedSpansAppend(a: seq<OperationInterval>, b: seq<OperationInterval>)
    ensures CreditedSpans(a + b) == CreditedSpans(a) + CreditedSpans(b)
  {
    if a == [] {
      assert a + b == b;
    } else {
      assert (a + b)[1..] == a[1..] + b;
      CreditedSpansAppend(a[1..], b);
    }
  }

  lemma CreditedSpansMiddle(x: seq<OperationInterval>, m: seq<OperationInterval>, y: seq<OperationInterval>)
    ensures multiset(CreditedSpans(x + m + y)) == multiset(CreditedSpans(x + y)) + multiset(CreditedSpans(m))
  {
    CreditedSpansAppend(x + m, y);
    CreditedSpansAppend(x, m);
    CreditedSpansAppend(x, y);
    MultisetMiddle(CreditedSpans(x), CreditedSpans(m), CreditedSpans(y));
  }

  lemma CreditedSpansAt(a: seq<OperationInterval>, k: nat)
    requires k < |a|
    ensures multiset(CreditedSpans(a)) == multiset(CreditedSpans(Without(a, k))) + multiset(CreditedSpans([a[k]]))
  {
    hide *;
    SplitAt(a, k);
    CreditedSpansMiddle(a[..k], [a[k]], a[k + 1..]);
  }

  lemma {:induction false} CreditedSpansPermuted(a: seq<OperationInterval>, b: seq<OperationInterval>)
    requires multiset(a) == multiset(b)
    ensures multiset(CreditedSpans(a)) == multiset(CreditedSpans(b))
  {
    if a == [] {
      assert |b| == |multiset(b)| == 0;
    } else {
      hide CreditedSpans, Without;
      assert a[0] in multiset(b);
      var k :| 0 <= k < |b| && b[k] == a[0];
      SameWithout(a, b, k);
      CreditedSpansPermuted(Without(a, 0), Without(b, k));
      CreditedSpansAt(a, 0);
      CreditedSpansAt(b, k);
    }
  }

  lemma {:induction false} WaitSpansAppend(a: seq<WaitInterval>, b: seq<WaitInterval>)
    ensures WaitSpans(a + b) == WaitSpans(a) + WaitSpans(b)
  {
    if a == [] {
      assert a + b == b;
    } else {
      assert (a + b)[1..] == a[1..] + b;
      WaitSpansAppend(a[1..], b);
    }
  }

  lemma WaitSpansMiddle(x: seq<WaitInterval>, m: seq<WaitInterval>, y: seq<WaitInterval>)
    ensures multiset(WaitSpans(x + m + y)) == multiset(WaitSpans(x + y)) + multiset(WaitSpans(m))
  {
    WaitSpansAppend(x + m, y);
    WaitSpansAppend(x, m);
    WaitSpansAppend(x, y);
    MultisetMiddle(WaitSpans(x), WaitSpans(m), WaitSpans(y));
  }

  lemma WaitSpansAt(a: seq<WaitInterval>, k: nat)
    requires k < |a|
    ensures multiset(WaitSpans(a)) == multiset(WaitSpans(Without(a, k))) + multiset(WaitSpans([a[k]]))
  {
    hide *;
    SplitAt(a, k);
    WaitSpansMiddle(a[..k], [a[k]], a[k + 1..]);
  }

  lemma {:induction false} WaitSpansPermuted(a: seq<WaitInterval>, b: seq<WaitInterval>)
    requires multiset(a) == multiset(b)
    ensures multiset(WaitSpans(a)) == multiset(WaitSpans(b))
  {
    if a == [] {
      assert |b| == |multiset(b)| == 0;
    } else {
      hide WaitSpans, Without;
      assert a[0] in multiset(b);
      var k :| 0 <= k < |b| && b[k] == a[0];
      SameWithout(a, b, k);
      WaitSpansPermuted(Without(a, 0), Without(b, k));
      WaitSpansAt(a, 0);
      WaitSpansAt(b, k);
    }
  }

  /** Any two orders of the same intervals give the same totals. */
  lemma InputOrderIrrelevant(operations: seq<OperationInterval>, waits: seq<WaitInterval>, operations': seq<OperationInterval>, waits': seq<WaitInterval>)
    requires multiset(operations) == multiset(operations') && multiset(waits) == multiset(waits')
    ensures ReferenceTotals(operations, waits) == ReferenceTotals(operations', waits')
  {
    OperationSpansPermuted(operations, operations');
    CreditedSpansPermuted(operations, operations');
    WaitSpansPermuted(waits, waits');
    MultisetAppend(OperationSpans(operations), WaitSpans(waits), OperationSpans(operations'), WaitSpans(waits'));
    SpansPermuted(OperationSpans(operations), OperationSpans(operations'));
    SpansPermuted(CreditedSpans(operations), CreditedSpans(operations'));
    SpansPermuted(OperationSpans(operations) + WaitSpans(waits), OperationSpans(operations') + WaitSpans(waits'));
  }
}
