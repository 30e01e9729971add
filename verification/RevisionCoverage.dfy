/**
 * Revision coverage over whole runs: observed plus missing is the revision advance, and the stored
 * gaps are exactly the first 64 maximal runs of unobserved revisions.
 */
module RevisionCoverage {
  import opened Wrappers
  import opened CreditModel
  import opened Accumulator
  import opened AccumulatorLaws
  import opened RunLaws

  /** The revisions a run of offered revisions moves through, starting after `from`. */
  function Accepted(from: nat, offered: seq<nat>): seq<nat>
    decreases |offered|
  {
    if offered == [] then []
    else if offered[0] <= from then Accepted(from, offered[1..])
    else [offered[0]] + Accepted(offered[0], offered[1..])
  }

  /** The runs of revisions jumped over between consecutive accepted ones. */
  function SkippedRuns(from: nat, accepted: seq<nat>): seq<Gap>
    decreases |accepted|
  {
    if accepted == [] then []
    else (if accepted[0] > from + 1 then [Gap(from + 1, accepted[0] - 1)] else []) + SkippedRuns(accepted[0], accepted[1..])
  }

  function Latest(from: nat, accepted: seq<nat>): nat {
    if accepted == [] then from else accepted[|accepted| - 1]
  }

  predicate Ascending(from: nat, accepted: seq<nat>) {
    && (forall i :: 0 <= i < |accepted| ==> from < accepted[i])
    && (forall i, j :: 0 <= i < j < |accepted| ==> accepted[i] < accepted[j])
  }

  lemma {:induction false} AcceptedAscends(from: nat, offered: seq<nat>)
    ensures Ascending(from, Accepted(from, offered))
    decreases |offered|
  {
    if offered != [] {
      if offered[0] <= from {
        AcceptedAscends(from, offered[1..]);
      } else {
        AcceptedAscends(offered[0], offered[1..]);
      }
    }
  }

  ghost predicate InSome(r: int, gaps: seq<Gap>) {
    exists i :: 0 <= i < |gaps| && gaps[i].first <= r <= gaps[i].last
  }

  /** The skipped runs hold exactly the unobserved revisions up to the latest accepted one. */
  lemma {:induction false} SkippedAreUnobserved(from: nat, accepted: seq<nat>, r: int)
    requires Ascending(from, accepted)
    ensures InSome(r, SkippedRuns(from, accepted)) <==> from < r <= Latest(from, accepted) && r !in accepted
    decreases |accepted|
  {
    var gaps := SkippedRuns(from, accepted);
    if accepted != [] {
      var rest := SkippedRuns(accepted[0], accepted[1..]);
      SkippedAreUnobserved(accepted[0], accepted[1..], r);
      assert Latest(accepted[0], accepted[1..]) == Latest(from, accepted);
      assert accepted[0] <= Latest(from, accepted);
      var head: seq<Gap> := if accepted[0] > from + 1 then [Gap(from + 1, accepted[0] - 1)] else [];
      assert gaps == head + rest;
      SomeAppend(r, head, rest);
      assert InSome(r, head) <==> from < r < accepted[0] by {
        if from < r < accepted[0] {
          assert head[0].first <= r <= head[0].last;
        }
      }
      assert r in accepted <==> r == accepted[0] || r in accepted[1..];
    }
  }

  lemma SomeAppend(r: int, a: seq<Gap>, b: seq<Gap>)
    ensures InSome(r, a + b) <==> InSome(r, a) || InSome(r, b)
  {
    if InSome(r, a) {
      var i :| 0 <= i < |a| && a[i].first <= r <= a[i].last;
      assert (a + b)[i] == a[i];
    }
    if InSome(r, b) {
      var i :| 0 <= i < |b| && b[i].first <= r <= b[i].last;
      assert (a + b)[|a| + i] == b[i];
    }
  }

  /** A gap that goes on from the recorded ones adds its revisions to theirs, unless it only counts as an overflow. */
  lemma AddGapCovers(c: Coverage, first: nat, last: nat, r: int)
    requires c.gaps != [] ==> c.gaps[|c.gaps| - 1].first <= first
    requires AddGap(c, first, last).gapOverflow == c.gapOverflow
    ensures InSome(r, AddGap(c, first, last).gaps) <==> InSome(r, c.gaps) || first <= r <= last
  {
    var n := |c.gaps|;
    var gap := Gap(first, last);
    assert InSome(r, [gap]) <==> first <= r <= last by {
      assert [gap][0] == gap;
    }
    if n > 0 && first <= c.gaps[n - 1].last + 1 {
      var front, end := c.gaps[..n - 1], c.gaps[n - 1];
      var merged := Gap(end.first, if last > end.last then last else end.last);
      assert c.gaps == front + [end] && AddGap(c, first, last).gaps == front + [merged];
      SomeAppend(r, front, [end]);
      SomeAppend(r, front, [merged]);
      assert [end][0] == end && [merged][0] == merged;
    } else {
      SomeAppend(r, c.gaps, [gap]);
    }
  }

  /** Each run is maximal: the revision on either side of it was observed, or is where the run began. */
  lemma {:induction false} SkippedAreMaximal(from: nat, accepted: seq<nat>)
    requires Ascending(from, accepted)
    ensures forall i :: 0 <= i < |SkippedRuns(from, accepted)| ==>
              var g := SkippedRuns(from, accepted)[i];
              && g.first <= g.last
              && (g.first - 1 == from || g.first - 1 in accepted)
              && g.last + 1 in accepted
    decreases |accepted|
  {
    if accepted != [] {
      SkippedAreMaximal(accepted[0], accepted[1..]);
      var rest := SkippedRuns(accepted[0], accepted[1..]);
      var head: seq<Gap> := if accepted[0] > from + 1 then [Gap(from + 1, accepted[0] - 1)] else [];
      assert SkippedRuns(from, accepted) == head + rest;
      assert accepted == [accepted[0]] + accepted[1..];
      hide SkippedRuns;
    }
  }

  lemma {:induction false} SkippedRepresent(from: nat, accepted: seq<nat>)
    requires Ascending(from, accepted)
    ensures Lengths(SkippedRuns(from, accepted)) + |accepted| == Latest(from, accepted) - from
    decreases |accepted|
  {
    if accepted != [] {
      SkippedRepresent(accepted[0], accepted[1..]);
      assert Latest(accepted[0], accepted[1..]) == Latest(from, accepted);
      LengthsAppend(if accepted[0] > from + 1 then [Gap(from + 1, accepted[0] - 1)] else [], SkippedRuns(accepted[0], accepted[1..]));
    }
  }

  function Lengths(gaps: seq<Gap>): int {
    if gaps == [] then 0 else gaps[0].last - gaps[0].first + 1 + Lengths(gaps[1..])
  }

  lemma {:induction false} LengthsAppend(a: seq<Gap>, b: seq<Gap>)
    ensures Lengths(a + b) == Lengths(a) + Lengths(b)
  {
    if a == [] {
      assert a + b == b;
    } else {
      assert (a + b)[1..] == a[1..] + b;
      LengthsAppend(a[1..], b);
    }
  }

  // ---------- coverage along a run ----------

  function Offered(run: seq<Observation>): seq<nat> {
    if run == [] then [] else [run[0].revision] + Offered(run[1..])
  }

  function FirstGaps(gaps: seq<Gap>): seq<Gap> {
    if |gaps| <= 64 then gaps else gaps[..64]
  }

  /** The coverage that a history of skipped runs and observed revisions should leave behind. */
  predicate Records(c: Coverage, skipped: seq<Gap>, observed: nat) {
    && c.gaps == FirstGaps(skipped)
    && c.gapOverflow == (if |skipped| <= 64 then 0 else |skipped| - 64)
    && c.missing == Lengths(skipped)
    && c.observed == observed
  }

  lemma SkipRecords(c: Coverage, skipped: seq<Gap>, observed: nat, from: nat, to: nat)
    requires Records(c, skipped, observed) && from < to
    requires forall i :: 0 <= i < |skipped| ==> skipped[i].last < from
    ensures Records(Skip(c, from, to), skipped + (if to > from + 1 then [Gap(from + 1, to - 1)] else []), observed)
  {
    if to > from + 1 {
      LengthsAppend(skipped, [Gap(from + 1, to - 1)]);
      assert Lengths([Gap(from + 1, to - 1)]) == to - from - 1 + Lengths([Gap(from + 1, to - 1)][1..]);
    } else {
      assert skipped + [] == skipped;
    }
  }

  lemma {:induction false} ReplayRecords(a: Accumulator, run: seq<Observation>, skipped: seq<Gap>, observed: nat)
    requires RunInvariant(a) && Replay(a, run).Success?
    requires Records(a.coverage, skipped, observed)
    requires forall i :: 0 <= i < |skipped| ==> skipped[i].last < a.source.revision
    ensures var accepted := Accepted(a.source.revision, Offered(run));
            && Replay(a, run).value.source.revision == Latest(a.source.revision, accepted)
            && Records(Replay(a, run).value.coverage, skipped + SkippedRuns(a.source.revision, accepted), observed + |accepted|)
    decreases |run|
  {
    hide RunInvariant, Lengths, Fold, Records;
    if run == [] {
      assert skipped + [] == skipped;
    } else {
      var o := run[0];
      FoldKeepsInvariant(a, o);
      OfferedStep(a.source.revision, run, skipped);
      var b := Fold(a, o).value;
      if o.revision <= a.source.revision {
        FoldStale(a, o);
        hide Offered, Accepted, SkippedRuns, Latest;
        ReplayRecords(b, run[1..], skipped, observed);
      } else {
        FoldRecords(a, o, skipped, observed);
        hide Offered, Accepted, SkippedRuns, Latest;
        var gap: seq<Gap> := if o.revision > a.source.revision + 1 then [Gap(a.source.revision + 1, o.revision - 1)] else [];
        ReplayRecords(b, run[1..], skipped + gap, observed + 1);
      }
    }
  }

  /** What one more offered revision adds to the accepted ones, the skipped runs and the latest revision. */
  lemma OfferedStep(from: nat, run: seq<Observation>, skipped: seq<Gap>)
    requires run != []
    ensures var r, all, rest := run[0].revision, Offered(run), Offered(run[1..]);
            if r <= from then Accepted(from, all) == Accepted(from, rest)
            else
              && |Accepted(from, all)| == 1 + |Accepted(r, rest)|
              && Latest(from, Accepted(from, all)) == Latest(r, Accepted(r, rest))
              && skipped + SkippedRuns(from, Accepted(from, all))
                 == (skipped + (if r > from + 1 then [Gap(from + 1, r - 1)] else [])) + SkippedRuns(r, Accepted(r, rest))
  {
    var r, all, rest := run[0].revision, Offered(run), Offered(run[1..]);
    assert all == [r] + rest && all[1..] == rest;
    if r > from {
      var more := Accepted(r, rest);
      assert Accepted(from, all) == [r] + more && ([r] + more)[1..] == more;
      hide Accepted;
      var gap: seq<Gap> := if r > from + 1 then [Gap(from + 1, r - 1)] else [];
      assert skipped + (gap + SkippedRuns(r, more)) == (skipped + gap) + SkippedRuns(r, more);
    }
  }

  lemma FoldStale(a: Accumulator, o: Observation)
    requires Fold(a, o).Success? && o.revision <= a.source.revision
    ensures Fold(a, o).value == a
  {
  }

  lemma FoldRecords(a: Accumulator, o: Observation, skipped: seq<Gap>, observed: nat)
    requires Fold(a, o).Success? && o.revision > a.source.revision
    requires Records(a.coverage, skipped, observed)
    requires forall i :: 0 <= i < |skipped| ==> skipped[i].last < a.source.revision
    ensures Fold(a, o).value.source.revision == o.revision
    ensures Records(Fold(a, o).value.coverage, skipped + (if o.revision > a.source.revision + 1 then [Gap(a.source.revision + 1, o.revision - 1)] else []), observed + 1)
  {
    hide Lengths, ValidAccumulator, ValidObservation, InRange, ReconcileBooks, ReconcileOpen, CensorBooks, Integrate, TickClock, Skip;
    var c := a.coverage.(dropped := a.coverage.dropped + o.droppedBefore, observerFailures := a.coverage.observerFailures + o.failuresBefore);
    SkipRecords(c, skipped, observed, a.source.revision, o.revision);
  }

  lemma CreatedRecords(source: Source, context: CreditContext)
    ensures Records(Created(source, context).coverage, [], 0) && Created(source, context).source == source
  {
  }

  /** The stored gaps are the first 64 maximal unobserved runs, overflow counts the rest, and nothing is lost. */
  lemma RunRecordsCoverage(source: Source, context: CreditContext, run: seq<Observation>)
    requires ValidContext(context) && source.revision <= MAX_SAFE_INTEGER && source.tick <= MAX_SAFE_INTEGER
    requires Replay(Created(source, context), run).Success?
    ensures var last := Replay(Created(source, context), run).value;
            var accepted := Accepted(source.revision, Offered(run));
            && last.source.revision == Latest(source.revision, accepted)
            && Records(last.coverage, SkippedRuns(source.revision, accepted), |accepted|)
            && last.coverage.observed + last.coverage.missing == last.source.revision - source.revision
  {
    hide *;
    CreatedInvariant(source, context);
    CreatedRecords(source, context);
    ReplayRecords(Created(source, context), run, [], 0);
    var accepted := Accepted(source.revision, Offered(run));
    assert [] + SkippedRuns(source.revision, accepted) == SkippedRuns(source.revision, accepted);
    AcceptedAscends(source.revision, Offered(run));
    SkippedRepresent(source.revision, accepted);
    RecordedCounts(Replay(Created(source, context), run).value.coverage, SkippedRuns(source.revision, accepted), |accepted|);
  }

  lemma RecordedCounts(c: Coverage, skipped: seq<Gap>, observed: nat)
    requires Records(c, skipped, observed)
    ensures c.missing == Lengths(skipped) && c.observed == observed
  {
  }
}
