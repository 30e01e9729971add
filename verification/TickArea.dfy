/**
 * Areas under step functions over whole clock ticks. A span covers the half-open tick range
 * [start, end), which is the interval policy of the evaluation profile. The functions here are
 * the reference against which both the event sweep and the incremental fold are proved.
 */
module TickArea {

  datatype Span = Span(start: nat, end: nat)

  predicate Covers(s: Span, t: int) {
    s.start <= t < s.end
  }

  function Indicator(s: Span, t: int): nat {
    if Covers(s, t) then 1 else 0
  }

  /** How many of the spans are open at tick t. */
  function Cover(spans: seq<Span>, t: int): nat {
    if spans == [] then 0 else Indicator(spans[0], t) + Cover(spans[1..], t)
  }

  function Length(s: Span): nat {
    if s.start <= s.end then s.end - s.start else 0
  }

  function TotalLength(spans: seq<Span>): nat {
    if spans == [] then 0 else Length(spans[0]) + TotalLength(spans[1..])
  }

  /** The union of the spans, as a set of ticks; its size is the measure of the union. */
  function CoveredTicks(spans: seq<Span>): set<int> {
    if spans == [] then {} else (set t: int | spans[0].start <= t < spans[0].end && Covers(spans[0], t)) + CoveredTicks(spans[1..])
  }

  predicate EndBy(spans: seq<Span>, hi: int) {
    forall i :: 0 <= i < |spans| ==> spans[i].end <= hi
  }

  function Excess(n: int): int {
    if n > 1 then n - 1 else 0
  }

  ghost function Area(lo: int, hi: int, f: int -> int): int
    decreases hi - lo
  {
    if lo >= hi then 0 else Area(lo, hi - 1, f) + f(hi - 1)
  }

  lemma {:induction false} AreaSplit(lo: int, mid: int, hi: int, f: int -> int)
    requires lo <= mid <= hi
    ensures Area(lo, hi, f) == Area(lo, mid, f) + Area(mid, hi, f)
    decreases hi - mid
  {
    if mid < hi {
      AreaSplit(lo, mid, hi - 1, f);
    }
  }

  lemma {:induction false} AreaConstant(lo: int, hi: int, f: int -> int, c: int)
    requires lo <= hi
    requires forall t :: lo <= t < hi ==> f(t) == c
    ensures Area(lo, hi, f) == (hi - lo) * c
    decreases hi - lo
  {
    if lo < hi {
      AreaConstant(lo, hi - 1, f, c);
    }
  }

  lemma {:induction false} AreaCongruent(lo: int, hi: int, f: int -> int, g: int -> int)
    requires forall t :: lo <= t < hi ==> f(t) == g(t)
    ensures Area(lo, hi, f) == Area(lo, hi, g)
    decreases hi - lo
  {
    if lo < hi {
      AreaCongruent(lo, hi - 1, f, g);
    }
  }

  lemma {:induction false} AreaAdd(lo: int, hi: int, f: int -> int, g: int -> int, h: int -> int)
    requires forall t :: lo <= t < hi ==> h(t) == f(t) + g(t)
    ensures Area(lo, hi, h) == Area(lo, hi, f) + Area(lo, hi, g)
    decreases hi - lo
  {
    if lo < hi {
      AreaAdd(lo, hi - 1, f, g, h);
    }
  }

  lemma {:induction false} AreaOfIndicator(s: Span, hi: int)
    requires s.end <= hi
    ensures Area(0, hi, t => Indicator(s, t)) == Length(s)
  {
    var f := t => Indicator(s, t);
    if s.start <= s.end {
      AreaSplit(0, s.start, hi, f);
      AreaSplit(s.start, s.end, hi, f);
      AreaConstant(0, s.start, f, 0);
      AreaConstant(s.start, s.end, f, 1);
      AreaConstant(s.end, hi, f, 0);
    } else if 0 <= hi {
      AreaConstant(0, hi, f, 0);
    }
  }

  /** Double counting: the area under the cover count is the sum of the lengths. */
  lemma {:induction false} AreaOfCover(spans: seq<Span>, hi: int)
    requires EndBy(spans, hi)
    ensures Area(0, hi, t => Cover(spans, t)) == TotalLength(spans)
  {
    if spans == [] {
      if 0 <= hi {
        AreaConstant(0, hi, t => Cover(spans, t), 0);
      }
    } else {
      AreaOfCover(spans[1..], hi);
      AreaOfIndicator(spans[0], hi);
      AreaAdd(0, hi, t => Indicator(spans[0], t), t => Cover(spans[1..], t), t => Cover(spans, t));
    }
  }

  lemma {:induction false} CoveredIffCover(spans: seq<Span>, t: int)
    ensures t in CoveredTicks(spans) <==> Cover(spans, t) > 0
  {
    if spans != [] {
      CoveredIffCover(spans[1..], t);
    }
  }

  lemma {:induction false} CoveredBounds(spans: seq<Span>, hi: int)
    requires EndBy(spans, hi)
    ensures forall t :: t in CoveredTicks(spans) ==> 0 <= t < hi
  {
    if spans != [] {
      CoveredBounds(spans[1..], hi);
    }
  }

  /** The measure of a tick set is the area under its characteristic function. */
  lemma {:induction false} MeasureBelow(ticks: set<int>, hi: int)
    requires 0 <= hi
    requires forall t :: t in ticks ==> 0 <= t < hi
    ensures Area(0, hi, t => if t in ticks then 1 else 0) == |ticks|
    decreases hi
  {
    if hi == 0 {
      assert forall t :: t !in ticks;
    } else {
      var below := ticks - {hi - 1};
      MeasureBelow(below, hi - 1);
      AreaCongruent(0, hi - 1, t => if t in ticks then 1 else 0, t => if t in below then 1 else 0);
    }
  }

  /** The area under the overlap depth is the total length minus the measure of the union. */
  lemma {:induction false} AreaOfExcess(spans: seq<Span>, hi: int)
    requires 0 <= hi && EndBy(spans, hi)
    ensures Area(0, hi, t => Excess(Cover(spans, t))) == TotalLength(spans) - |CoveredTicks(spans)|
  {
    var ticks := CoveredTicks(spans);
    var present := t => if t in ticks then 1 else 0;
    CoveredBounds(spans, hi);
    MeasureBelow(ticks, hi);
    AreaOfCover(spans, hi);
    forall t | 0 <= t < hi ensures Cover(spans, t) == Excess(Cover(spans, t)) + present(t) {
      CoveredIffCover(spans, t);
    }
    AreaAdd(0, hi, t => Excess(Cover(spans, t)), present, t => Cover(spans, t));
    assert Area(0, hi, present) == |ticks| by {
      AreaCongruent(0, hi, present, t => if t in ticks then 1 else 0);
    }
    AreaCongruent(0, hi, t => Cover(spans, t), t => Cover(spans, t));
  }

  lemma {:induction false} CoverAppend(a: seq<Span>, b: seq<Span>, t: int)
    ensures Cover(a + b, t) == Cover(a, t) + Cover(b, t)
  {
    if a == [] {
      assert a + b == b;
    } else {
      assert (a + b)[1..] == a[1..] + b;
      CoverAppend(a[1..], b, t);
    }
  }

  lemma {:induction false} TotalLengthAppend(a: seq<Span>, b: seq<Span>)
    ensures TotalLength(a + b) == TotalLength(a) + TotalLength(b)
  {
    if a == [] {
      assert a + b == b;
    } else {
      assert (a + b)[1..] == a[1..] + b;
      TotalLengthAppend(a[1..], b);
    }
  }

  lemma {:induction false} CoveredMember(spans: seq<Span>, t: int)
    ensures t in CoveredTicks(spans) <==> exists s :: s in spans && Covers(s, t)
  {
    if spans != [] {
      CoveredMember(spans[1..], t);
      assert forall s :: s in spans <==> s == spans[0] || s in spans[1..];
    }
  }
}
