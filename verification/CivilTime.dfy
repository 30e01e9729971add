/** UTC timestamps as nanoseconds since 1970: closed-form day counting against a calendar that adds up years and months. */
module CivilTime {
  import opened Wrappers
  import opened LexOrder

  datatype Stamp = Stamp(year: int, month: int, day: int, hour: int, minute: int, second: int, fraction: seq<int>)

  // ---------- the calendar ----------

  predicate Leap(year: int) {
    year % 4 == 0 && (year % 100 != 0 || year % 400 == 0)
  }

  function YearDays(year: int): int { if Leap(year) then 366 else 365 }

  function MonthDays(year: int, month: int): int {
    if month == 2 then (if Leap(year) then 29 else 28)
    else if month == 4 || month == 6 || month == 9 || month == 11 then 30
    else 31
  }

  /** Days from the start of 1970 to the start of the year, a year at a time. */
  function YearStart(year: int): int
    decreases if year < 1970 then 1970 - year else year - 1970
  {
    if year == 1970 then 0
    else if year > 1970 then YearStart(year - 1) + YearDays(year - 1)
    else YearStart(year + 1) - YearDays(year)
  }

  /** Days from the start of the year to the start of the month, a month at a time. */
  function MonthStart(year: int, month: nat): int
    requires month >= 1
  {
    if month == 1 then 0 else MonthStart(year, month - 1) + MonthDays(year, month - 1)
  }

  predicate ValidDate(year: int, month: int, day: int) {
    1 <= year && 1 <= month <= 12 && 1 <= day <= MonthDays(year, month)
  }

  predicate ValidStamp(s: Stamp) {
    && ValidDate(s.year, s.month, s.day) && s.year <= 9999
    && 0 <= s.hour <= 23 && 0 <= s.minute <= 59 && 0 <= s.second <= 59
    && |s.fraction| <= 9 && forall i :: 0 <= i < |s.fraction| ==> 0 <= s.fraction[i] <= 9
  }

  // ---------- the closed form ----------

  /** Days since 1970 by eras of 400 years that start in March. */
  function DaysSinceEpoch(year: int, month: int, day: int): int {
    var adjustedYear := year - (if month <= 2 then 1 else 0);
    var era := adjustedYear / 400;
    var yearOfEra := adjustedYear - era * 400;
    var adjustedMonth := month + (if month > 2 then -3 else 9);
    var dayOfYear := (153 * adjustedMonth + 2) / 5 + (day - 1);
    var dayOfEra := yearOfEra * 365 + yearOfEra / 4 - yearOfEra / 100 + dayOfYear;
    era * 146097 + dayOfEra - 719468
  }

  function Pow10(n: nat): (p: int)
    ensures p > 0
  {
    if n == 0 then 1 else 10 * Pow10(n - 1)
  }

  function Value(digits: seq<int>): int {
    if digits == [] then 0 else digits[0] * Pow10(|digits| - 1) + Value(digits[1..])
  }

  /** Nine digits, with zeros on the right. */
  function Padded(fraction: seq<int>): (r: seq<int>)
    requires |fraction| <= 9
    ensures |r| == 9
  {
    fraction + seq(9 - |fraction|, _ => 0)
  }

  function Nanoseconds(s: Stamp): int
    requires |s.fraction| <= 9
  {
    (DaysSinceEpoch(s.year, s.month, s.day) * 86400 + (s.hour * 3600 + s.minute * 60 + s.second)) * 1_000_000_000 + Value(Padded(s.fraction))
  }

  // ---------- the text ----------

  predicate IsDigit(c: char) { '0' <= c <= '9' }

  predicate DigitsAt(s: string, i: nat, n: nat)
    requires i + n <= |s|
  {
    forall k :: i <= k < i + n ==> IsDigit(s[k])
  }

  function Digit(c: char): int { c as int - '0' as int }

  function Number(s: string, i: nat, n: nat): int
    requires i + n <= |s|
  {
    if n == 0 then 0 else 10 * Number(s, i, n - 1) + Digit(s[i + n - 1])
  }

  predicate Shape(s: string) {
    && |s| >= 20 && s[|s| - 1] == 'Z'
    && DigitsAt(s, 0, 4) && s[4] == '-' && DigitsAt(s, 5, 2) && s[7] == '-' && DigitsAt(s, 8, 2) && s[10] == 'T'
    && DigitsAt(s, 11, 2) && s[13] == ':' && DigitsAt(s, 14, 2) && s[16] == ':' && DigitsAt(s, 17, 2)
    && (|s| == 20 || (s[19] == '.' && 22 <= |s| <= 30 && DigitsAt(s, 20, |s| - 21)))
  }

  function Fields(s: string): Stamp
    requires Shape(s)
  {
    Stamp(Number(s, 0, 4), Number(s, 5, 2), Number(s, 8, 2), Number(s, 11, 2), Number(s, 14, 2), Number(s, 17, 2),
          if |s| == 20 then [] else seq(|s| - 21, i requires 0 <= i < |s| - 21 => Digit(s[20 + i])))
  }

  function ParseNanoseconds(s: string): Option<int> {
    if Shape(s) && ValidStamp(Fields(s)) then Some(Nanoseconds(Fields(s))) else None
  }

  // ---------- the closed form is the calendar ----------

  /** Days before March of a year in the proleptic calendar, without eras. */
  function Before(a: int): int {
    365 * a + a / 4 - a / 100 + a / 400
  }

  lemma EraForm(a: int)
    ensures var era := a / 400; var y := a - era * 400; era * 146097 + (y * 365 + y / 4 - y / 100) == Before(a)
  {
    var era := a / 400;
    var y := a - era * 400;
    assert a == 400 * era + y && 0 <= y < 400;
    assert a / 4 == 100 * era + y / 4;
    assert a / 100 == 4 * era + y / 100;
  }

  lemma BeforeStep(a: int)
    ensures Before(a) - Before(a - 1) == YearDays(a)
  {
    StepBy(a, 4);
    StepBy(a, 100);
    StepBy(a, 400);
    Multiples(a);
  }

  lemma Multiples(a: int)
    ensures a % 400 == 0 ==> a % 100 == 0
    ensures a % 100 == 0 ==> a % 4 == 0
  {
    HundredDivides(a / 400);
    FourDivides(a / 100);
  }

  lemma HundredDivides(q: int)
    ensures (400 * q) % 100 == 0
  {
  }

  lemma FourDivides(q: int)
    ensures (100 * q) % 4 == 0
  {
  }

  lemma StepBy(a: int, k: int)
    requires k == 4 || k == 100 || k == 400
    ensures a / k - (a - 1) / k == if a % k == 0 then 1 else 0
  {
  }

  /** The closed form at the start of each year is the sum of the year lengths since 1970. */
  lemma {:induction false} YearAgrees(year: int)
    ensures Before(year - 1) + 306 - 719468 == YearStart(year)
    decreases if year < 1970 then 1970 - year else year - 1970
  {
    if year == 1970 {
    } else if year > 1970 {
      YearAgrees(year - 1);
      BeforeStep(year - 1);
    } else {
      YearAgrees(year + 1);
      BeforeStep(year);
    }
  }

  lemma MonthStarts(year: int)
    ensures MonthStart(year, 1) == 0 && MonthStart(year, 2) == 31
    ensures var f := YearDays(year) - 306;
      && MonthStart(year, 3) == f && MonthStart(year, 4) == f + 31 && MonthStart(year, 5) == f + 61 && MonthStart(year, 6) == f + 92
      && MonthStart(year, 7) == f + 122 && MonthStart(year, 8) == f + 153 && MonthStart(year, 9) == f + 184 && MonthStart(year, 10) == f + 214
      && MonthStart(year, 11) == f + 245 && MonthStart(year, 12) == f + 275 && f + 306 == YearDays(year)
  {
    assert MonthStart(year, 3) == MonthStart(year, 2) + MonthDays(year, 2);
    assert MonthStart(year, 4) == MonthStart(year, 3) + 31;
    assert MonthStart(year, 5) == MonthStart(year, 4) + 30;
    assert MonthStart(year, 6) == MonthStart(year, 5) + 31;
    assert MonthStart(year, 7) == MonthStart(year, 6) + 30;
    assert MonthStart(year, 8) == MonthStart(year, 7) + 31;
    assert MonthStart(year, 9) == MonthStart(year, 8) + 31;
    assert MonthStart(year, 10) == MonthStart(year, 9) + 30;
    assert MonthStart(year, 11) == MonthStart(year, 10) + 31;
    assert MonthStart(year, 12) == MonthStart(year, 11) + 30;
  }

  lemma ClosedForm(year: int, month: int, day: int)
    ensures DaysSinceEpoch(year, month, day) == Before(year - (if month <= 2 then 1 else 0)) + (153 * (month + (if month > 2 then -3 else 9)) + 2) / 5 + (day - 1) - 719468
  {
    EraForm(year - (if month <= 2 then 1 else 0));
    hide Before;
  }

  /** The month formula gives the days since the first of March. */
  lemma MonthForm(year: int, month: int)
    requires 1 <= month <= 12
    ensures (153 * (month + (if month > 2 then -3 else 9)) + 2) / 5 == MonthStart(year, month) + (if month > 2 then 306 - YearDays(year) else 306)
  {
    MonthStarts(year);
    hide MonthStart, YearDays;
    match month
    case 1 => case 2 => case 3 => case 4 => case 5 => case 6 =>
    case 7 => case 8 => case 9 => case 10 => case 11 => case 12 =>
  }

  /** Counting days by the closed form is adding up year and month lengths from 1970. */
  lemma DaysAreCalendarDays(year: int, month: int, day: int)
    requires 1 <= month <= 12
    ensures DaysSinceEpoch(year, month, day) == YearStart(year) + MonthStart(year, month) + day - 1
  {
    hide *;
    ClosedForm(year, month, day);
    MonthForm(year, month);
    BeforeStep(year);
    YearAgrees(year);
  }

  // ---------- consecutive days ----------

  function NextDate(year: int, month: int, day: int): (int, int, int) {
    if day < MonthDays(year, month) then (year, month, day + 1)
    else if month < 12 then (year, month + 1, 1)
    else (year + 1, 1, 1)
  }

  /** The count goes up by one from each date to the next, across every month and year. */
  lemma NextDayIsOneMore(year: int, month: int, day: int)
    requires ValidDate(year, month, day)
    ensures var (y, m, d) := NextDate(year, month, day);
      ValidDate(y, m, d) && DaysSinceEpoch(y, m, d) == DaysSinceEpoch(year, month, day) + 1
  {
    var (y, m, d) := NextDate(year, month, day);
    DaysAreCalendarDays(year, month, day);
    DaysAreCalendarDays(y, m, d);
    YearEnds(year);
    YearFollows(year);
    MonthFollows(year, month);
    NextIsValid(year, month, day);
    hide DaysSinceEpoch, YearStart, MonthStart, MonthDays, YearDays, ValidDate;
  }

  lemma NextIsValid(year: int, month: int, day: int)
    requires ValidDate(year, month, day)
    ensures var (y, m, d) := NextDate(year, month, day); ValidDate(y, m, d)
    ensures 1 <= month <= 12 && day <= MonthDays(year, month) && (month == 12 ==> MonthDays(year, month) == 31)
  {
  }

  lemma MonthFollows(year: int, month: int)
    requires 1 <= month
    ensures MonthStart(year, month + 1) == MonthStart(year, month) + MonthDays(year, month) && MonthStart(year + 1, 1) == 0
  {
  }

  lemma YearEnds(year: int)
    ensures MonthStart(year, 12) + 31 == YearDays(year)
  {
    MonthStarts(year);
  }

  lemma YearFollows(year: int)
    ensures YearStart(year + 1) == YearStart(year) + YearDays(year)
  {
  }

  // ---------- order ----------

  lemma {:induction false} YearsAscend(a: int, b: int)
    requires a < b
    ensures YearStart(a) + YearDays(a) <= YearStart(b)
    decreases b - a
  {
    YearFollows(b - 1);
    if a < b - 1 {
      YearsAscend(a, b - 1);
    }
  }

  lemma {:induction false} MonthsAscend(year: int, a: nat, b: nat)
    requires 1 <= a < b
    ensures MonthStart(year, a) + MonthDays(year, a) <= MonthStart(year, b)
    decreases b
  {
    if a < b - 1 {
      MonthsAscend(year, a, b - 1);
    }
  }

  predicate EarlierDate(a: Stamp, b: Stamp) {
    a.year < b.year || (a.year == b.year && (a.month < b.month || (a.month == b.month && a.day < b.day)))
  }

  lemma DatesAscend(a: Stamp, b: Stamp)
    requires ValidStamp(a) && ValidStamp(b) && EarlierDate(a, b)
    ensures DaysSinceEpoch(a.year, a.month, a.day) < DaysSinceEpoch(b.year, b.month, b.day)
  {
    DaysAreCalendarDays(a.year, a.month, a.day);
    DaysAreCalendarDays(b.year, b.month, b.day);
    WithinYear(a);
    WithinYear(b);
    hide DaysSinceEpoch, YearStart, MonthStart;
    if a.year < b.year {
      YearsAscend(a.year, b.year);
    } else if a.month < b.month {
      MonthsAscend(a.year, a.month, b.month);
    }
  }

  lemma WithinYear(s: Stamp)
    requires ValidStamp(s)
    ensures 0 <= MonthStart(s.year, s.month) && MonthStart(s.year, s.month) + s.day <= YearDays(s.year)
  {
    hide MonthStart;
    MonthStarts(s.year);
    if s.month < 12 {
      MonthsAscend(s.year, s.month, 12);
    }
  }

  predicate Digits(d: seq<int>) {
    forall i :: 0 <= i < |d| ==> 0 <= d[i] <= 9
  }

  lemma {:induction false} ValueBounds(d: seq<int>)
    requires Digits(d)
    ensures 0 <= Value(d) < Pow10(|d|)
  {
    if d != [] {
      ValueBounds(d[1..]);
      ScaleBounds(d[0], Pow10(|d| - 1));
    }
  }

  lemma ScaleBounds(x: int, p: int)
    requires 0 <= x <= 9 && p > 0
    ensures 0 <= x * p <= 9 * p
  {
  }

  lemma {:induction false} ScaleGap(x: int, y: int, p: int)
    requires x < y && p > 0
    ensures x * p + p <= y * p
    decreases y - x
  {
    if x + 1 < y {
      ScaleGap(x + 1, y, p);
    }
  }

  /** Equally long digit strings rank by value. */
  lemma {:induction false} DigitsAscend(a: seq<int>, b: seq<int>)
    requires |a| == |b| && Digits(a) && Digits(b)
    ensures CompareKeys(a, b) < 0 <==> Value(a) < Value(b)
  {
    if a != [] {
      var p := Pow10(|a| - 1);
      ValueBounds(a[1..]);
      ValueBounds(b[1..]);
      if a[0] < b[0] {
        ScaleGap(a[0], b[0], p);
      } else if b[0] < a[0] {
        ScaleGap(b[0], a[0], p);
      } else {
        DigitsAscend(a[1..], b[1..]);
      }
    }
  }

  /** Civil order: the date, then the time of day, then the fraction digit by digit. */
  predicate Earlier(a: Stamp, b: Stamp)
    requires |a.fraction| <= 9 && |b.fraction| <= 9
  {
    EarlierDate(a, b)
    || (a.year == b.year && a.month == b.month && a.day == b.day
        && CompareKeys([a.hour, a.minute, a.second] + Padded(a.fraction), [b.hour, b.minute, b.second] + Padded(b.fraction)) < 0)
  }

  function SecondOfDay(s: Stamp): int { s.hour * 3600 + s.minute * 60 + s.second }

  lemma TimesAscend(a: Stamp, b: Stamp)
    requires ValidStamp(a) && ValidStamp(b)
    ensures CompareKeys([a.hour, a.minute, a.second] + Padded(a.fraction), [b.hour, b.minute, b.second] + Padded(b.fraction)) < 0
       <==> SecondOfDay(a) * 1_000_000_000 + Value(Padded(a.fraction)) < SecondOfDay(b) * 1_000_000_000 + Value(Padded(b.fraction))
  {
    var f, g := Padded(a.fraction), Padded(b.fraction);
    DigitsAscend(f, g);
    ValueBounds(f);
    ValueBounds(g);
    BillionIs();
    TimeKeys(a, b);
    hide Padded, Value, Pow10;
  }

  lemma BillionIs()
    ensures Pow10(9) == 1_000_000_000
  {
    assert Pow10(3) == 1000;
    assert Pow10(6) == 1000000;
  }

  lemma SecondBounds(s: Stamp)
    requires ValidStamp(s)
    ensures 0 <= SecondOfDay(s) < 86400 && 0 <= Value(Padded(s.fraction)) < 1_000_000_000
  {
    ValueBounds(Padded(s.fraction));
    BillionIs();
  }

  /** Accepted timestamps are ordered as their nanoseconds are. */
  lemma OrderIsCivilOrder(a: Stamp, b: Stamp)
    requires ValidStamp(a) && ValidStamp(b)
    ensures Earlier(a, b) <==> Nanoseconds(a) < Nanoseconds(b)
  {
    SecondBounds(a);
    SecondBounds(b);
    TimesAscend(a, b);
    if EarlierDate(a, b) {
      DatesAscend(a, b);
    } else if EarlierDate(b, a) {
      DatesAscend(b, a);
    }
    hide DaysSinceEpoch, Padded, Value, CompareKeys;
  }

  // ---------- accepted texts ----------

  /** An accepted text without its final Z, its fraction written out to nine digits. */
  function NineDigits(s: string): (r: string)
    requires Shape(s)
    ensures |r| == 28 && r[..19] == s[..19]
  {
    var fraction := if |s| == 20 then "" else s[20..|s| - 1];
    s[..19] + fraction + seq(9 - |fraction|, _ => '0')
  }

  function Ranks(s: string): seq<int> {
    seq(|s|, i requires 0 <= i < |s| => s[i] as int)
  }

  predicate SameSign(x: int, y: int) {
    (x < 0 <==> y < 0) && (x > 0 <==> y > 0)
  }

  lemma {:induction false} CompareAppend(a: seq<int>, b: seq<int>, x: seq<int>, y: seq<int>)
    requires |a| == |x| && |b| == |y|
    ensures CompareKeys(a + b, x + y) == OrElse(CompareKeys(a, x), CompareKeys(b, y))
  {
    if a == [] {
      assert a + b == b && x + y == y;
    } else {
      CompareAppend(a[1..], b, x[1..], y);
      assert (a + b)[1..] == a[1..] + b && (x + y)[1..] == x[1..] + y;
    }
  }

  lemma {:induction false} ShiftCompare(a: seq<int>, b: seq<int>, x: seq<int>, y: seq<int>, k: int)
    requires |a| == |b| == |x| == |y|
    requires forall i :: 0 <= i < |a| ==> a[i] == x[i] + k && b[i] == y[i] + k
    ensures CompareKeys(a, b) == CompareKeys(x, y)
  {
    if a != [] {
      ShiftCompare(a[1..], b[1..], x[1..], y[1..], k);
    }
  }

  /** How two texts compare from one position up to another. */
  function CompareRange(u: string, v: string, i: nat, j: nat): int
    requires i <= j <= |u| == |v|
  {
    CompareKeys(Ranks(u[i..j]), Ranks(v[i..j]))
  }

  lemma RangeSplit(u: string, v: string, i: nat, m: nat, j: nat)
    requires i <= m <= j <= |u| == |v|
    ensures CompareRange(u, v, i, j) == OrElse(CompareRange(u, v, i, m), CompareRange(u, v, m, j))
  {
    assert Ranks(u[i..j]) == Ranks(u[i..m]) + Ranks(u[m..j]);
    assert Ranks(v[i..j]) == Ranks(v[i..m]) + Ranks(v[m..j]);
    CompareAppend(Ranks(u[i..m]), Ranks(u[m..j]), Ranks(v[i..m]), Ranks(v[m..j]));
  }

  lemma OneCompare(u: string, v: string, i: nat)
    requires i < |u| == |v|
    ensures CompareRange(u, v, i, i + 1) == u[i] as int - v[i] as int
  {
    var a, b := Ranks(u[i..i + 1]), Ranks(v[i..i + 1]);
    assert CompareKeys(a[1..], b[1..]) == 0;
  }

  /** A block of digits compares as the number it spells. */
  lemma {:induction false} NumbersCompare(u: string, v: string, i: nat, n: nat)
    requires i + n <= |u| == |v| && DigitsAt(u, i, n) && DigitsAt(v, i, n)
    ensures SameSign(CompareRange(u, v, i, i + n), Number(u, i, n) - Number(v, i, n))
  {
    if n > 0 {
      NumbersCompare(u, v, i, n - 1);
      RangeSplit(u, v, i, i + n - 1, i + n);
      OneCompare(u, v, i + n - 1);
    }
  }

  lemma {:induction false} SameNumber(s: string, u: string, i: nat, n: nat)
    requires i + n <= |s| && i + n <= |u| && forall k :: i <= k < i + n ==> s[k] == u[k]
    ensures Number(s, i, n) == Number(u, i, n)
  {
    if n > 0 {
      SameNumber(s, u, i, n - 1);
    }
  }

  /** A separator is the same in both texts, and a number block before it compares as the numbers. */
  lemma BlockThenRest(s: string, t: string, i: nat, n: nat, skip: nat)
    requires Shape(s) && Shape(t) && i + n + skip <= 19 && DigitsAt(s, i, n) && DigitsAt(t, i, n)
    requires skip == 0 || (skip == 1 && s[i + n] == t[i + n])
    ensures var u, v, d := NineDigits(s), NineDigits(t), Number(s, i, n) - Number(t, i, n);
            SameSign(CompareRange(u, v, i, 28), if d != 0 then d else CompareRange(u, v, i + n + skip, 28))
  {
    var u, v := NineDigits(s), NineDigits(t);
    assert forall k :: 0 <= k < 19 ==> u[k] == u[..19][k] == s[k] && v[k] == v[..19][k] == t[k];
    hide Shape, NineDigits;
    SameNumber(s, u, i, n);
    SameNumber(t, v, i, n);
    NumbersCompare(u, v, i, n);
    RangeSplit(u, v, i, i + n, 28);
    if skip == 1 {
      RangeSplit(u, v, i + n, i + n + 1, 28);
      OneCompare(u, v, i + n);
    }
  }

  lemma FractionsCompare(s: string, t: string)
    requires ParseNanoseconds(s).Some? && ParseNanoseconds(t).Some?
    ensures CompareRange(NineDigits(s), NineDigits(t), 19, 28) == CompareKeys(Padded(Fields(s).fraction), Padded(Fields(t).fraction))
  {
    FractionRanks(s);
    FractionRanks(t);
    hide ParseNanoseconds, Fields, NineDigits, Padded;
    var f, g := Padded(Fields(s).fraction), Padded(Fields(t).fraction);
    ShiftCompare(Ranks(NineDigits(s)[19..28]), Ranks(NineDigits(t)[19..28]), f, g, '0' as int);
  }

  lemma FractionRanks(s: string)
    requires ParseNanoseconds(s).Some?
    ensures |Fields(s).fraction| <= 9
    ensures forall i :: 0 <= i < 9 ==> Ranks(NineDigits(s)[19..28])[i] == Padded(Fields(s).fraction)[i] + '0' as int
  {
    Parsed(s);
    hide ParseNanoseconds, Number, DigitsAt;
    var u := NineDigits(s);
    forall i | 0 <= i < 9 ensures Ranks(u[19..28])[i] == Padded(Fields(s).fraction)[i] + '0' as int {
      assert u[19..28][i] == u[19 + i];
      assert |s| > 20 && i < |s| - 21 ==> u[19 + i] == s[20..|s| - 1][i] == s[20 + i];
    }
  }

  lemma Parsed(s: string)
    requires ParseNanoseconds(s).Some?
    ensures Shape(s) && ValidStamp(Fields(s)) && ParseNanoseconds(s).value == Nanoseconds(Fields(s))
  {
  }

  lemma FieldNumbers(s: string)
    requires Shape(s)
    ensures var a := Fields(s);
            && a.year == Number(s, 0, 4) && a.month == Number(s, 5, 2) && a.day == Number(s, 8, 2)
            && a.hour == Number(s, 11, 2) && a.minute == Number(s, 14, 2) && a.second == Number(s, 17, 2)
  {
    hide Number, DigitsAt;
  }

  /** The comparison of the dates, number by number, before that of the times. */
  lemma DateTextCompare(s: string, t: string)
    requires Shape(s) && Shape(t)
    ensures var a, b, u, v := Fields(s), Fields(t), NineDigits(s), NineDigits(t);
            SameSign(CompareRange(u, v, 0, 28), OrElse(a.year - b.year, OrElse(a.month - b.month, OrElse(a.day - b.day, CompareRange(u, v, 11, 28)))))
  {
    BlockThenRest(s, t, 0, 4, 1);
    BlockThenRest(s, t, 5, 2, 1);
    BlockThenRest(s, t, 8, 2, 1);
    FieldNumbers(s);
    FieldNumbers(t);
    hide Shape, Fields, DigitsAt, CompareRange, NineDigits, Number;
  }

  lemma TimeTextCompare(s: string, t: string)
    requires Shape(s) && Shape(t)
    ensures var a, b, u, v := Fields(s), Fields(t), NineDigits(s), NineDigits(t);
            SameSign(CompareRange(u, v, 11, 28), OrElse(a.hour - b.hour, OrElse(a.minute - b.minute, OrElse(a.second - b.second, CompareRange(u, v, 19, 28)))))
  {
    BlockThenRest(s, t, 11, 2, 1);
    BlockThenRest(s, t, 14, 2, 1);
    BlockThenRest(s, t, 17, 2, 0);
    FieldNumbers(s);
    FieldNumbers(t);
    hide Shape, Fields, DigitsAt, CompareRange, NineDigits, Number;
  }

  /** The whole comparison, number by number. */
  lemma TextCompare(s: string, t: string)
    requires ParseNanoseconds(s).Some? && ParseNanoseconds(t).Some?
    ensures var a, b := Fields(s), Fields(t);
            SameSign(CompareRange(NineDigits(s), NineDigits(t), 0, 28),
                     OrElse(a.year - b.year, OrElse(a.month - b.month, OrElse(a.day - b.day, OrElse(a.hour - b.hour,
                       OrElse(a.minute - b.minute, OrElse(a.second - b.second, CompareKeys(Padded(a.fraction), Padded(b.fraction)))))))))
  {
    Parsed(s);
    Parsed(t);
    hide ParseNanoseconds, Shape, Fields, ValidDate, DigitsAt, CompareRange, NineDigits, Number, Padded, CompareKeys, Nanoseconds;
    DateTextCompare(s, t);
    TimeTextCompare(s, t);
    FractionsCompare(s, t);
  }

  lemma CivilCompare(a: Stamp, b: Stamp)
    requires ValidStamp(a) && ValidStamp(b)
    ensures SameSign(OrElse(a.year - b.year, OrElse(a.month - b.month, OrElse(a.day - b.day, OrElse(a.hour - b.hour,
                       OrElse(a.minute - b.minute, OrElse(a.second - b.second, CompareKeys(Padded(a.fraction), Padded(b.fraction)))))))),
                     Nanoseconds(a) - Nanoseconds(b))
  {
    OrderIsCivilOrder(a, b);
    OrderIsCivilOrder(b, a);
    KeysAntisymmetric(Padded(a.fraction), Padded(b.fraction));
    hide Nanoseconds, Padded, CompareKeys;
    TimeKeys(a, b);
    TimeKeys(b, a);
  }

  lemma TimeKeys(a: Stamp, b: Stamp)
    requires |a.fraction| <= 9 && |b.fraction| <= 9
    ensures CompareKeys([a.hour, a.minute, a.second] + Padded(a.fraction), [b.hour, b.minute, b.second] + Padded(b.fraction)) ==
            OrElse(a.hour - b.hour, OrElse(a.minute - b.minute, OrElse(a.second - b.second, CompareKeys(Padded(a.fraction), Padded(b.fraction)))))
  {
    var f, g := Padded(a.fraction), Padded(b.fraction);
    hide Padded;
    assert ([a.hour, a.minute, a.second] + f)[1..] == [a.minute, a.second] + f && ([a.minute, a.second] + f)[1..] == [a.second] + f && ([a.second] + f)[1..] == f;
    assert ([b.hour, b.minute, b.second] + g)[1..] == [b.minute, b.second] + g && ([b.minute, b.second] + g)[1..] == [b.second] + g && ([b.second] + g)[1..] == g;
    assert CompareKeys([a.second] + f, [b.second] + g) == OrElse(a.second - b.second, CompareKeys(f, g));
    assert CompareKeys([a.minute, a.second] + f, [b.minute, b.second] + g) == OrElse(a.minute - b.minute, CompareKeys([a.second] + f, [b.second] + g));
  }

  /** Two accepted texts rank as instants exactly as they rank character by character once their fractions have nine digits. */
  lemma TextsRankAsInstants(s: string, t: string)
    requires ParseNanoseconds(s).Some? && ParseNanoseconds(t).Some?
    ensures CompareKeys(Ranks(NineDigits(s)), Ranks(NineDigits(t))) < 0 <==> ParseNanoseconds(s).value < ParseNanoseconds(t).value
    ensures NineDigits(s) == NineDigits(t) <==> ParseNanoseconds(s).value == ParseNanoseconds(t).value
  {
    Parsed(s);
    Parsed(t);
    hide Shape, Fields, NineDigits, ValidStamp, Nanoseconds, ParseNanoseconds, Padded, CompareKeys, Ranks;
    TextCompare(s, t);
    CivilCompare(Fields(s), Fields(t));
    var u, v := NineDigits(s), NineDigits(t);
    assert u[0..28] == u && v[0..28] == v;
    SameRanks(u, v);
    KeysAntisymmetric(Ranks(u), Ranks(v));
  }

  lemma SameRanks(u: string, v: string)
    ensures |Ranks(u)| == |u| && |Ranks(v)| == |v|
    ensures Ranks(u) == Ranks(v) <==> u == v
  {
    if Ranks(u) == Ranks(v) {
      forall i | 0 <= i < |u| ensures u[i] == v[i] {
        assert Ranks(u)[i] == Ranks(v)[i];
      }
    }
  }

  // ---------- the value ----------

  /** One second later, carrying into the minute, the hour and the date. */
  function NextSecond(s: Stamp): Stamp {
    if s.second < 59 then s.(second := s.second + 1)
    else if s.minute < 59 then s.(second := 0, minute := s.minute + 1)
    else if s.hour < 23 then s.(second := 0, minute := 0, hour := s.hour + 1)
    else
      var (y, m, d) := NextDate(s.year, s.month, s.day);
      s.(second := 0, minute := 0, hour := 0, year := y, month := m, day := d)
  }

  /** Each second is a billion nanoseconds, across every minute, hour, day, month and year. */
  lemma NextSecondCounts(s: Stamp)
    requires ValidStamp(s)
    ensures Nanoseconds(NextSecond(s)) == Nanoseconds(s) + 1_000_000_000
    ensures ValidStamp(NextSecond(s)) <==> NextSecond(s).year <= 9999
  {
    NextDayIsOneMore(s.year, s.month, s.day);
    hide DaysSinceEpoch, NextDate, ValidDate, Padded, Value;
  }

  /** Nine digits read as one number. */
  function Nine(f: seq<int>): int
    requires |f| == 9
  {
    f[0] * 100_000_000 + f[1] * 10_000_000 + f[2] * 1_000_000 + f[3] * 100_000 + f[4] * 10_000 + f[5] * 1000 + f[6] * 100 + f[7] * 10 + f[8]
  }

  /** Within one second the nanoseconds differ as the fractions do. */
  lemma FractionCounts(a: Stamp, b: Stamp)
    requires ValidStamp(a) && ValidStamp(b) && a.(fraction := []) == b.(fraction := [])
    ensures Nanoseconds(a) - Nanoseconds(b) == Nine(Padded(a.fraction)) - Nine(Padded(b.fraction))
  {
    NineValue(Padded(a.fraction));
    NineValue(Padded(b.fraction));
    var x, y := a.(fraction := []), b.(fraction := []);
    assert x.year == y.year && x.month == y.month && x.day == y.day && x.hour == y.hour && x.minute == y.minute && x.second == y.second;
    hide DaysSinceEpoch, Padded, Value, Nine;
  }

  lemma NineValue(f: seq<int>)
    requires |f| == 9
    ensures Value(f) == Nine(f)
  {
    BillionIs();
    ValueFrom(f, 8);
    ValueFrom(f, 7);
    ValueFrom(f, 6);
    ValueFrom(f, 5);
    ValueFrom(f, 4);
    ValueFrom(f, 3);
    ValueFrom(f, 2);
    ValueFrom(f, 1);
    ValueFrom(f, 0);
    assert f[9..] == [] && f[0..] == f;
    PowersOfTen();
    hide Value, Pow10;
  }

  lemma ValueFrom(f: seq<int>, i: nat)
    requires i < |f|
    ensures Value(f[i..]) == f[i] * Pow10(|f| - i - 1) + Value(f[i + 1..])
    ensures Value(f[|f|..]) == 0
  {
    assert f[i..][1..] == f[i + 1..];
  }

  lemma PowersOfTen()
    ensures Pow10(0) == 1 && Pow10(1) == 10 && Pow10(2) == 100 && Pow10(3) == 1000 && Pow10(4) == 10_000
    ensures Pow10(5) == 100_000 && Pow10(6) == 1_000_000 && Pow10(7) == 10_000_000 && Pow10(8) == 100_000_000
  {
    assert Pow10(2) == 100;
    assert Pow10(4) == 10_000;
    assert Pow10(6) == 1_000_000;
  }

  /** The count starts at the start of 1970. */
  lemma EpochIsZero()
    ensures ParseNanoseconds("1970-01-01T00:00:00Z") == Some(0)
  {
    hide *;
    var epoch := Stamp(1970, 1, 1, 0, 0, 0, []);
    EpochCounts(epoch);
    EpochText(epoch);
    TextParses(epoch);
  }

  lemma EpochCounts(epoch: Stamp)
    requires epoch == Stamp(1970, 1, 1, 0, 0, 0, [])
    ensures ValidStamp(epoch) && Nanoseconds(epoch) == 0
  {
    DaysAreCalendarDays(1970, 1, 1);
    NoFraction();
    hide DaysSinceEpoch, Padded, Value, Pow10;
  }

  lemma NoFraction()
    ensures Value(Padded([])) == 0
  {
    var zeros := Padded([]);
    assert forall i :: 0 <= i < 9 ==> zeros[i] == 0;
    NineValue(zeros);
    hide Padded, Value;
  }

  lemma EpochText(epoch: Stamp)
    requires epoch == Stamp(1970, 1, 1, 0, 0, 0, []) && ValidStamp(epoch)
    ensures TextOf(epoch) == "1970-01-01T00:00:00Z"
  {
    assert Decimal(1970, 4) == "1970" by {
      assert Decimal(1, 1) == "1";
      assert Decimal(19, 2) == "19";
      assert Decimal(197, 3) == "197";
    }
    assert Decimal(1, 2) == "01" && Decimal(0, 2) == "00" by {
      assert Decimal(0, 1) == "0";
    }
    hide Decimal;
  }

  // ---------- exactly which texts are accepted ----------

  /** A number in a fixed number of digits. */
  function Decimal(v: nat, width: nat): (r: string)
    ensures |r| == width && forall i :: 0 <= i < width ==> IsDigit(r[i])
  {
    if width == 0 then "" else Decimal(v / 10, width - 1) + [('0' as int + v % 10) as char]
  }

  function FractionText(fraction: seq<int>): string
    requires forall i :: 0 <= i < |fraction| ==> 0 <= fraction[i] <= 9
  {
    seq(|fraction|, i requires 0 <= i < |fraction| => ('0' as int + fraction[i]) as char)
  }

  /** The text of a stamp. */
  function TextOf(s: Stamp): string
    requires ValidStamp(s)
  {
    Decimal(s.year, 4) + "-" + Decimal(s.month, 2) + "-" + Decimal(s.day, 2) + "T" + Decimal(s.hour, 2) + ":" + Decimal(s.minute, 2) + ":" + Decimal(s.second, 2)
    + (if s.fraction == [] then "" else "." + FractionText(s.fraction)) + "Z"
  }

  lemma {:induction false} DecimalReads(s: string, i: nat, v: nat, width: nat)
    requires i + width <= |s| && s[i..i + width] == Decimal(v, width) && v < Pow10(width)
    ensures Number(s, i, width) == v
  {
    if width > 0 {
      var front := Decimal(v / 10, width - 1);
      var block := s[i..i + width];
      assert block == front + [('0' as int + v % 10) as char];
      assert |front| == width - 1;
      forall k | 0 <= k < width - 1 ensures s[i + k] == front[k] {
        assert block[k] == s[i + k];
      }
      assert s[i..i + width - 1] == front;
      assert s[i + width - 1] == block[width - 1];
      DecimalReads(s, i, v / 10, width - 1);
    }
  }

  lemma {:induction false} DecimalWrites(s: string, i: nat, width: nat)
    requires i + width <= |s| && DigitsAt(s, i, width)
    ensures 0 <= Number(s, i, width) < Pow10(width) && Decimal(Number(s, i, width), width) == s[i..i + width]
  {
    if width > 0 {
      DecimalWrites(s, i, width - 1);
      assert s[i..i + width] == s[i..i + width - 1] + [s[i + width - 1]];
    }
  }

  /** The text of a valid stamp is accepted, and read as that stamp. */
  lemma TextParses(s: Stamp)
    requires ValidStamp(s)
    ensures Shape(TextOf(s)) && Fields(TextOf(s)) == s
    ensures ParseNanoseconds(TextOf(s)) == Some(Nanoseconds(s))
  {
    var t := TextOf(s);
    PowersOfTen();
    DayBelow(s);
    TextPieces(s);
    FieldNumbers(t);
    FractionReads(s);
    hide TextOf, Shape, Fields, Pow10, ValidDate, Number, Decimal, Nanoseconds;
    DecimalReads(t, 0, s.year, 4);
    DecimalReads(t, 5, s.month, 2);
    DecimalReads(t, 8, s.day, 2);
    DecimalReads(t, 11, s.hour, 2);
    DecimalReads(t, 14, s.minute, 2);
    DecimalReads(t, 17, s.second, 2);
  }

  lemma FractionReads(s: Stamp)
    requires ValidStamp(s)
    ensures Shape(TextOf(s)) && Fields(TextOf(s)).fraction == s.fraction
  {
    var t := TextOf(s);
    TextPieces(s);
    hide TextOf, DigitsAt, ValidDate, Number, Decimal;
    var read := Fields(t).fraction;
    assert |read| == |s.fraction|;
    forall k | 0 <= k < |read| ensures read[k] == s.fraction[k] {
      assert t[20 + k] == ('0' as int + s.fraction[k]) as char;
    }
  }

  lemma DayBelow(s: Stamp)
    requires ValidStamp(s)
    ensures 0 <= s.year < 10_000 && 0 <= s.month < 100 && 0 <= s.day < 100
  {
  }

  lemma TextPieces(s: Stamp)
    requires ValidStamp(s)
    ensures var t := TextOf(s);
            && |t| == (if s.fraction == [] then 20 else 21 + |s.fraction|) && t[|t| - 1] == 'Z'
            && t[0..4] == Decimal(s.year, 4) && t[4] == '-' && t[5..7] == Decimal(s.month, 2) && t[7] == '-' && t[8..10] == Decimal(s.day, 2) && t[10] == 'T'
            && t[11..13] == Decimal(s.hour, 2) && t[13] == ':' && t[14..16] == Decimal(s.minute, 2) && t[16] == ':' && t[17..19] == Decimal(s.second, 2)
            && (s.fraction != [] ==> t[19] == '.' && forall k :: 0 <= k < |s.fraction| ==> t[20 + k] == ('0' as int + s.fraction[k]) as char)
    ensures Shape(TextOf(s))
  {
    hide ValidDate, Decimal;
  }

  lemma NumbersWritten(t: string)
    requires Shape(t)
    ensures var s := Fields(t);
            && 0 <= s.year && 0 <= s.month && 0 <= s.day && 0 <= s.hour && 0 <= s.minute && 0 <= s.second
            && Decimal(s.year, 4) == t[0..4] && Decimal(s.month, 2) == t[5..7] && Decimal(s.day, 2) == t[8..10]
            && Decimal(s.hour, 2) == t[11..13] && Decimal(s.minute, 2) == t[14..16] && Decimal(s.second, 2) == t[17..19]
  {
    DecimalWrites(t, 0, 4);
    DecimalWrites(t, 5, 2);
    DecimalWrites(t, 8, 2);
    DecimalWrites(t, 11, 2);
    DecimalWrites(t, 14, 2);
    DecimalWrites(t, 17, 2);
    hide Decimal, Number;
  }

  lemma ShapePieces(t: string)
    requires Shape(t)
    ensures t == t[0..4] + "-" + t[5..7] + "-" + t[8..10] + "T" + t[11..13] + ":" + t[14..16] + ":" + t[17..19] + t[19..|t| - 1] + "Z"
  {
    hide DigitsAt;
  }

  lemma FractionWritten(t: string)
    requires ParseNanoseconds(t).Some?
    ensures t[19..|t| - 1] == (if Fields(t).fraction == [] then "" else "." + FractionText(Fields(t).fraction))
    ensures forall i :: 0 <= i < |Fields(t).fraction| ==> 0 <= Fields(t).fraction[i] <= 9
  {
    Parsed(t);
    hide Number, ValidDate;
    if |t| > 20 {
      assert t[19..|t| - 1] == "." + FractionText(Fields(t).fraction);
    }
  }

  /** An accepted text is the text of the stamp it is read as. */
  lemma ParsedIsText(t: string)
    requires ParseNanoseconds(t).Some?
    ensures ValidStamp(Fields(t)) && TextOf(Fields(t)) == t
  {
    Parsed(t);
    NumbersWritten(t);
    ShapePieces(t);
    FractionWritten(t);
    hide ParseNanoseconds, Shape, Fields, Decimal, Number, ValidDate, FractionText;
  }

  /** Accepted are exactly the texts of valid stamps. */
  lemma AcceptsExactly(t: string)
    ensures ParseNanoseconds(t).Some? <==> exists s :: ValidStamp(s) && t == TextOf(s)
  {
    if ParseNanoseconds(t).Some? {
      ParsedIsText(t);
    }
    if s :| ValidStamp(s) && t == TextOf(s) {
      TextParses(s);
    }
  }

  /** The first accepted second is the first of the year one. */
  lemma FirstAccepted(t: string)
    requires ParseNanoseconds(t).Some?
    ensures var first := Stamp(1, 1, 1, 0, 0, 0, []); ValidStamp(first) && Nanoseconds(first) <= ParseNanoseconds(t).value
  {
    Parsed(t);
    var first := Stamp(1, 1, 1, 0, 0, 0, []);
    hide ParseNanoseconds, Shape, Fields, Nanoseconds;
    OrderIsCivilOrder(Fields(t), first);
    hide Earlier;
    NotEarlier(Fields(t), first);
  }

  lemma NotEarlier(s: Stamp, first: Stamp)
    requires ValidStamp(s) && first == Stamp(1, 1, 1, 0, 0, 0, [])
    ensures !Earlier(s, first)
  {
    TimeKeys(s, first);
    ZerosFirst(Padded(s.fraction));
    assert Padded(first.fraction) == seq(9, _ => 0);
    hide Padded, CompareKeys;
  }

  lemma {:induction false} ZerosFirst(f: seq<int>)
    requires Digits(f)
    ensures CompareKeys(f, seq(|f|, _ => 0)) >= 0
  {
    var zeros := seq(|f|, _ => 0);
    if f != [] {
      ZerosFirst(f[1..]);
      assert zeros[1..] == seq(|f[1..]|, _ => 0);
    }
  }
}
