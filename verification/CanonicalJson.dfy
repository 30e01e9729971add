/** The canonical printer: decimal integers, shortest escapes, no space, and object keys in one fixed order. */
module CanonicalJson {
  import opened Wrappers
  import opened JsonText

  // ---------- integers ----------

  function Decimal(n: nat): (r: Text)
    ensures r != [] && Digits(r) && (r[0] == ZERO ==> n == 0 && |r| == 1)
    ensures DigitsValue(r) == n
  {
    if n < 10 then [0x30 + n]
    else
      var r := Decimal(n / 10) + [0x30 + n % 10];
      assert r[..|r| - 1] == Decimal(n / 10);
      r
  }

  /** Digits without a leading zero are the decimal text of their value. */
  lemma {:induction false} DecimalOfDigits(k: Text)
    requires k != [] && Digits(k) && (k[0] == ZERO ==> |k| == 1)
    ensures DigitsValue(k) >= 0 && Decimal(DigitsValue(k)) == k
    ensures |k| > 1 ==> DigitsValue(k) >= 10
  {
    var init := k[..|k| - 1];
    if init == [] {
      assert DigitsValue(k[..0]) == 0;
    } else {
      DecimalOfDigits(init);
      assert |init| == 1 ==> DigitsValue(init[..0]) == 0 && DigitsValue(init) >= 1;
      assert k == init + [k[|k| - 1]];
    }
  }

  function IntegerNumeral(n: int): Numeral {
    Numeral(n < 0, Decimal(if n < 0 then -n else n), [], None)
  }

  // ---------- strings ----------

  function HexDigit(v: nat): (u: Unit)
    requires v < 16
    ensures IsHex(u) && HexValue(u) == v
  {
    if v < 10 then 0x30 + v else 0x61 + (v - 10)
  }

  /** The short escapes, the six-character escape for other control characters, and everything else as it is. */
  function Escape(u: Unit): (p: Piece)
    ensures ValidPiece(p) && PieceValue(p) == u
  {
    if u == QUOTE || u == BACKSLASH then Short(u)
    else if u == 0x08 then Short(0x62)
    else if u == 0x09 then Short(0x74)
    else if u == 0x0a then Short(0x6e)
    else if u == 0x0c then Short(0x66)
    else if u == 0x0d then Short(0x72)
    else if u < 0x20 then Hex(ZERO, ZERO, HexDigit(u / 16), HexDigit(u % 16))
    else Plain(u)
  }

  function EscapeAll(s: Text): (ps: seq<Piece>)
    ensures ValidPieces(ps) && PiecesValue(ps) == s
  {
    if s == [] then []
    else
      var ps := [Escape(s[0])] + EscapeAll(s[1..]);
      assert ps[1..] == EscapeAll(s[1..]);
      ps
  }

  // ---------- the order of object keys ----------

  const INDEX_LIMIT := 4294967295

  /** An array index as a property key: a decimal below two to the thirty-second less one. */
  predicate IsIndex(k: Text) {
    k != [] && Digits(k) && (k[0] == ZERO ==> |k| == 1) && DigitsValue(k) < INDEX_LIMIT
  }

  /** The decimals below two to the thirty-second less one. */
  lemma IndexExactly(n: nat)
    ensures IsIndex(Decimal(n)) <==> n < 0xffff_ffff
  {
  }

  predicate LexBefore(a: Text, b: Text) {
    b != [] && (a == [] || a[0] < b[0] || (a[0] == b[0] && LexBefore(a[1..], b[1..])))
  }

  /** Array indices first, by value; then the other keys, by code units. */
  predicate KeyBefore(a: Text, b: Text) {
    if IsIndex(a) then !IsIndex(b) || DigitsValue(a) < DigitsValue(b)
    else !IsIndex(b) && LexBefore(a, b)
  }

  /** A proper prefix comes first, and otherwise the first unit that differs decides. */
  lemma {:induction false} LexIsDictionary(a: Text, b: Text)
    ensures LexBefore(a, b) <==> exists n :: 0 <= n <= |a| && n < |b| && a[..n] == b[..n] && (n == |a| || a[n] < b[n])
  {
    if LexBefore(a, b) {
      if a == [] || a[0] < b[0] {
        assert a[..0] == b[..0];
      } else {
        LexIsDictionary(a[1..], b[1..]);
        var n :| 0 <= n <= |a[1..]| && n < |b[1..]| && a[1..][..n] == b[1..][..n] && (n == |a[1..]| || a[1..][n] < b[1..][n]);
        assert a[..n + 1] == [a[0]] + a[1..][..n] && b[..n + 1] == [b[0]] + b[1..][..n];
      }
    }
    if n :| 0 <= n <= |a| && n < |b| && a[..n] == b[..n] && (n == |a| || a[n] < b[n]) {
      if n > 0 {
        assert a[..n][0] == b[..n][0];
        assert a[1..][..n - 1] == a[..n][1..] && b[1..][..n - 1] == b[..n][1..];
        LexIsDictionary(a[1..], b[1..]);
      }
    }
  }

  lemma {:induction false} LexTotal(a: Text, b: Text)
    ensures !(LexBefore(a, b) && LexBefore(b, a))
    ensures a != b ==> LexBefore(a, b) || LexBefore(b, a)
    ensures a == b ==> !LexBefore(a, b)
  {
    if a != [] && b != [] {
      LexTotal(a[1..], b[1..]);
      assert a == [a[0]] + a[1..] && b == [b[0]] + b[1..];
    }
  }

  lemma {:induction false} LexTransitive(a: Text, b: Text, c: Text)
    requires LexBefore(a, b) && LexBefore(b, c)
    ensures LexBefore(a, c)
  {
    if a != [] && a[0] == b[0] && b[0] == c[0] {
      LexTransitive(a[1..], b[1..], c[1..]);
    }
  }

  lemma KeyTotal(a: Text, b: Text)
    ensures !(KeyBefore(a, b) && KeyBefore(b, a))
    ensures a != b ==> KeyBefore(a, b) || KeyBefore(b, a)
  {
    hide LexBefore, DigitsValue;
    LexTotal(a, b);
    if IsIndex(a) && IsIndex(b) {
      DecimalOfDigits(a);
      DecimalOfDigits(b);
    }
  }

  lemma KeyTransitive(a: Text, b: Text, c: Text)
    requires KeyBefore(a, b) && KeyBefore(b, c)
    ensures KeyBefore(a, c)
  {
    hide LexBefore, DigitsValue;
    if LexBefore(a, b) && LexBefore(b, c) {
      LexTransitive(a, b, c);
    }
  }

  predicate IsLeast(k: Text, keys: set<Text>) {
    k in keys && forall x :: x in keys && x != k ==> KeyBefore(k, x)
  }

  lemma {:induction false} LeastExists(keys: set<Text>)
    requires keys != {}
    ensures exists k :: IsLeast(k, keys)
  {
    hide KeyBefore;
    var x :| x in keys;
    var rest := keys - {x};
    if rest == {} {
      assert keys == {x};
      assert IsLeast(x, keys);
    } else {
      LeastExists(rest);
      var m :| IsLeast(m, rest);
      assert m in rest && m != x;
      KeyTotal(x, m);
      if KeyBefore(m, x) {
        assert IsLeast(m, keys);
      } else {
        assert KeyBefore(x, m);
        forall y | y in keys && y != x ensures KeyBefore(x, y) {
          if y != m {
            assert y in rest;
            KeyTransitive(x, m, y);
          }
        }
        assert IsLeast(x, keys);
      }
    }
  }

  predicate KeysAscend(s: seq<Text>) {
    forall i, j :: 0 <= i < j < |s| ==> KeyBefore(s[i], s[j])
  }

  /** The keys of an object in the order they are printed. */
  ghost function SortKeys(keys: set<Text>): (s: seq<Text>)
    ensures forall k :: k in s <==> k in keys
    ensures KeysAscend(s)
  {
    hide KeyBefore;
    if keys == {} then []
    else
      LeastExists(keys);
      var least :| IsLeast(least, keys);
      [least] + SortKeys(keys - {least})
  }

  /** Keys have one ascending order only. */
  lemma {:induction false} AscendingUnique(a: seq<Text>, b: seq<Text>)
    requires KeysAscend(a) && KeysAscend(b) && forall k :: k in a <==> k in b
    ensures a == b
  {
    hide KeyBefore;
    SameEmptiness(a, b);
    if a != [] {
      FirstAgree(a, b);
      forall k ensures k in a[1..] <==> k in b[1..] {
        InTail(a, k);
        InTail(b, k);
      }
      AscendingUnique(a[1..], b[1..]);
      assert a == [a[0]] + a[1..] && b == [b[0]] + b[1..];
    }
  }

  lemma SameEmptiness(a: seq<Text>, b: seq<Text>)
    requires forall k :: k in a <==> k in b
    ensures a == [] <==> b == []
  {
    if a != [] {
      assert a[0] in b;
    }
    if b != [] {
      assert b[0] in b;
    }
  }

  lemma InTail(a: seq<Text>, k: Text)
    requires KeysAscend(a) && a != []
    ensures k in a[1..] <==> k in a && k != a[0]
  {
    hide KeyBefore;
    if k in a[1..] {
      var i :| 0 <= i < |a[1..]| && a[1..][i] == k;
      assert KeyBefore(a[0], a[i + 1]);
      KeyTotal(a[0], k);
    }
  }

  lemma FirstAgree(a: seq<Text>, b: seq<Text>)
    requires a != [] && b != [] && KeysAscend(a) && KeysAscend(b) && forall k :: k in a <==> k in b
    ensures a[0] == b[0]
  {
    hide KeyBefore;
    var x, y := a[0], b[0];
    assert x in b && y in a;
    var i :| 0 <= i < |b| && b[i] == x;
    var j :| 0 <= j < |a| && a[j] == y;
    KeyTotal(x, y);
  }

  // ---------- values ----------

  /** Safe integers and paired surrogates throughout. */
  predicate Accepted(v: Json) {
    match v
    case Whole(n) => -MAX_SAFE <= n <= MAX_SAFE
    case Str(s) => Paired(s)
    case Arr(items) => forall i :: 0 <= i < |items| ==> Accepted(items[i])
    case Obj(m) => forall k :: k in m ==> Paired(k) && Accepted(m[k])
    case _ => true
  }

  /** Printing a double that is not an integer gives a numeral with a fraction or an exponent that reads back as it. */
  ghost predicate Faithful(f: Doubles) {
    forall d :: ValidNumeral(f.show(d)) && (f.show(d).fraction != [] || f.show(d).exponent.Some?) && f.read(NumeralText(f.show(d))) == Fractional(d)
  }

  /** One way to print and read: the double number d as the decimal of d followed by ".5". */
  function ShowHalf(d: nat): Numeral {
    Numeral(false, Decimal(d), [0x35], None)
  }

  function ReadHalf(t: Text): Reading {
    if |t| < 2 || DigitsValue(t[..|t| - 2]) < 0 then Refused else Fractional(DigitsValue(t[..|t| - 2]))
  }

  /** What the round trips assume of doubles can be met. */
  lemma FaithfulExists()
    ensures exists f :: Faithful(f)
  {
    var f := Doubles(ReadHalf, ShowHalf);
    forall d: nat ensures ValidNumeral(ShowHalf(d)) && ReadHalf(NumeralText(ShowHalf(d))) == Fractional(d) {
      var t := NumeralText(ShowHalf(d));
      assert t == Decimal(d) + [DOT, 0x35];
      assert t[..|t| - 2] == Decimal(d);
    }
    assert Faithful(f);
  }

  ghost function CanonicalTree(f: Doubles, v: Json): Tree
    decreases v, 1, 0
  {
    match v
    case Null => NullTree
    case Bool(b) => if b then TrueTree else FalseTree
    case Whole(n) => NumberTree(IntegerNumeral(n))
    case Inexact(d) => NumberTree(f.show(d))
    case Str(s) => StringTree(EscapeAll(s))
    case Arr(items) => if items == [] then EmptyArray([]) else ArrayTree(CanonicalElements(f, v, 0))
    case Obj(m) =>
      if m == map[] then EmptyObject([])
      else
        KeysPresent(m);
        ObjectTree(CanonicalMembers(f, v, SortKeys(m.Keys)))
  }

  lemma KeysPresent(m: map<Text, Json>)
    ensures m != map[] ==> SortKeys(m.Keys) != []
    ensures forall i :: 0 <= i < |SortKeys(m.Keys)| ==> SortKeys(m.Keys)[i] in m
  {
    hide SortKeys;
    if m != map[] {
      assert m.Keys != {};
      var k :| k in m.Keys;
      assert k in SortKeys(m.Keys);
    }
    forall i | 0 <= i < |SortKeys(m.Keys)| ensures SortKeys(m.Keys)[i] in m {
      assert SortKeys(m.Keys)[i] in SortKeys(m.Keys);
    }
  }

  ghost function CanonicalElements(f: Doubles, v: Json, i: nat): Elements
    requires v.Arr? && i < |v.items|
    decreases v, 0, |v.items| - i
  {
    var item := CanonicalTree(f, v.items[i]);
    if i + 1 == |v.items| then LastElement([], item, []) else NextElement([], item, [], CanonicalElements(f, v, i + 1))
  }

  ghost function CanonicalMembers(f: Doubles, v: Json, keys: seq<Text>): Members
    requires v.Obj? && keys != [] && forall i :: 0 <= i < |keys| ==> keys[i] in v.members
    decreases v, 0, |keys|
  {
    var item := CanonicalTree(f, v.members[keys[0]]);
    var key := EscapeAll(keys[0]);
    if |keys| == 1 then LastMember([], key, [], [], item, []) else NextMember([], key, [], [], item, [], CanonicalMembers(f, v, keys[1..]))
  }

  /** The canonical text, or a refusal. */
  ghost function CanonicalStringify(f: Doubles, v: Json): Option<Text> {
    if Accepted(v) then Some(TreeText(CanonicalTree(f, v))) else None
  }
}
