/** What makes a layout canonical, stated on its own, and that each accepted value has exactly one such layout: the printed one. */
module CanonicalJsonForm {
  import opened Wrappers
  import opened JsonText
  import opened CanonicalJson
  import opened CanonicalJsonLaws

  predicate LowerHex(u: Unit) {
    IsDigit(u) || 0x61 <= u <= 0x66
  }

  /** No escaped solidus; the six-character escape only for control characters without a short one, in lower case. */
  predicate CanonicalPiece(p: Piece)
    requires ValidPiece(p)
  {
    match p
    case Plain(_) => true
    case Short(e) => e != 0x2f
    case Hex(a, b, c, d) =>
      var u := PieceValue(p);
      u < 0x20 && u != 0x08 && u != 0x09 && u != 0x0a && u != 0x0c && u != 0x0d && LowerHex(a) && LowerHex(b) && LowerHex(c) && LowerHex(d)
  }

  predicate CanonicalPieces(ps: seq<Piece>)
    requires ValidPieces(ps)
  {
    forall i :: 0 <= i < |ps| ==> CanonicalPiece(ps[i])
  }

  /** A safe integer without fraction, exponent or a sign on zero; any other number as doubles are shown. */
  ghost predicate CanonicalNumeral(f: Doubles, n: Numeral)
    requires ValidNumeral(n)
  {
    match NumeralValue(f, n)
    case Some(Inexact(d)) => n == f.show(d)
    case _ => n.fraction == [] && n.exponent.None? && !(n.negative && n.whole == [ZERO])
  }

  /** No space anywhere, and the keys of every object strictly ascending. */
  ghost predicate CanonicalLayout(f: Doubles, t: Tree)
    requires ValidTree(t)
  {
    match t
    case NumberTree(n) => CanonicalNumeral(f, n)
    case StringTree(ps) => CanonicalPieces(ps)
    case EmptyArray(gap) => gap == []
    case ArrayTree(es) => CanonicalElementLayout(f, es)
    case EmptyObject(gap) => gap == []
    case ObjectTree(ms) => CanonicalMemberLayout(f, ms)
    case _ => true
  }

  ghost predicate CanonicalElementLayout(f: Doubles, es: Elements)
    requires ValidElements(es)
  {
    es.pre == [] && es.post == [] && CanonicalLayout(f, es.item) && (es.NextElement? ==> CanonicalElementLayout(f, es.more))
  }

  ghost predicate CanonicalMemberLayout(f: Doubles, ms: Members)
    requires ValidMembers(ms)
  {
    && ms.pre == [] && ms.gap == [] && ms.mid == [] && ms.post == [] && CanonicalPieces(ms.key) && CanonicalLayout(f, ms.item)
    && (ms.NextMember? ==> CanonicalMemberLayout(f, ms.more) && KeyBefore(PiecesValue(ms.key), PiecesValue(ms.more.key)))
  }

  // ---------- strings and numbers ----------

  lemma HexDigitOfValue(u: Unit)
    requires IsHex(u)
    ensures HexDigit(HexValue(u)) == u <==> LowerHex(u)
  {
  }

  lemma EscapeExactly(p: Piece)
    requires ValidPiece(p)
    ensures CanonicalPiece(p) <==> p == Escape(PieceValue(p))
  {
    if p.Hex? {
      HexDigitOfValue(p.a);
      HexDigitOfValue(p.b);
      HexDigitOfValue(p.c);
      HexDigitOfValue(p.d);
      var u := PieceValue(p);
      if u < 0x20 {
        assert HexValue(p.a) == 0 && HexValue(p.b) == 0 && u / 16 == HexValue(p.c) && u % 16 == HexValue(p.d);
      }
    }
  }

  lemma {:induction false} PiecesExactly(ps: seq<Piece>)
    requires ValidPieces(ps)
    ensures CanonicalPieces(ps) <==> ps == EscapeAll(PiecesValue(ps))
  {
    hide ValidPiece, CanonicalPiece, PieceValue, Escape;
    if ps != [] {
      EscapeExactly(ps[0]);
      PiecesExactly(ps[1..]);
      assert ps == [ps[0]] + ps[1..];
      assert CanonicalPieces(ps) <==> CanonicalPiece(ps[0]) && CanonicalPieces(ps[1..]) by {
        assert forall i :: 0 <= i < |ps[1..]| ==> ps[1..][i] == ps[i + 1];
        assert forall i :: 0 < i < |ps| ==> ps[i] == ps[1..][i - 1];
      }
    }
  }

  lemma ValueOfWhole(k: Text)
    requires k != [] && Digits(k) && (k[0] == ZERO ==> |k| == 1)
    ensures DigitsValue(k) >= 0 && k == Decimal(DigitsValue(k))
    ensures DigitsValue(k) == 0 <==> k == [ZERO]
  {
    DecimalOfDigits(k);
    hide DigitsValue;
    assert k == [ZERO] <==> k[0] == ZERO;
  }

  lemma NumeralExactly(f: Doubles, n: Numeral)
    requires Faithful(f) && ValidNumeral(n) && NumeralValue(f, n).Some?
    ensures CanonicalNumeral(f, n) <==> NumberTree(n) == CanonicalTree(f, NumeralValue(f, n).value)
  {
    hide Faithful, NumeralText, Decimal, DigitsValue, Digits;
    var v := NumeralValue(f, n).value;
    if n.fraction == [] && n.exponent.None? {
      ValueOfWhole(n.whole);
      var k := DigitsValue(n.whole);
      assert v == Whole(if n.negative then -k else k);
      assert k == 0 <==> n.whole == [ZERO];
    } else {
      assert v.Whole? || v.Inexact?;
    }
  }

  // ---------- layouts ----------

  /** A valid layout is canonical exactly when it is the one that is printed for its value. */
  lemma {:induction false} CanonicalExactly(f: Doubles, t: Tree)
    requires Faithful(f) && ValidTree(t) && TreeValue(f, t).Some?
    ensures CanonicalLayout(f, t) <==> t == CanonicalTree(f, TreeValue(f, t).value)
    decreases t, 1
  {
    hide Faithful, NumeralValue, ValidNumeral, CanonicalNumeral, IntegerNumeral, CanonicalPieces, ValidPieces, PiecesValue, Paired, ValidElements, ValidMembers, ElementsValue, MembersValue, CanonicalElementLayout, CanonicalMemberLayout, CanonicalElements, CanonicalMembers;
    match t
    case NumberTree(n) => NumeralExactly(f, n);
    case StringTree(ps) => PiecesExactly(ps);
    case ArrayTree(es) => ArrayExactly(f, es);
    case ObjectTree(ms) => ObjectExactly(f, ms);
    case _ =>
  }

  lemma {:induction false} ArrayExactly(f: Doubles, es: Elements)
    requires Faithful(f) && ValidElements(es) && ElementsValue(f, es).Some?
    ensures CanonicalElementLayout(f, es) <==> ArrayTree(es) == CanonicalTree(f, Arr(ElementsValue(f, es).value))
    decreases es, 2
  {
    hide Faithful, TreeValue, ValidTree, CanonicalElementLayout, CanonicalLayout;
    var v := Arr(ElementsValue(f, es).value);
    assert v.items != [];
    assert v.items[0..] == v.items;
    ElementsExactly(f, es, v, 0);
  }

  /** The elements against the printed elements of the value from position i on. */
  lemma {:induction false} ElementsExactly(f: Doubles, es: Elements, v: Json, i: nat)
    requires Faithful(f) && ValidElements(es) && ElementsValue(f, es).Some? && v.Arr? && i < |v.items|
    requires v.items[i..] == ElementsValue(f, es).value
    ensures CanonicalElementLayout(f, es) <==> es == CanonicalElements(f, v, i)
    decreases es, 1
  {
    hide Faithful, TreeValue, ValidTree, CanonicalLayout, CanonicalTree;
    CanonicalExactly(f, es.item);
    assert v.items[i] == v.items[i..][0] == TreeValue(f, es.item).value;
    assert |v.items[i..]| == |v.items| - i;
    if es.NextElement? {
      var rest := ElementsValue(f, es.more).value;
      SomeElement(f, es.more);
      assert v.items[i + 1..] == v.items[i..][1..] == rest;
      ElementsExactly(f, es.more, v, i + 1);
    } else {
      assert |v.items[i..]| == 1;
    }
  }

  lemma SomeElement(f: Doubles, es: Elements)
    requires ValidElements(es) && ElementsValue(f, es).Some?
    ensures ElementsValue(f, es).value != []
  {
  }

  lemma {:induction false} ObjectExactly(f: Doubles, ms: Members)
    requires Faithful(f) && ValidMembers(ms) && MembersValue(f, ms).Some?
    ensures CanonicalMemberLayout(f, ms) <==> ObjectTree(ms) == CanonicalTree(f, Obj(MembersValue(f, ms).value))
    decreases ms, 2
  {
    hide Faithful, TreeValue, ValidTree, CanonicalMemberLayout, CanonicalLayout, MembersValue, SortKeys, KeyBefore, CanonicalMembers;
    var m := MembersValue(f, ms).value;
    var v := Obj(m);
    FirstKeyPresent(f, ms);
    KeysPresent(m);
    var keys := SortKeys(m.Keys);
    if CanonicalMemberLayout(f, ms) {
      var listed := KeyList(f, ms);
      ListedAscend(f, ms);
      AscendingUnique(listed, keys);
      MembersExactly(f, ms, v, keys);
    }
    if ms == CanonicalMembers(f, v, keys) {
      PrintedIsCanonical(f, ms, v, keys);
    }
  }

  lemma FirstKeyPresent(f: Doubles, ms: Members)
    requires ValidMembers(ms) && MembersValue(f, ms).Some?
    ensures PiecesValue(ms.key) in MembersValue(f, ms).value && MembersValue(f, ms).value != map[]
  {
    hide TreeValue, ValidTree, PiecesValue, Paired;
  }

  /** The keys of a layout, in its order. */
  function KeyList(f: Doubles, ms: Members): (r: seq<Text>)
    requires ValidMembers(ms)
    ensures r != [] && r[0] == PiecesValue(ms.key)
  {
    [PiecesValue(ms.key)] + (if ms.NextMember? then KeyList(f, ms.more) else [])
  }

  lemma {:induction false} ListedAscend(f: Doubles, ms: Members)
    requires ValidMembers(ms) && MembersValue(f, ms).Some? && CanonicalMemberLayout(f, ms)
    ensures KeysAscend(KeyList(f, ms))
    ensures forall k :: k in KeyList(f, ms) <==> k in MembersValue(f, ms).value
  {
    hide TreeValue, ValidTree, PiecesValue, Paired, CanonicalPieces, CanonicalLayout, KeyBefore;
    if ms.NextMember? {
      ListedAscend(f, ms.more);
      var key, tail := PiecesValue(ms.key), KeyList(f, ms.more);
      forall j | 0 <= j < |tail| ensures KeyBefore(key, tail[j]) {
        if j > 0 {
          KeyTransitive(key, tail[0], tail[j]);
        }
      }
    }
  }

  /** A canonical layout of some of the members is the printed one for its keys. */
  lemma {:induction false} MembersExactly(f: Doubles, ms: Members, v: Json, keys: seq<Text>)
    requires Faithful(f) && ValidMembers(ms) && MembersValue(f, ms).Some? && CanonicalMemberLayout(f, ms)
    requires v.Obj? && keys == KeyList(f, ms) && forall k :: k in MembersValue(f, ms).value ==> k in v.members && v.members[k] == MembersValue(f, ms).value[k]
    requires forall i :: 0 <= i < |keys| ==> keys[i] in v.members
    ensures ms == CanonicalMembers(f, v, keys)
    decreases ms, 1
  {
    hide Faithful, TreeValue, ValidTree, PiecesValue, Paired, CanonicalPieces, CanonicalLayout, CanonicalTree, KeyBefore;
    var key := PiecesValue(ms.key);
    PiecesExactly(ms.key);
    CanonicalExactly(f, ms.item);
    FirstKeyPresent(f, ms);
    assert v.members[key] == TreeValue(f, ms.item).value;
    if ms.NextMember? {
      assert keys[1..] == KeyList(f, ms.more);
      assert forall k :: k in MembersValue(f, ms.more).value ==> k != key;
      MembersExactly(f, ms.more, v, keys[1..]);
    }
  }

  /** What is printed for ascending keys is canonical. */
  lemma {:induction false} PrintedIsCanonical(f: Doubles, ms: Members, v: Json, keys: seq<Text>)
    requires Faithful(f) && ValidMembers(ms) && MembersValue(f, ms).Some?
    requires v.Obj? && forall k :: k in MembersValue(f, ms).value ==> k in v.members && v.members[k] == MembersValue(f, ms).value[k]
    requires keys != [] && KeysAscend(keys) && forall i :: 0 <= i < |keys| ==> keys[i] in v.members
    requires ms == CanonicalMembers(f, v, keys)
    ensures CanonicalMemberLayout(f, ms)
    decreases ms, 1
  {
    hide Faithful, TreeValue, ValidTree, PiecesValue, Paired, CanonicalPieces, CanonicalLayout, CanonicalTree, KeyBefore;
    PiecesExactly(ms.key);
    CanonicalExactly(f, ms.item);
    FirstKeyPresent(f, ms);
    assert v.members[keys[0]] == TreeValue(f, ms.item).value;
    if ms.NextMember? {
      assert forall k :: k in MembersValue(f, ms.more).value ==> k != keys[0];
      PrintedIsCanonical(f, ms.more, v, keys[1..]);
      assert KeyBefore(keys[0], keys[1]);
    }
  }
}
