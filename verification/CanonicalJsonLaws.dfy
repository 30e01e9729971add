/** Strict parsing and canonical printing undo each other. */
module CanonicalJsonLaws {
  import opened Wrappers
  import opened JsonText
  import opened StrictJson
  import opened StrictJsonLaws
  import opened StrictJsonSound
  import opened CanonicalJson

  // ---------- the canonical layout stands for the value ----------

  lemma IntegerLayout(f: Doubles, n: int)
    requires -MAX_SAFE <= n <= MAX_SAFE
    ensures ValidNumeral(IntegerNumeral(n)) && NumeralValue(f, IntegerNumeral(n)) == Some(Whole(n))
  {
  }

  lemma DoubleLayout(f: Doubles, d: nat)
    requires Faithful(f)
    ensures ValidNumeral(f.show(d)) && NumeralValue(f, f.show(d)) == Some(Inexact(d))
  {
    hide NumeralText, ValidNumeral;
    var n := f.show(d);
    assert n.fraction != [] || n.exponent.Some?;
  }

  lemma {:induction false} TreeLayout(f: Doubles, v: Json)
    requires Faithful(f) && Accepted(v)
    ensures ValidTree(CanonicalTree(f, v)) && TreeValue(f, CanonicalTree(f, v)) == Some(v)
    decreases v, 1, 0
  {
    hide Faithful, NumeralValue, ValidNumeral, IntegerNumeral, ValidPieces, ValidElements, ValidMembers, ElementsValue, MembersValue, CanonicalElements, CanonicalMembers;
    match v
    case Whole(n) => IntegerLayout(f, n);
    case Inexact(d) => DoubleLayout(f, d);
    case Arr(items) =>
      if items != [] {
        ElementsLayout(f, v, 0);
        assert items[0..] == items;
      }
    case Obj(m) => ObjectLayout(f, v);
    case _ =>
  }

  lemma {:induction false} ElementsLayout(f: Doubles, v: Json, i: nat)
    requires Faithful(f) && Accepted(v) && v.Arr? && i < |v.items|
    ensures ValidElements(CanonicalElements(f, v, i)) && ElementsValue(f, CanonicalElements(f, v, i)) == Some(v.items[i..])
    decreases v, 0, |v.items| - i
  {
    hide Faithful, CanonicalTree, TreeValue, ValidTree;
    TreeLayout(f, v.items[i]);
    assert v.items[i..] == [v.items[i]] + v.items[i + 1..];
    if i + 1 < |v.items| {
      ElementsLayout(f, v, i + 1);
    }
  }

  lemma {:induction false} ObjectLayout(f: Doubles, v: Json)
    requires Faithful(f) && Accepted(v) && v.Obj?
    ensures ValidTree(CanonicalTree(f, v)) && TreeValue(f, CanonicalTree(f, v)) == Some(v)
    decreases v, 0, |v.members.Keys| + 1
  {
    hide Faithful, SortKeys, KeyBefore, ValidMembers, MembersValue, CanonicalMembers;
    if v.members != map[] {
      KeysPresent(v.members);
      var keys := SortKeys(v.members.Keys);
      assert forall k :: k in keys <==> k in v.members;
      KeyCount(keys, v.members.Keys);
      MembersLayout(f, v, keys);
      assert Restricted(v.members, keys) == v.members;
    }
  }

  lemma {:induction false} KeyCount(keys: seq<Text>, all: set<Text>)
    requires KeysAscend(keys) && forall k :: k in keys ==> k in all
    ensures |keys| <= |all|
  {
    hide KeyBefore;
    if keys != [] {
      var first := keys[0];
      assert first in all;
      forall k | k in keys[1..] ensures k in all - {first} {
        InTail(keys, k);
      }
      KeyCount(keys[1..], all - {first});
    }
  }

  ghost function Restricted(m: map<Text, Json>, keys: seq<Text>): map<Text, Json> {
    map k | k in keys && k in m :: m[k]
  }

  lemma RestrictedStep(m: map<Text, Json>, keys: seq<Text>)
    requires keys != [] && keys[0] in m && KeysAscend(keys)
    ensures Restricted(m, keys) == Restricted(m, keys[1..])[keys[0] := m[keys[0]]]
    ensures keys[0] !in Restricted(m, keys[1..])
  {
    hide KeyBefore;
    forall k ensures k in keys[1..] <==> k in keys && k != keys[0] {
      InTail(keys, k);
    }
  }

  lemma {:induction false} MembersLayout(f: Doubles, v: Json, keys: seq<Text>)
    requires Faithful(f) && Accepted(v) && v.Obj? && keys != [] && KeysAscend(keys) && forall i :: 0 <= i < |keys| ==> keys[i] in v.members
    ensures ValidMembers(CanonicalMembers(f, v, keys)) && MembersValue(f, CanonicalMembers(f, v, keys)) == Some(Restricted(v.members, keys))
    decreases v, 0, |keys|
  {
    hide Faithful, CanonicalTree, TreeValue, ValidTree, Restricted, KeyBefore, ValidPieces, PiecesValue;
    var key := keys[0];
    assert key in v.members && Paired(key);
    TreeLayout(f, v.members[key]);
    RestrictedStep(v.members, keys);
    if |keys| > 1 {
      MembersLayout(f, v, keys[1..]);
    } else {
      RestrictedEmpty(v.members);
      assert keys[1..] == [];
    }
  }

  lemma RestrictedEmpty(m: map<Text, Json>)
    ensures Restricted(m, []) == map[]
  {
  }

  // ---------- main results ----------

  /** Parsing the canonical text of an accepted value gives the value back. */
  lemma ParseOfCanonical(f: Doubles, v: Json)
    requires Faithful(f) && Accepted(v)
    ensures Parse(f, CanonicalStringify(f, v).value) == Some(v)
  {
    hide Faithful, Accepted, ValidTree, TreeValue, CanonicalTree, TreeText, Parse;
    TreeLayout(f, v);
    LayoutParses(f, [], CanonicalTree(f, v), []);
    var t := TreeText(CanonicalTree(f, v));
    assert [] + (t + []) == t;
  }

  /** Two accepted values print alike exactly when they are the same value, in whatever order their keys were given. */
  lemma PrintAlikeIffSame(f: Doubles, v: Json, w: Json)
    requires Faithful(f) && Accepted(v) && Accepted(w)
    ensures CanonicalStringify(f, v) == CanonicalStringify(f, w) <==> v == w
  {
    hide Faithful, Accepted, CanonicalStringify, Parse;
    ParseOfCanonical(f, v);
    ParseOfCanonical(f, w);
  }

  /** What the parser returns is accepted by the printer, and is stable under printing and parsing. */
  lemma ParsedPrints(f: Doubles, text: Text, v: Json)
    requires Faithful(f) && Parse(f, text) == Some(v)
    ensures CanonicalStringify(f, v).Some? && Parse(f, CanonicalStringify(f, v).value) == Some(v)
  {
    AcceptsExactly(f, text, v);
    var pre, tree, post :| Spaces(pre) && ValidTree(tree) && Spaces(post) && text == pre + (TreeText(tree) + post) && TreeValue(f, tree) == Some(v);
    TreeAccepted(f, tree);
    hide Parse, Faithful, Accepted, TreeText, CanonicalTree;
    ParseOfCanonical(f, v);
  }

  lemma {:induction false} TreeAccepted(f: Doubles, t: Tree)
    requires ValidTree(t) && TreeValue(f, t).Some?
    ensures Accepted(TreeValue(f, t).value)
  {
    match t
    case ArrayTree(es) => ElementsAccepted(f, es);
    case ObjectTree(ms) => MembersAccepted(f, ms);
    case _ =>
  }

  lemma {:induction false} ElementsAccepted(f: Doubles, es: Elements)
    requires ValidElements(es) && ElementsValue(f, es).Some?
    ensures forall i :: 0 <= i < |ElementsValue(f, es).value| ==> Accepted(ElementsValue(f, es).value[i])
  {
    hide Accepted;
    TreeAccepted(f, es.item);
    if es.NextElement? {
      ElementsAccepted(f, es.more);
    }
  }

  lemma {:induction false} MembersAccepted(f: Doubles, ms: Members)
    requires ValidMembers(ms) && MembersValue(f, ms).Some?
    ensures var m := MembersValue(f, ms).value; forall k :: k in m ==> Paired(k) && Accepted(m[k])
  {
    hide Accepted;
    TreeAccepted(f, ms.item);
    if ms.NextMember? {
      MembersAccepted(f, ms.more);
    }
  }

  // ---------- the order of keys against RFC 8785 ----------

  predicate LexAscends(s: seq<Text>) {
    forall i, j :: 0 <= i < j < |s| ==> LexBefore(s[i], s[j])
  }

  /** Without array-index keys the printed order is the code-unit order of RFC 8785, section 3.2.3. */
  lemma PlainKeysAreInCodeUnitOrder(keys: set<Text>)
    requires forall k :: k in keys ==> !IsIndex(k)
    ensures LexAscends(SortKeys(keys))
  {
    hide IsIndex, LexBefore, SortKeys;
    var s := SortKeys(keys);
    forall i, j | 0 <= i < j < |s| ensures LexBefore(s[i], s[j]) {
      assert s[i] in s && s[j] in s;
      assert KeyBefore(s[i], s[j]);
    }
  }

  /** The orders agree exactly when each array-index key comes by code units before every larger index and every other key. */
  lemma CodeUnitOrderExactly(keys: set<Text>)
    ensures LexAscends(SortKeys(keys)) <==>
              forall a, b :: a in keys && b in keys && IsIndex(a) && (!IsIndex(b) || DigitsValue(a) < DigitsValue(b)) ==> LexBefore(a, b)
  {
    hide IsIndex, LexBefore, SortKeys, DigitsValue;
    var s := SortKeys(keys);
    forall i, j | 0 <= i < j < |s| ensures s[i] in keys && s[j] in keys && KeyBefore(s[i], s[j]) {
      assert s[i] in s && s[j] in s;
    }
    if LexAscends(s) {
      forall a, b | a in keys && b in keys && KeyBefore(a, b) ensures LexBefore(a, b) {
        var i :| 0 <= i < |s| && s[i] == a;
        var j :| 0 <= j < |s| && s[j] == b;
        KeyTotal(a, b);
        assert j > i;
      }
    }
  }

  /** The keys 9 and 10 print in the order of their values, where RFC 8785 puts 10 first. */
  lemma IndexKeysBreakCodeUnitOrder()
    ensures SortKeys({[0x39], [0x31, 0x30]}) == [[0x39], [0x31, 0x30]]
    ensures !LexAscends(SortKeys({[0x39], [0x31, 0x30]}))
  {
    var one: Text, nine: Text, ten: Text := [0x31], [0x39], [0x31, 0x30];
    assert nine[..0] == [] && ten[..1] == one && one[..0] == [];
    assert DigitsValue(nine) == 9 && DigitsValue(one) == 1;
    assert DigitsValue(ten) == 10;
    assert KeyBefore(nine, ten);
    AscendingUnique([nine, ten], SortKeys({nine, ten}));
  }
}
