/** Whatever the strict parser accepts is the layout of a value; with completeness, it accepts exactly those. */
module StrictJsonSound {
  import opened Wrappers
  import opened JsonText
  import opened StrictJson
  import opened StrictJsonLaws

  lemma NumberSound(f: Doubles, t: Text) returns (n: Numeral)
    requires ParseNumber(f, t).Some?
    ensures ValidNumeral(n) && t == NumeralText(n) + ParseNumber(f, t).value.rest
    ensures NumeralValue(f, n) == Some(ParseNumber(f, t).value.value)
  {
    hide TakeNumeral, NumeralText, NumeralValue, ValidNumeral;
    n := TakeNumeral(t).value;
    TakenFits(t, n);
  }

  lemma StringSound(t: Text) returns (ps: seq<Piece>)
    requires Begins(t, QUOTE) && ParseString(t).Some?
    ensures ValidPieces(ps) && t == StringText(ps) + ParseString(t).value.rest
    ensures StringValue(ps) == Some(ParseString(t).value.value)
  {
    hide ScanBody, PiecesText, ValidPieces, StringValue;
    ScanFits(t[1..]);
    var body := ScanBody(t[1..]).value;
    ps := body.value;
    assert t == [QUOTE] + t[1..];
    assert PiecesText(ps) + ([QUOTE] + body.rest) == (PiecesText(ps) + [QUOTE]) + body.rest;
  }

  /** An accepted value is some space, a layout of it, and the rest. */
  lemma {:induction false} ValueSound(f: Doubles, t: Text) returns (pre: Text, tree: Tree)
    requires ParseValue(f, t).Some?
    ensures Spaces(pre) && ValidTree(tree) && t == pre + (TreeText(tree) + ParseValue(f, t).value.rest)
    ensures TreeValue(f, tree) == Some(ParseValue(f, t).value.value)
    decreases |t|, 3
  {
    hide *;
    pre := Skipped(t);
    var s := SkipSpace(t);
    SkipNone(s);
    ValueSkips(f, pre, s);
    tree := TokenSound(f, s);
  }

  lemma {:induction false} TokenSound(f: Doubles, s: Text) returns (tree: Tree)
    requires ParseValue(f, s).Some? && SkipSpace(s) == s
    ensures ValidTree(tree) && s == TreeText(tree) + ParseValue(f, s).value.rest
    ensures TreeValue(f, tree) == Some(ParseValue(f, s).value.value)
    decreases |s|, 2
  {
    hide ParseObject, ParseArray, ParseString, ParseNumber, NumeralText, NumeralValue, StringText, StringValue, ElementsText, MembersText, ElementsValue, MembersValue, ValidNumeral, ValidPieces, ValidElements, ValidMembers, Spaces;
    if Begins(s, LBRACE) {
      assert s == [LBRACE] + s[1..];
      tree := ObjectSound(f, s[1..]);
    } else if Begins(s, LBRACKET) {
      assert s == [LBRACKET] + s[1..];
      tree := ArraySound(f, s[1..]);
    } else if Begins(s, QUOTE) {
      var ps := StringSound(s);
      tree := StringTree(ps);
    } else if TRUE <= s {
      tree := TrueTree;
      assert s == TRUE + s[4..];
    } else if FALSE <= s {
      tree := FalseTree;
      assert s == FALSE + s[5..];
    } else if NULL <= s {
      tree := NullTree;
      assert s == NULL + s[4..];
    } else {
      var n := NumberSound(f, s);
      tree := NumberTree(n);
    }
  }

  lemma Prefixed(mark: Text, t: Text, body: Text, rest: Text)
    requires t == body + rest
    ensures mark + t == (mark + body) + rest
  {
  }

  lemma Enclosed(mark: Text, t: Text, gap: Text, s: Text, close: Text, rest: Text)
    requires t == gap + s && |close| == 1 && s != [] && s[0] == close[0] && rest == s[1..]
    ensures mark + t == (mark + (gap + close)) + rest
  {
    assert s == close + rest;
  }

  lemma {:induction false} ArraySound(f: Doubles, t: Text) returns (tree: Tree)
    requires ParseArray(f, t).Some?
    ensures ValidTree(tree) && [LBRACKET] + t == TreeText(tree) + ParseArray(f, t).value.rest
    ensures TreeValue(f, tree) == Some(ParseArray(f, t).value.value)
    decreases |t|, 5
  {
    hide ParseElements, ElementsText, ElementsValue, ValidElements, SkipSpace, Spaces, IsSpace;
    var gap := Skipped(t);
    var s := SkipSpace(t);
    if Begins(s, RBRACKET) {
      tree := EmptyArray(gap);
      Enclosed([LBRACKET], t, gap, s, [RBRACKET], s[1..]);
    } else {
      var es := ElementsSound(f, s, gap);
      tree := ArrayTree(es);
      Prefixed([LBRACKET], t, ElementsText(es), ParseArray(f, t).value.rest);
    }
  }

  lemma {:induction false} ElementsSound(f: Doubles, t: Text, gap: Text) returns (es: Elements)
    requires ParseElements(f, t).Some? && Spaces(gap)
    ensures ValidElements(es) && gap + t == ElementsText(es) + ParseElements(f, t).value.rest
    ensures ElementsValue(f, es) == Some(ParseElements(f, t).value.value)
    decreases |t|, 4
  {
    hide ParseValue, TreeText, SkipSpace, TreeValue, Spaces, ValidTree, ElementsText, IsSpace;
    var pre, item := ValueSound(f, t);
    var first := ParseValue(f, t).value;
    var post := Skipped(first.rest);
    var s := SkipSpace(first.rest);
    SpacesJoin(gap, pre);
    if Begins(s, RBRACKET) {
      es := LastElement(gap + pre, item, post);
      assert [first.value] + [] == [first.value];
      ElementsLayout(es, gap, pre, t, s, first.rest, [RBRACKET], s[1..]);
    } else {
      var between := Skipped(s[1..]);
      var more := ElementsSound(f, SkipSpace(s[1..]), between);
      es := NextElement(gap + pre, item, post, more);
      var rest := ParseElements(f, SkipSpace(s[1..])).value.rest;
      assert s == [COMMA] + s[1..];
      Prefixed([COMMA], s[1..], ElementsText(more), rest);
      ElementsLayout(es, gap, pre, t, s, first.rest, [COMMA] + ElementsText(more), rest);
    }
  }

  lemma SpacesJoin(a: Text, b: Text)
    requires Spaces(a) && Spaces(b)
    ensures Spaces(a + b)
  {
  }

  lemma ElementsLayout(es: Elements, gap: Text, pre: Text, t: Text, s: Text, after: Text, tail: Text, rest: Text)
    requires es.pre == gap + pre && t == pre + (TreeText(es.item) + after) && after == es.post + s
    requires tail == if es.NextElement? then [COMMA] + ElementsText(es.more) else [RBRACKET]
    requires s == tail + rest
    ensures gap + t == ElementsText(es) + rest
  {
    var x := TreeText(es.item);
    assert ElementsText(es) == es.pre + (x + (es.post + tail));
    hide *;
    Nest(es.pre, x, es.post, tail, rest);
    assert gap + (pre + (x + after)) == (gap + pre) + (x + after);
  }

  lemma Nest(a: Text, b: Text, c: Text, tail: Text, rest: Text)
    ensures (a + (b + (c + tail))) + rest == a + (b + (c + (tail + rest)))
  {
    assert (c + tail) + rest == c + (tail + rest);
    assert (b + (c + tail)) + rest == b + ((c + tail) + rest);
  }

  lemma {:induction false} ObjectSound(f: Doubles, t: Text) returns (tree: Tree)
    requires ParseObject(f, t).Some?
    ensures ValidTree(tree) && [LBRACE] + t == TreeText(tree) + ParseObject(f, t).value.rest
    ensures TreeValue(f, tree) == Some(ParseObject(f, t).value.value)
    decreases |t|, 5
  {
    hide ParseMembers, MembersText, MembersValue, ValidMembers, SkipSpace, Spaces, IsSpace;
    var gap := Skipped(t);
    var s := SkipSpace(t);
    if Begins(s, RBRACE) {
      tree := EmptyObject(gap);
      Enclosed([LBRACE], t, gap, s, [RBRACE], s[1..]);
    } else {
      var ms := MembersSound(f, s, {}, gap);
      tree := ObjectTree(ms);
      Prefixed([LBRACE], t, MembersText(ms), ParseObject(f, t).value.rest);
    }
  }

  /** A key, the space around its colon, and its value. */
  lemma {:induction false} MemberSound(f: Doubles, t: Text, seen: set<Text>) returns (key: seq<Piece>, gap: Text, mid: Text, item: Tree)
    requires ParseMember(f, t, seen).Some?
    ensures ValidPieces(key) && Spaces(gap) && Spaces(mid) && ValidTree(item)
    ensures t == StringText(key) + (gap + ([COLON] + (mid + (TreeText(item) + ParseMember(f, t, seen).value.rest))))
    ensures StringValue(key) == Some(ParseMember(f, t, seen).value.value.0) && TreeValue(f, item) == Some(ParseMember(f, t, seen).value.value.1)
    decreases |t|, 3
  {
    hide ParseValue, TreeText, SkipSpace, TreeValue, Spaces, ValidTree, ParseString, StringText, StringValue, ValidPieces;
    key := StringSound(t);
    var afterKey := ParseString(t).value.rest;
    gap := Skipped(afterKey);
    var s := SkipSpace(afterKey);
    assert s == [COLON] + s[1..];
    mid, item := ValueSound(f, s[1..]);
  }

  lemma {:induction false} MembersSound(f: Doubles, t: Text, seen: set<Text>, between: Text) returns (ms: Members)
    requires ParseMembers(f, t, seen).Some? && Spaces(between)
    ensures ValidMembers(ms) && between + t == MembersText(ms) + ParseMembers(f, t, seen).value.rest
    ensures MembersValue(f, ms) == Some(ParseMembers(f, t, seen).value.value)
    ensures forall k :: k in ParseMembers(f, t, seen).value.value ==> k !in seen
    decreases |t|, 4
  {
    hide ParseMember, TreeText, SkipSpace, TreeValue, Spaces, ValidTree, StringText, StringValue, ValidPieces, MembersText, IsSpace;
    var key, gap, mid, item := MemberSound(f, t, seen);
    var member := ParseMember(f, t, seen).value;
    var post := Skipped(member.rest);
    var s := SkipSpace(member.rest);
    if Begins(s, RBRACE) {
      ms := LastMember(between, key, gap, mid, item, post);
      assert map[][member.value.0 := member.value.1] == map[member.value.0 := member.value.1];
      MembersLayout(ms, t, s, member.rest, [RBRACE], s[1..]);
    } else {
      var next := Skipped(s[1..]);
      var more := MembersSound(f, SkipSpace(s[1..]), seen + {member.value.0}, next);
      ms := NextMember(between, key, gap, mid, item, post, more);
      var rest := ParseMembers(f, SkipSpace(s[1..]), seen + {member.value.0}).value.rest;
      assert s == [COMMA] + s[1..];
      Prefixed([COMMA], s[1..], MembersText(more), rest);
      MembersLayout(ms, t, s, member.rest, [COMMA] + MembersText(more), rest);
    }
  }

  lemma MembersLayout(ms: Members, t: Text, s: Text, after: Text, tail: Text, rest: Text)
    requires t == StringText(ms.key) + (ms.gap + ([COLON] + (ms.mid + (TreeText(ms.item) + after)))) && after == ms.post + s
    requires tail == if ms.NextMember? then [COMMA] + MembersText(ms.more) else [RBRACE]
    requires s == tail + rest
    ensures ms.pre + t == MembersText(ms) + rest
  {
    var x, y := TreeText(ms.item), StringText(ms.key);
    hide TreeText, StringText;
    Regroup(ms.pre, y, ms.gap, ms.mid, x, ms.post, tail, rest);
  }

  // ---------- main results ----------

  /** The text is a layout of the value with only space around it. */
  ghost predicate Denotes(f: Doubles, text: Text, v: Json) {
    exists pre, tree, post :: Spaces(pre) && ValidTree(tree) && Spaces(post) && text == pre + (TreeText(tree) + post) && TreeValue(f, tree) == Some(v)
  }

  lemma AllSpace(t: Text)
    ensures SkipSpace(t) == [] <==> Spaces(t)
  {
    hide SkipSpace, Spaces;
    if Spaces(t) {
      SkipTo(t, []);
      assert t + [] == t;
    }
    if SkipSpace(t) == [] {
      assert t[..|t|] == t;
    }
  }

  lemma LayoutParses(f: Doubles, pre: Text, tree: Tree, post: Text)
    requires Spaces(pre) && ValidTree(tree) && Spaces(post) && TreeValue(f, tree).Some?
    ensures Parse(f, pre + (TreeText(tree) + post)) == TreeValue(f, tree)
  {
    FirstOfTree(tree);
    SkipTo(pre, TreeText(tree) + post);
    AllSpace(post);
    hide ParseValue, TreeText, TreeValue, ValidTree, SkipSpace;
    ValueComplete(f, tree, post);
  }

  lemma ParsedIsLayout(f: Doubles, text: Text) returns (pre: Text, tree: Tree, post: Text)
    requires Parse(f, text).Some?
    ensures Spaces(pre) && ValidTree(tree) && Spaces(post) && text == pre + (TreeText(tree) + post) && TreeValue(f, tree) == Parse(f, text)
  {
    hide ParseValue, TreeText, TreeValue, ValidTree, SkipSpace, Spaces, IsSpace;
    var lead := Skipped(text);
    var inner;
    inner, tree := ValueSound(f, SkipSpace(text));
    post := ParseValue(f, SkipSpace(text)).value.rest;
    pre := lead + inner;
    AllSpace(post);
    SpacesJoin(lead, inner);
    assert lead + (inner + (TreeText(tree) + post)) == (lead + inner) + (TreeText(tree) + post);
  }

  /** The parser accepts a text with a value exactly when the text is an RFC 8259 layout of that value. */
  lemma AcceptsExactly(f: Doubles, text: Text, v: Json)
    ensures Parse(f, text) == Some(v) <==> Denotes(f, text, v)
  {
    hide Parse, TreeText, TreeValue, ValidTree, Spaces;
    if Parse(f, text) == Some(v) {
      var pre, tree, post := ParsedIsLayout(f, text);
    }
    if Denotes(f, text, v) {
      var pre, tree, post :| Spaces(pre) && ValidTree(tree) && Spaces(post) && text == pre + (TreeText(tree) + post) && TreeValue(f, tree) == Some(v);
      LayoutParses(f, pre, tree, post);
    }
  }
}
