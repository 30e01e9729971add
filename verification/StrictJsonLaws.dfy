/** The strict parser accepts exactly the layouts of accepted values, with their values. */
module StrictJsonLaws {
  import opened Wrappers
  import opened JsonText
  import opened StrictJson

  // ---------- space ----------

  lemma {:induction false} SkipAgain(pre: Text, t: Text)
    requires Spaces(pre)
    ensures SkipSpace(pre + t) == SkipSpace(t)
  {
    if pre == [] {
      assert pre + t == t;
    } else {
      assert (pre + t)[1..] == pre[1..] + t;
      SkipAgain(pre[1..], t);
    }
  }

  lemma SkipNone(t: Text)
    requires t == [] || !IsSpace(t[0])
    ensures SkipSpace(t) == t
  {
  }

  lemma SkipTo(pre: Text, t: Text)
    requires Spaces(pre) && (t == [] || !IsSpace(t[0]))
    ensures SkipSpace(pre + t) == t
  {
    SkipAgain(pre, t);
  }

  lemma Skipped(t: Text) returns (pre: Text)
    ensures Spaces(pre) && t == pre + SkipSpace(t)
  {
    pre := t[..|t| - |SkipSpace(t)|];
  }

  // ---------- numbers ----------

  /** What may stand right after a value. */
  predicate Follows(rest: Text) {
    rest == [] || IsSpace(rest[0]) || rest[0] == COMMA || rest[0] == RBRACKET || rest[0] == RBRACE
  }

  lemma {:induction false} DigitsTaken(d: Text, rest: Text)
    requires Digits(d) && (rest == [] || !IsDigit(rest[0]))
    ensures TakeDigits(d + rest) == d
  {
    if d == [] {
      assert d + rest == rest;
    } else {
      assert (d + rest)[1..] == d[1..] + rest;
      DigitsTaken(d[1..], rest);
      assert [d[0]] + d[1..] == d;
    }
  }

  lemma ExponentTaken(e: Exponent, rest: Text)
    requires Follows(rest) && ValidExponent(e)
    ensures TakeExponent(ExponentText(Some(e)) + rest) == Some(e)
  {
    hide Digits, TakeDigits;
    var afterSign := e.digits + rest;
    var afterLetter := e.sign + afterSign;
    var t := [e.letter] + afterLetter;
    assert ExponentText(Some(e)) + rest == t;
    assert t[1..] == afterLetter;
    assert afterSign[0] == e.digits[0] && IsDigit(afterSign[0]) by {
      FirstDigit(e.digits);
    }
    assert TakeSign(afterLetter) == e.sign by {
      assert e.sign != [] ==> afterLetter[0] == e.sign[0] && afterLetter[..1] == e.sign;
      assert e.sign == [] ==> afterLetter == afterSign;
    }
    assert afterLetter[|e.sign|..] == afterSign;
    FollowsNoDigit(rest);
    DigitsTaken(e.digits, rest);
  }

  lemma FirstDigit(d: Text)
    requires Digits(d) && d != []
    ensures IsDigit(d[0])
  {
  }

  lemma FollowsNoDigit(rest: Text)
    requires Follows(rest)
    ensures rest == [] || (!IsDigit(rest[0]) && rest[0] != DOT && rest[0] != LOWER_E && rest[0] != UPPER_E)
  {
  }

  /** What the exponent leaves is the rest; it starts neither a digit nor a fraction. */
  lemma ExponentLeft(e: Option<Exponent>, rest: Text)
    requires Follows(rest) && (e.Some? ==> ValidExponent(e.value))
    ensures TakeExponent(ExponentText(e) + rest) == e
    ensures var t := ExponentText(e) + rest; t == [] || (!IsDigit(t[0]) && t[0] != DOT)
  {
    hide TakeDigits, Digits;
    FollowsNoDigit(rest);
    if e.Some? {
      ExponentTaken(e.value, rest);
    } else {
      assert ExponentText(e) + rest == rest;
    }
  }

  lemma FractionTaken(fraction: Text, rest: Text)
    requires Digits(fraction) && (rest == [] || (!IsDigit(rest[0]) && rest[0] != DOT))
    ensures TakeFraction(FractionText(fraction) + rest) == fraction
  {
    if fraction != [] {
      assert (FractionText(fraction) + rest)[1..] == fraction + rest;
      DigitsTaken(fraction, rest);
    } else {
      assert FractionText(fraction) + rest == rest;
    }
  }

  lemma WholeTaken(whole: Text, rest: Text)
    requires whole != [] && Digits(whole) && (whole[0] == ZERO ==> |whole| == 1) && (rest == [] || !IsDigit(rest[0]))
    ensures (if (whole + rest)[0] == ZERO then [ZERO] else TakeDigits(whole + rest)) == whole
  {
    DigitsTaken(whole, rest);
  }

  lemma FractionLeft(fraction: Text, t: Text)
    requires Digits(fraction) && (t == [] || (!IsDigit(t[0]) && t[0] != DOT))
    ensures TakeFraction(FractionText(fraction) + t) == fraction
    ensures var s := FractionText(fraction) + t; s == [] || !IsDigit(s[0])
  {
    hide Digits;
    FractionTaken(fraction, t);
  }

  lemma UnsignedTaken(n: Numeral, rest: Text)
    requires ValidNumeral(n) && Follows(rest)
    ensures TakeUnsigned(n.negative, n.whole + (FractionText(n.fraction) + (ExponentText(n.exponent) + rest))) == Some(n)
  {
    hide TakeDigits, TakeFraction, TakeExponent, FractionText, ExponentText, Digits, Follows, ValidExponent;
    var fraction, exponent := FractionText(n.fraction), ExponentText(n.exponent);
    var afterFraction := exponent + rest;
    var afterWhole := fraction + afterFraction;
    var s := n.whole + afterWhole;
    ExponentLeft(n.exponent, rest);
    FractionLeft(n.fraction, afterFraction);
    WholeTaken(n.whole, afterWhole);
    FirstDigit(n.whole);
    assert s[|n.whole|..] == afterWhole;
    assert s[|n.whole| + |fraction|..] == afterFraction;
    assert s[0] == n.whole[0];
  }

  lemma NumeralTaken(n: Numeral, rest: Text)
    requires ValidNumeral(n) && Follows(rest)
    ensures TakeNumeral(NumeralText(n) + rest) == Some(n)
  {
    assert n.whole != [] && Digits(n.whole);
    UnsignedTaken(n, rest);
    FirstDigit(n.whole);
    hide *;
    SignedText(n, rest);
    TakesSign(n.negative, n.whole, FractionText(n.fraction) + (ExponentText(n.exponent) + rest));
  }

  lemma TakesSign(negative: bool, whole: Text, after: Text)
    requires whole != [] && IsDigit(whole[0])
    ensures TakeNumeral((if negative then [MINUS] else []) + (whole + after)) == TakeUnsigned(negative, whole + after)
  {
    hide TakeUnsigned;
    var s := whole + after;
    assert s[0] == whole[0];
    if negative {
      assert ([MINUS] + s)[1..] == s;
    } else {
      assert [] + s == s;
    }
  }

  lemma SignedText(n: Numeral, rest: Text)
    ensures NumeralText(n) + rest == (if n.negative then [MINUS] else []) + (n.whole + (FractionText(n.fraction) + (ExponentText(n.exponent) + rest)))
  {
    hide FractionText, ExponentText;
    Regroup3(n.whole, FractionText(n.fraction), ExponentText(n.exponent), rest);
    var sign := if n.negative then [MINUS] else [];
    var s := n.whole + (FractionText(n.fraction) + ExponentText(n.exponent));
    assert (sign + s) + rest == sign + (s + rest);
  }

  lemma Regroup3(a: Text, b: Text, c: Text, rest: Text)
    ensures (a + (b + c)) + rest == a + (b + (c + rest))
  {
  }

  lemma NumberComplete(f: Doubles, n: Numeral, rest: Text)
    requires ValidNumeral(n) && Follows(rest) && NumeralValue(f, n).Some?
    ensures ParseNumber(f, NumeralText(n) + rest) == Some(Parsed(NumeralValue(f, n).value, rest))
  {
    hide TakeNumeral, NumeralText, NumeralValue;
    NumeralTaken(n, rest);
    assert (NumeralText(n) + rest)[|NumeralText(n)|..] == rest;
  }

  // ---------- strings ----------

  lemma PieceTaken(p: Piece, rest: Text)
    requires ValidPiece(p)
    ensures TakePiece(PieceText(p) + rest) == Some(p)
  {
  }

  lemma PieceNotQuote(p: Piece)
    requires ValidPiece(p)
    ensures PieceText(p) != [] && PieceText(p)[0] != QUOTE
  {
  }

  lemma {:induction false} BodyScanned(ps: seq<Piece>, rest: Text)
    requires ValidPieces(ps)
    ensures ScanBody(PiecesText(ps) + ([QUOTE] + rest)) == Some(Parsed(ps, rest))
  {
    hide PieceText, ValidPiece, TakePiece;
    var tail := [QUOTE] + rest;
    if ps == [] {
      assert PiecesText(ps) + tail == tail && tail[1..] == rest;
    } else {
      var p, more := ps[0], PiecesText(ps[1..]) + tail;
      assert PiecesText(ps) + tail == PieceText(p) + more;
      PieceTaken(p, more);
      PieceNotQuote(p);
      BodyScanned(ps[1..], rest);
      assert (PieceText(p) + more)[|PieceText(p)|..] == more;
      assert [p] + ps[1..] == ps;
    }
  }

  lemma StringComplete(ps: seq<Piece>, rest: Text)
    requires ValidPieces(ps) && StringValue(ps).Some?
    ensures ParseString(StringText(ps) + rest) == Some(Parsed(StringValue(ps).value, rest))
  {
    hide StringValue, PiecesText, ScanBody, ValidPieces;
    assert (StringText(ps) + rest)[1..] == PiecesText(ps) + ([QUOTE] + rest);
    BodyScanned(ps, rest);
  }

  // ---------- every layout of an accepted value is read back ----------

  lemma FirstOfNumeral(n: Numeral)
    requires ValidNumeral(n)
    ensures NumeralText(n) != [] && (NumeralText(n)[0] == MINUS || IsDigit(NumeralText(n)[0]))
  {
  }

  lemma FirstOfTree(t: Tree)
    requires ValidTree(t)
    ensures TreeText(t) != [] && !IsSpace(TreeText(t)[0]) && TreeText(t)[0] != RBRACKET && TreeText(t)[0] != RBRACE
  {
    hide NumeralText;
    match t
    case NumberTree(n) => FirstOfNumeral(n);
    case _ =>
  }

  lemma ValueSkips(f: Doubles, pre: Text, t: Text)
    requires Spaces(pre)
    ensures ParseValue(f, pre + t) == ParseValue(f, t)
  {
    SkipAgain(pre, t);
    SameAfterSpace(f, pre + t, t);
  }

  lemma SameAfterSpace(f: Doubles, t: Text, u: Text)
    requires SkipSpace(t) == SkipSpace(u)
    ensures ParseValue(f, t) == ParseValue(f, u)
  {
    hide SkipSpace, Begins, ParseObject, ParseArray, ParseString, ParseNumber;
  }

  lemma TrueAt(f: Doubles, s: Text)
    requires TRUE <= s
    ensures ParseValue(f, s) == Some(Parsed(Bool(true), s[4..]))
  {
    FirstTells(s);
    SkipNone(s);
    hide SkipSpace, ParseObject, ParseArray, ParseString, ParseNumber;
  }

  lemma FalseAt(f: Doubles, s: Text)
    requires FALSE <= s
    ensures ParseValue(f, s) == Some(Parsed(Bool(false), s[5..]))
  {
    FirstTells(s);
    SkipNone(s);
    hide SkipSpace, ParseObject, ParseArray, ParseString, ParseNumber;
  }

  lemma NullAt(f: Doubles, s: Text)
    requires NULL <= s
    ensures ParseValue(f, s) == Some(Parsed(Null, s[4..]))
  {
    FirstTells(s);
    SkipNone(s);
    hide SkipSpace, ParseObject, ParseArray, ParseString, ParseNumber;
  }

  lemma NumberAt(f: Doubles, s: Text)
    requires s != [] && (s[0] == MINUS || IsDigit(s[0]))
    ensures ParseValue(f, s) == ParseNumber(f, s)
  {
    OnlyNumber(s);
    hide SkipSpace, Begins, IsDigit, ParseObject, ParseArray, ParseString, ParseNumber;
  }

  lemma OnlyNumber(s: Text)
    requires s != [] && (s[0] == MINUS || IsDigit(s[0]))
    ensures SkipSpace(s) == s && !Begins(s, LBRACE) && !Begins(s, LBRACKET) && !Begins(s, QUOTE)
    ensures !(TRUE <= s) && !(FALSE <= s) && !(NULL <= s)
  {
    SkipNone(s);
    hide SkipSpace;
    FirstTells(s);
  }

  lemma FirstTells(s: Text)
    requires s != []
    ensures TRUE <= s ==> s[0] == TRUE[0]
    ensures FALSE <= s ==> s[0] == FALSE[0]
    ensures NULL <= s ==> s[0] == NULL[0]
  {
  }

  lemma LiteralComplete(f: Doubles, t: Tree, rest: Text)
    requires t.NullTree? || t.TrueTree? || t.FalseTree?
    ensures ParseValue(f, TreeText(t) + rest) == Some(Parsed(TreeValue(f, t).value, rest))
  {
    hide ParseValue;
    var s := TreeText(t) + rest;
    assert TreeText(t) <= s && s[|TreeText(t)|..] == rest;
    match t
    case TrueTree => TrueAt(f, s);
    case FalseTree => FalseAt(f, s);
    case NullTree => NullAt(f, s);
  }

  lemma NumberValueComplete(f: Doubles, n: Numeral, rest: Text)
    requires ValidNumeral(n) && Follows(rest) && NumeralValue(f, n).Some?
    ensures ParseValue(f, NumeralText(n) + rest) == Some(Parsed(NumeralValue(f, n).value, rest))
  {
    hide ParseValue, ParseNumber, NumeralValue, NumeralText;
    FirstOfNumeral(n);
    var s := NumeralText(n) + rest;
    assert s[0] == NumeralText(n)[0];
    NumberAt(f, s);
    NumberComplete(f, n, rest);
  }

  lemma {:induction false} ValueComplete(f: Doubles, t: Tree, rest: Text)
    requires ValidTree(t) && Follows(rest) && TreeValue(f, t).Some?
    ensures ParseValue(f, TreeText(t) + rest) == Some(Parsed(TreeValue(f, t).value, rest))
    decreases t, 1
  {
    hide ParseObject, ParseArray, ParseString, ParseNumber, NumeralText, NumeralValue, StringText, StringValue, ElementsText, MembersText, ElementsValue, MembersValue;
    match t
    case NumberTree(n) => NumberValueComplete(f, n, rest);
    case StringTree(ps) => StringValueComplete(f, ps, rest);
    case EmptyArray(gap) => EmptyArrayComplete(f, gap, rest);
    case ArrayTree(es) => ArrayComplete(f, es, rest);
    case EmptyObject(gap) => EmptyObjectComplete(f, gap, rest);
    case ObjectTree(ms) => ObjectComplete(f, ms, rest);
    case _ => LiteralComplete(f, t, rest);
  }

  lemma StringValueComplete(f: Doubles, ps: seq<Piece>, rest: Text)
    requires ValidPieces(ps) && StringValue(ps).Some?
    ensures ParseValue(f, StringText(ps) + rest) == Some(Parsed(Str(StringValue(ps).value), rest))
  {
    StringComplete(ps, rest);
    hide ParseObject, ParseArray, ParseString, ParseNumber, StringValue, PiecesText;
    SkipNone(StringText(ps) + rest);
  }

  lemma ArrayOpens(f: Doubles, t: Text)
    ensures ParseValue(f, [LBRACKET] + t) == ParseArray(f, t)
  {
    hide ParseObject, ParseArray, ParseString, ParseNumber;
    SkipNone([LBRACKET] + t);
    assert ([LBRACKET] + t)[1..] == t;
  }

  lemma ObjectOpens(f: Doubles, t: Text)
    ensures ParseValue(f, [LBRACE] + t) == ParseObject(f, t)
  {
    hide ParseObject, ParseArray, ParseString, ParseNumber;
    SkipNone([LBRACE] + t);
    assert ([LBRACE] + t)[1..] == t;
  }

  lemma EmptyArrayComplete(f: Doubles, gap: Text, rest: Text)
    requires Spaces(gap)
    ensures ParseValue(f, TreeText(EmptyArray(gap)) + rest) == Some(Parsed(Arr([]), rest))
  {
    hide ParseElements, ParseValue;
    var t := gap + ([RBRACKET] + rest);
    ArrayOpens(f, t);
    assert TreeText(EmptyArray(gap)) + rest == [LBRACKET] + t;
    SkipTo(gap, [RBRACKET] + rest);
  }

  lemma EmptyObjectComplete(f: Doubles, gap: Text, rest: Text)
    requires Spaces(gap)
    ensures ParseValue(f, TreeText(EmptyObject(gap)) + rest) == Some(Parsed(Obj(map[]), rest))
  {
    hide ParseMembers, ParseValue;
    var t := gap + ([RBRACE] + rest);
    ObjectOpens(f, t);
    assert TreeText(EmptyObject(gap)) + rest == [LBRACE] + t;
    SkipTo(gap, [RBRACE] + rest);
  }

  lemma {:induction false} ArrayComplete(f: Doubles, es: Elements, rest: Text)
    requires ValidElements(es) && ElementsValue(f, es).Some?
    ensures ParseValue(f, TreeText(ArrayTree(es)) + rest) == Some(Parsed(Arr(ElementsValue(f, es).value), rest))
    decreases es, 2
  {
    hide ParseElements, ParseValue, ElementsValue, ElementsText, AfterElement, SkipSpace, ValidElements;
    var t := ElementsText(es) + rest;
    ArrayOpens(f, t);
    assert TreeText(ArrayTree(es)) + rest == [LBRACKET] + t;
    var s := ElementsSkip(es, rest);
    ElementsComplete(f, es, rest);
  }

  /** Past the leading space of the elements comes their first value. */
  lemma ElementsSkip(es: Elements, rest: Text) returns (s: Text)
    requires ValidElements(es)
    ensures s == SkipSpace(ElementsText(es) + rest) && s == TreeText(es.item) + AfterElement(es, rest)
    ensures !Begins(s, RBRACKET)
  {
    FirstOfTree(es.item);
    s := TreeText(es.item) + AfterElement(es, rest);
    assert ElementsText(es) + rest == es.pre + s;
    assert s[0] == TreeText(es.item)[0];
    SkipTo(es.pre, s);
  }

  function AfterElement(es: Elements, rest: Text): Text {
    es.post + (if es.NextElement? then [COMMA] + (ElementsText(es.more) + rest) else [RBRACKET] + rest)
  }

  lemma PostFollows(post: Text, t: Text)
    requires Spaces(post) && t != [] && (t[0] == COMMA || t[0] == RBRACKET || t[0] == RBRACE)
    ensures Follows(post + t) && SkipSpace(post + t) == t
  {
    SkipTo(post, t);
    if post != [] {
      assert (post + t)[0] == post[0];
    } else {
      assert post + t == t;
    }
  }

  lemma AfterElementFollows(es: Elements, rest: Text)
    requires Spaces(es.post)
    ensures Follows(AfterElement(es, rest))
    ensures SkipSpace(AfterElement(es, rest)) == if es.NextElement? then [COMMA] + (ElementsText(es.more) + rest) else [RBRACKET] + rest
  {
    hide ElementsText, Follows, SkipSpace, Spaces;
    PostFollows(es.post, if es.NextElement? then [COMMA] + (ElementsText(es.more) + rest) else [RBRACKET] + rest);
  }

  /** Reading the elements after their leading space. */
  lemma {:induction false} ElementsComplete(f: Doubles, es: Elements, rest: Text)
    requires ValidElements(es) && ElementsValue(f, es).Some?
    ensures ParseElements(f, SkipSpace(ElementsText(es) + rest)) == Some(Parsed(ElementsValue(f, es).value, rest))
    decreases es, 1
  {
    hide ParseValue, TreeText, ElementsText, AfterElement, SkipSpace, TreeValue;
    var s := ElementsSkip(es, rest);
    var after := AfterElement(es, rest);
    AfterElementFollows(es, rest);
    ValueComplete(f, es.item, after);
    if es.NextElement? {
      ElementsComplete(f, es.more, rest);
      assert ([COMMA] + (ElementsText(es.more) + rest))[1..] == ElementsText(es.more) + rest;
    } else {
      assert ([RBRACKET] + rest)[1..] == rest;
      assert [TreeValue(f, es.item).value] + [] == [TreeValue(f, es.item).value];
    }
  }

  lemma {:induction false} ObjectComplete(f: Doubles, ms: Members, rest: Text)
    requires ValidMembers(ms) && MembersValue(f, ms).Some?
    ensures ParseValue(f, TreeText(ObjectTree(ms)) + rest) == Some(Parsed(Obj(MembersValue(f, ms).value), rest))
    decreases ms, 2
  {
    hide ParseMembers, ParseValue, MembersValue, MembersText, StringText, AfterKey, SkipSpace, ValidMembers;
    var t := MembersText(ms) + rest;
    ObjectOpens(f, t);
    assert TreeText(ObjectTree(ms)) + rest == [LBRACE] + t;
    var s := MembersSkip(ms, rest);
    MembersComplete(f, ms, {}, rest);
  }

  function AfterKey(ms: Members, rest: Text): Text {
    ms.gap + ([COLON] + (ms.mid + (TreeText(ms.item) + AfterMember(ms, rest))))
  }

  function AfterMember(ms: Members, rest: Text): Text {
    ms.post + (if ms.NextMember? then [COMMA] + (MembersText(ms.more) + rest) else [RBRACE] + rest)
  }

  lemma MembersSkip(ms: Members, rest: Text) returns (s: Text)
    requires ValidMembers(ms)
    ensures s == SkipSpace(MembersText(ms) + rest) && s == StringText(ms.key) + AfterKey(ms, rest)
    ensures Begins(s, QUOTE)
  {
    hide TreeText, PiecesText;
    s := StringText(ms.key) + AfterKey(ms, rest);
    var tail := if ms.NextMember? then [COMMA] + MembersText(ms.more) else [RBRACE];
    var restTail := if ms.NextMember? then [COMMA] + (MembersText(ms.more) + rest) else [RBRACE] + rest;
    assert tail + rest == restTail;
    assert MembersText(ms) == ms.pre + (StringText(ms.key) + (ms.gap + ([COLON] + (ms.mid + (TreeText(ms.item) + (ms.post + tail))))));
    Regroup(ms.pre, StringText(ms.key), ms.gap, ms.mid, TreeText(ms.item), ms.post, tail, rest);
    assert MembersText(ms) + rest == ms.pre + s;
    SkipTo(ms.pre, s);
  }

  lemma Regroup(a: Text, b: Text, c: Text, d: Text, e: Text, p: Text, tail: Text, rest: Text)
    ensures (a + (b + (c + ([COLON] + (d + (e + (p + tail))))))) + rest == a + (b + (c + ([COLON] + (d + (e + (p + (tail + rest)))))))
  {
    assert (p + tail) + rest == p + (tail + rest);
    assert (e + (p + tail)) + rest == e + (p + (tail + rest));
    assert (d + (e + (p + tail))) + rest == d + (e + (p + (tail + rest)));
    assert ([COLON] + (d + (e + (p + tail)))) + rest == [COLON] + (d + (e + (p + (tail + rest))));
    assert (c + ([COLON] + (d + (e + (p + tail))))) + rest == c + ([COLON] + (d + (e + (p + (tail + rest)))));
    assert (b + (c + ([COLON] + (d + (e + (p + tail)))))) + rest == b + (c + ([COLON] + (d + (e + (p + (tail + rest))))));
  }

  lemma AfterMemberFollows(ms: Members, rest: Text)
    requires Spaces(ms.post)
    ensures Follows(AfterMember(ms, rest))
    ensures SkipSpace(AfterMember(ms, rest)) == if ms.NextMember? then [COMMA] + (MembersText(ms.more) + rest) else [RBRACE] + rest
  {
    hide MembersText, Follows, SkipSpace, Spaces;
    PostFollows(ms.post, if ms.NextMember? then [COMMA] + (MembersText(ms.more) + rest) else [RBRACE] + rest);
  }

  lemma ColonNext(gap: Text, t: Text)
    requires Spaces(gap)
    ensures SkipSpace(gap + ([COLON] + t)) == [COLON] + t
  {
    SkipTo(gap, [COLON] + t);
  }

  lemma FirstQuote(ps: seq<Piece>, rest: Text)
    ensures Begins(StringText(ps) + rest, QUOTE)
  {
  }

  lemma {:induction false} MemberComplete(f: Doubles, ms: Members, seen: set<Text>, rest: Text)
    requires ValidMembers(ms) && StringValue(ms.key).Some? && TreeValue(f, ms.item).Some? && StringValue(ms.key).value !in seen
    ensures ParseMember(f, StringText(ms.key) + AfterKey(ms, rest), seen)
         == Some(Parsed((StringValue(ms.key).value, TreeValue(f, ms.item).value), AfterMember(ms, rest)))
    decreases ms, 0
  {
    hide ParseValue, TreeText, MembersText, StringValue, ParseString, PiecesText, AfterMember, TreeValue, SkipSpace, Follows, Spaces, ValidPieces, ValidTree, IsSpace;
    StringComplete(ms.key, AfterKey(ms, rest));
    FirstQuote(ms.key, AfterKey(ms, rest));
    var afterColon := ms.mid + (TreeText(ms.item) + AfterMember(ms, rest));
    ColonNext(ms.gap, afterColon);
    assert ([COLON] + afterColon)[1..] == afterColon;
    AfterMemberFollows(ms, rest);
    ValueComplete(f, ms.item, AfterMember(ms, rest));
    ValueSkips(f, ms.mid, TreeText(ms.item) + AfterMember(ms, rest));
  }

  lemma {:induction false} MembersComplete(f: Doubles, ms: Members, seen: set<Text>, rest: Text)
    requires ValidMembers(ms) && MembersValue(f, ms).Some?
    requires forall k :: k in MembersValue(f, ms).value ==> k !in seen
    ensures ParseMembers(f, SkipSpace(MembersText(ms) + rest), seen) == Some(Parsed(MembersValue(f, ms).value, rest))
    decreases ms, 1
  {
    hide ParseMember, TreeText, MembersText, StringValue, StringText, AfterMember, AfterKey, TreeValue, SkipSpace;
    var s := MembersSkip(ms, rest);
    var key := StringValue(ms.key).value;
    MemberComplete(f, ms, seen, rest);
    AfterMemberFollows(ms, rest);
    if ms.NextMember? {
      MembersComplete(f, ms.more, seen + {key}, rest);
      assert ([COMMA] + (MembersText(ms.more) + rest))[1..] == MembersText(ms.more) + rest;
    } else {
      assert ([RBRACE] + rest)[1..] == rest;
    }
  }
}
