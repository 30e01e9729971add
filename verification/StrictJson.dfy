/** The strict parser, as a function of the text still to be read. */
module StrictJson {
  import opened Wrappers
  import opened JsonText

  datatype Parsed<T> = Parsed(value: T, rest: Text)

  function SkipSpace(t: Text): (r: Text)
    ensures |r| <= |t|
    ensures r == t[|t| - |r|..] && Spaces(t[..|t| - |r|])
    ensures r != [] ==> !IsSpace(r[0])
  {
    if t != [] && IsSpace(t[0]) then SkipSpace(t[1..]) else t
  }

  predicate Begins(t: Text, u: Unit) {
    t != [] && t[0] == u
  }

  // ---------- numbers ----------

  function TakeDigits(t: Text): (r: Text)
    ensures r <= t && Digits(r)
    ensures |r| < |t| ==> !IsDigit(t[|r|])
  {
    if t != [] && IsDigit(t[0]) then [t[0]] + TakeDigits(t[1..]) else []
  }

  /** The fraction, when a dot and a digit are next. */
  function TakeFraction(t: Text): (r: Text)
    ensures Digits(r) && FractionText(r) <= t
  {
    if Begins(t, DOT) then TakeDigits(t[1..]) else []
  }

  function TakeSign(t: Text): (r: Text)
    ensures r <= t && (r == [] || r == [PLUS] || r == [MINUS])
  {
    if Begins(t, PLUS) || Begins(t, MINUS) then t[..1] else []
  }

  /** The exponent, when its letter, an optional sign and a digit are next. */
  function TakeExponent(t: Text): (r: Option<Exponent>)
    ensures r.Some? ==> ValidExponent(r.value)
  {
    if Begins(t, LOWER_E) || Begins(t, UPPER_E) then
      var sign := TakeSign(t[1..]);
      var digits := TakeDigits(t[1..][|sign|..]);
      if digits == [] then None else Some(Exponent(t[0], sign, digits))
    else None
  }

  lemma Split(t: Text, p: Text)
    requires p <= t
    ensures t == p + t[|p|..]
  {
  }

  lemma Joined(a: Text, b: Text, c: Text, rest: Text)
    ensures a + b + c <= a + (b + (c + rest))
    ensures a + (b + c) <= a + (b + (c + rest))
  {
    assert a + (b + (c + rest)) == (a + b + c) + rest;
    assert a + (b + c) == a + b + c;
  }

  lemma ExponentFits(t: Text)
    ensures ExponentText(TakeExponent(t)) <= t
  {
    if TakeExponent(t).Some? {
      var u := t[1..];
      var sign := TakeSign(u);
      var v := u[|sign|..];
      var digits := TakeDigits(v);
      assert TakeExponent(t) == Some(Exponent(t[0], sign, digits));
      hide *;
      Split(u, sign);
      Split(v, digits);
      assert t == [t[0]] + u;
      Joined([t[0]], sign, digits, v[|digits|..]);
      ExponentTextIs(t[0], sign, digits);
    }
  }

  lemma ExponentTextIs(letter: Unit, sign: Text, digits: Text)
    ensures ExponentText(Some(Exponent(letter, sign, digits))) == [letter] + sign + digits
  {
  }

  /** The longest numeral the text begins with. */
  function TakeNumeral(t: Text): Option<Numeral> {
    if Begins(t, MINUS) then TakeUnsigned(true, t[1..]) else TakeUnsigned(false, t)
  }

  function TakeUnsigned(negative: bool, s: Text): Option<Numeral> {
    if s == [] || !IsDigit(s[0]) then None
    else
      var whole := if s[0] == ZERO then [ZERO] else TakeDigits(s);
      var fraction := TakeFraction(s[|whole|..]);
      var exponent := TakeExponent(s[|whole| + |FractionText(fraction)|..]);
      Some(Numeral(negative, whole, fraction, exponent))
  }

  function ParseNumber(f: Doubles, t: Text): (r: Option<Parsed<Json>>)
    ensures r.Some? ==> |r.value.rest| < |t|
  {
    match TakeNumeral(t)
    case None => None
    case Some(n) =>
      TakenFits(t, n);
      match NumeralValue(f, n)
      case None => None
      case Some(v) => Some(Parsed(v, t[|NumeralText(n)|..]))
  }

  lemma TakenFits(t: Text, n: Numeral)
    requires TakeNumeral(t) == Some(n)
    ensures ValidNumeral(n) && NumeralText(n) <= t && NumeralText(n) != []
  {
    hide TakeExponent, TakeFraction, TakeDigits, FractionText, ExponentText;
    if Begins(t, MINUS) {
      UnsignedFits(true, t[1..], n);
      assert t == [MINUS] + t[1..];
      PrefixUnder([MINUS], n.whole + (FractionText(n.fraction) + ExponentText(n.exponent)), t[1..]);
    } else {
      UnsignedFits(false, t, n);
      assert [] + t == t;
      PrefixUnder([], n.whole + (FractionText(n.fraction) + ExponentText(n.exponent)), t);
    }
  }

  lemma PrefixUnder(sign: Text, p: Text, s: Text)
    requires p <= s
    ensures sign + p <= sign + s
  {
  }

  lemma UnsignedFits(negative: bool, s: Text, n: Numeral)
    requires TakeUnsigned(negative, s) == Some(n)
    ensures ValidNumeral(n) && n.negative == negative && n.whole + (FractionText(n.fraction) + ExponentText(n.exponent)) <= s
  {
    hide TakeExponent, TakeFraction, TakeDigits, FractionText, ExponentText;
    WholeFits(s);
    var u := s[|n.whole|..];
    var v := s[|n.whole| + |FractionText(n.fraction)|..];
    assert v == u[|FractionText(n.fraction)|..];
    ExponentFits(v);
    Split(s, n.whole);
    Split(u, FractionText(n.fraction));
    Split(v, ExponentText(n.exponent));
    hide *;
    Joined(n.whole, FractionText(n.fraction), ExponentText(n.exponent), v[|ExponentText(n.exponent)|..]);
  }

  lemma WholeFits(s: Text)
    requires s != [] && IsDigit(s[0])
    ensures var whole := if s[0] == ZERO then [ZERO] else TakeDigits(s);
      whole <= s && whole != [] && Digits(whole) && (whole[0] == ZERO ==> |whole| == 1)
  {
  }

  // ---------- strings ----------

  /** One piece of a string body; none at the closing quote, at a control character or at a bad escape. */
  function TakePiece(t: Text): (r: Option<Piece>)
    ensures r.Some? ==> ValidPiece(r.value) && PieceText(r.value) <= t
  {
    if t == [] || t[0] < 0x20 || t[0] == QUOTE then None
    else if t[0] != BACKSLASH then Some(Plain(t[0]))
    else if |t| < 2 then None
    else if t[1] == LOWER_U then
      if |t| >= 6 && IsHex(t[2]) && IsHex(t[3]) && IsHex(t[4]) && IsHex(t[5]) then Some(Hex(t[2], t[3], t[4], t[5])) else None
    else if IsShort(t[1]) then Some(Short(t[1]))
    else None
  }

  /** The pieces up to the closing quote, which is consumed. */
  function ScanBody(t: Text): (r: Option<Parsed<seq<Piece>>>)
    ensures r.Some? ==> ValidPieces(r.value.value) && |r.value.rest| < |t|
  {
    if Begins(t, QUOTE) then Some(Parsed([], t[1..]))
    else
      match TakePiece(t)
      case None => None
      case Some(p) =>
        PieceAdvances(p);
        match ScanBody(t[|PieceText(p)|..])
        case None => None
        case Some(more) => Some(Parsed([p] + more.value, more.rest))
  }

  lemma PieceAdvances(p: Piece)
    ensures |PieceText(p)| > 0
  {
  }

  lemma {:induction false} ScanFits(t: Text)
    ensures ScanBody(t).Some? ==> t == PiecesText(ScanBody(t).value.value) + ([QUOTE] + ScanBody(t).value.rest)
  {
    hide TakePiece, PieceText, ValidPiece;
    if ScanBody(t).Some? {
      if Begins(t, QUOTE) {
        assert t == [] + ([QUOTE] + t[1..]);
      } else {
        var p := TakePiece(t).value;
        var tail := t[|PieceText(p)|..];
        PieceAdvances(p);
        ScanFits(tail);
        var more := ScanBody(tail).value;
        assert ([p] + more.value)[1..] == more.value;
        assert t == PieceText(p) + tail;
      }
    }
  }

  /** A string whose opening quote comes next. */
  function ParseString(t: Text): (r: Option<Parsed<Text>>)
    requires Begins(t, QUOTE)
    ensures r.Some? ==> |r.value.rest| < |t|
  {
    match ScanBody(t[1..])
    case None => None
    case Some(body) =>
      match StringValue(body.value)
      case None => None
      case Some(s) => Some(Parsed(s, body.rest))
  }

  // ---------- values ----------

  function ParseValue(f: Doubles, t: Text): (r: Option<Parsed<Json>>)
    ensures r.Some? ==> |r.value.rest| < |t|
    decreases |t|, 3
  {
    var s := SkipSpace(t);
    if Begins(s, LBRACE) then ParseObject(f, s[1..])
    else if Begins(s, LBRACKET) then ParseArray(f, s[1..])
    else if Begins(s, QUOTE) then (match ParseString(s) case Some(p) => Some(Parsed(Str(p.value), p.rest)) case None => None)
    else if TRUE <= s then Some(Parsed(Bool(true), s[4..]))
    else if FALSE <= s then Some(Parsed(Bool(false), s[5..]))
    else if NULL <= s then Some(Parsed(Null, s[4..]))
    else ParseNumber(f, s)
  }

  /** What follows an opening bracket. */
  function ParseArray(f: Doubles, t: Text): (r: Option<Parsed<Json>>)
    ensures r.Some? ==> |r.value.rest| < |t|
    decreases |t|, 5
  {
    var s := SkipSpace(t);
    if Begins(s, RBRACKET) then Some(Parsed(Arr([]), s[1..]))
    else match ParseElements(f, s)
      case None => None
      case Some(p) => Some(Parsed(Arr(p.value), p.rest))
  }

  function ParseElements(f: Doubles, t: Text): (r: Option<Parsed<seq<Json>>>)
    ensures r.Some? ==> |r.value.rest| < |t|
    decreases |t|, 4
  {
    match ParseValue(f, t)
    case None => None
    case Some(first) =>
      var s := SkipSpace(first.rest);
      if Begins(s, RBRACKET) then Some(Parsed([first.value], s[1..]))
      else if Begins(s, COMMA) then
        (match ParseElements(f, SkipSpace(s[1..]))
         case None => None
         case Some(more) => Some(Parsed([first.value] + more.value, more.rest)))
      else None
  }

  /** What follows an opening brace. */
  function ParseObject(f: Doubles, t: Text): (r: Option<Parsed<Json>>)
    ensures r.Some? ==> |r.value.rest| < |t|
    decreases |t|, 5
  {
    var s := SkipSpace(t);
    if Begins(s, RBRACE) then Some(Parsed(Obj(map[]), s[1..]))
    else match ParseMembers(f, s, {})
      case None => None
      case Some(p) => Some(Parsed(Obj(p.value), p.rest))
  }

  /** A key not seen before, a colon and a value. */
  function ParseMember(f: Doubles, t: Text, seen: set<Text>): (r: Option<Parsed<(Text, Json)>>)
    ensures r.Some? ==> |r.value.rest| < |t| && r.value.value.0 !in seen
    decreases |t|, 3
  {
    if !Begins(t, QUOTE) then None
    else match ParseString(t)
      case None => None
      case Some(key) =>
        var s := SkipSpace(key.rest);
        if key.value in seen || !Begins(s, COLON) then None
        else match ParseValue(f, s[1..])
          case None => None
          case Some(item) => Some(Parsed((key.value, item.value), item.rest))
  }

  function ParseMembers(f: Doubles, t: Text, seen: set<Text>): (r: Option<Parsed<map<Text, Json>>>)
    ensures r.Some? ==> |r.value.rest| < |t|
    decreases |t|, 4
  {
    match ParseMember(f, t, seen)
    case None => None
    case Some(member) =>
      var (key, item) := member.value;
      var s := SkipSpace(member.rest);
      if Begins(s, RBRACE) then Some(Parsed(map[key := item], s[1..]))
      else if Begins(s, COMMA) then
        (match ParseMembers(f, SkipSpace(s[1..]), seen + {key})
         case None => None
         case Some(more) => Some(Parsed(more.value[key := item], more.rest)))
      else None
  }

  /** A whole text: one value with nothing but space around it. */
  function Parse(f: Doubles, t: Text): Option<Json> {
    match ParseValue(f, SkipSpace(t))
    case None => None
    case Some(p) => if SkipSpace(p.rest) == [] then Some(p.value) else None
  }
}
