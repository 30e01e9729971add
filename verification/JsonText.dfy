/** JSON values, and the concrete syntax of RFC 8259 sections 2 to 7 as trees that keep every character. */
module JsonText {
  import opened Wrappers

  /** A UTF-16 code unit. */
  type Unit = u: int | 0 <= u < 0x1_0000
  type Text = seq<Unit>

  const MAX_SAFE: int := 9007199254740991

  /** A value. Numbers are safe integers, or one of the doubles that are not integers, named by an index. */
  datatype Json =
    | Null
    | Bool(b: bool)
    | Whole(n: int)
    | Inexact(d: nat)
    | Str(s: Text)
    | Arr(items: seq<Json>)
    | Obj(members: map<Text, Json>)

  // ---------- characters ----------

  const QUOTE: Unit := 0x22
  const PLUS: Unit := 0x2b
  const COMMA: Unit := 0x2c
  const MINUS: Unit := 0x2d
  const DOT: Unit := 0x2e
  const ZERO: Unit := 0x30
  const COLON: Unit := 0x3a
  const UPPER_E: Unit := 0x45
  const LBRACKET: Unit := 0x5b
  const BACKSLASH: Unit := 0x5c
  const RBRACKET: Unit := 0x5d
  const LOWER_E: Unit := 0x65
  const LOWER_U: Unit := 0x75
  const LBRACE: Unit := 0x7b
  const RBRACE: Unit := 0x7d

  const TRUE: Text := [0x74, 0x72, 0x75, 0x65]
  const FALSE: Text := [0x66, 0x61, 0x6c, 0x73, 0x65]
  const NULL: Text := [0x6e, 0x75, 0x6c, 0x6c]

  predicate IsSpace(u: Unit) {
    u == 0x09 || u == 0x0a || u == 0x0d || u == 0x20
  }

  predicate Spaces(t: Text) {
    forall i :: 0 <= i < |t| ==> IsSpace(t[i])
  }

  predicate IsDigit(u: Unit) {
    0x30 <= u <= 0x39
  }

  predicate Digits(t: Text) {
    forall i :: 0 <= i < |t| ==> IsDigit(t[i])
  }

  predicate IsHex(u: Unit) {
    IsDigit(u) || 0x41 <= u <= 0x46 || 0x61 <= u <= 0x66
  }

  function HexValue(u: Unit): (v: nat)
    requires IsHex(u)
    ensures v < 16
  {
    if IsDigit(u) then u - 0x30 else if u <= 0x46 then u - 0x41 + 10 else u - 0x61 + 10
  }

  predicate IsHigh(u: Unit) { 0xd800 <= u <= 0xdbff }
  predicate IsLow(u: Unit) { 0xdc00 <= u <= 0xdfff }

  /** Read left to right, each high surrogate takes the low one after it, and no low one is left. */
  predicate Paired(t: Text) {
    if t == [] then true
    else if IsHigh(t[0]) then |t| > 1 && IsLow(t[1]) && Paired(t[2..])
    else !IsLow(t[0]) && Paired(t[1..])
  }

  // ---------- numbers ----------

  datatype Exponent = Exponent(letter: Unit, sign: Text, digits: Text)
  datatype Numeral = Numeral(negative: bool, whole: Text, fraction: Text, exponent: Option<Exponent>)

  predicate ValidNumeral(n: Numeral) {
    && n.whole != [] && Digits(n.whole) && (n.whole[0] == ZERO ==> |n.whole| == 1)
    && Digits(n.fraction)
    && (n.exponent.Some? ==> ValidExponent(n.exponent.value))
  }

  predicate ValidExponent(e: Exponent) {
    (e.letter == LOWER_E || e.letter == UPPER_E) && (e.sign == [] || e.sign == [PLUS] || e.sign == [MINUS]) && e.digits != [] && Digits(e.digits)
  }

  function ExponentText(e: Option<Exponent>): Text {
    if e.None? then [] else [e.value.letter] + e.value.sign + e.value.digits
  }

  function FractionText(fraction: Text): Text {
    if fraction == [] then [] else [DOT] + fraction
  }

  function NumeralText(n: Numeral): Text {
    (if n.negative then [MINUS] else []) + (n.whole + (FractionText(n.fraction) + ExponentText(n.exponent)))
  }

  function DigitsValue(t: Text): int
  {
    if t == [] then 0
    else
      var last: int := t[|t| - 1];
      10 * DigitsValue(t[..|t| - 1]) + (last - 0x30)
  }

  /** How doubles are read from and written as numerals with a fraction or an exponent. */
  datatype Reading = Refused | Integral(n: int) | Fractional(d: nat)
  datatype Doubles = Doubles(read: Text -> Reading, show: nat -> Numeral)

  function Safe(n: int): Option<Json> {
    if -MAX_SAFE <= n <= MAX_SAFE then Some(Whole(n)) else None
  }

  function NumeralValue(f: Doubles, n: Numeral): Option<Json> {
    if n.fraction == [] && n.exponent.None? then Safe(if n.negative then -DigitsValue(n.whole) else DigitsValue(n.whole))
    else match f.read(NumeralText(n))
      case Refused => None
      case Integral(i) => Safe(i)
      case Fractional(d) => Some(Inexact(d))
  }

  // ---------- strings ----------

  datatype Piece = Plain(u: Unit) | Short(e: Unit) | Hex(a: Unit, b: Unit, c: Unit, d: Unit)

  predicate IsShort(e: Unit) {
    e == 0x22 || e == 0x5c || e == 0x2f || e == 0x62 || e == 0x66 || e == 0x6e || e == 0x72 || e == 0x74
  }

  predicate ValidPiece(p: Piece) {
    match p
    case Plain(u) => u >= 0x20 && u != QUOTE && u != BACKSLASH
    case Short(e) => IsShort(e)
    case Hex(a, b, c, d) => IsHex(a) && IsHex(b) && IsHex(c) && IsHex(d)
  }

  function PieceText(p: Piece): Text {
    match p
    case Plain(u) => [u]
    case Short(e) => [BACKSLASH, e]
    case Hex(a, b, c, d) => [BACKSLASH, LOWER_U, a, b, c, d]
  }

  function PieceValue(p: Piece): Unit
    requires ValidPiece(p)
  {
    match p
    case Plain(u) => u
    case Short(e) => if e == 0x62 then 0x08 else if e == 0x66 then 0x0c else if e == 0x6e then 0x0a else if e == 0x72 then 0x0d else if e == 0x74 then 0x09 else e
    case Hex(a, b, c, d) => HexValue(a) * 0x1000 + HexValue(b) * 0x100 + HexValue(c) * 0x10 + HexValue(d)
  }

  predicate ValidPieces(ps: seq<Piece>) {
    forall i :: 0 <= i < |ps| ==> ValidPiece(ps[i])
  }

  function PiecesText(ps: seq<Piece>): Text {
    if ps == [] then [] else PieceText(ps[0]) + PiecesText(ps[1..])
  }

  function PiecesValue(ps: seq<Piece>): Text
    requires ValidPieces(ps)
  {
    if ps == [] then [] else [PieceValue(ps[0])] + PiecesValue(ps[1..])
  }

  function StringText(ps: seq<Piece>): Text {
    [QUOTE] + (PiecesText(ps) + [QUOTE])
  }

  function StringValue(ps: seq<Piece>): Option<Text>
    requires ValidPieces(ps)
  {
    if Paired(PiecesValue(ps)) then Some(PiecesValue(ps)) else None
  }

  // ---------- the tables of RFC 8259 ----------

  function Unicode(c: char): Unit
    requires c as int < 0x1_0000
  {
    c as int
  }

  /** Sections 2 and 3: the structural characters, white space and the three literal names. */
  lemma Punctuation()
    ensures LBRACKET == Unicode('[') && LBRACE == Unicode('{') && RBRACKET == Unicode(']') && RBRACE == Unicode('}')
    ensures COLON == Unicode(':') && COMMA == Unicode(',') && QUOTE == Unicode('\"') && BACKSLASH == Unicode('\\')
    ensures MINUS == Unicode('-') && PLUS == Unicode('+') && DOT == Unicode('.') && ZERO == Unicode('0')
    ensures LOWER_E == Unicode('e') && UPPER_E == Unicode('E') && LOWER_U == Unicode('u')
    ensures forall u :: IsSpace(u) <==> u == Unicode(' ') || u == Unicode('\t') || u == Unicode('\n') || u == Unicode('\r')
    ensures TRUE == [Unicode('t'), Unicode('r'), Unicode('u'), Unicode('e')]
    ensures FALSE == [Unicode('f'), Unicode('a'), Unicode('l'), Unicode('s'), Unicode('e')]
    ensures NULL == [Unicode('n'), Unicode('u'), Unicode('l'), Unicode('l')]
  {
  }

  /** Section 7: each two-character escape stands for the unit that its six-character form names, in either case of the digits. */
  lemma EscapesMean()
    ensures PieceValue(Short(Unicode('\"'))) == Unicode('\"') && PieceValue(Short(Unicode('\\'))) == Unicode('\\') && PieceValue(Short(Unicode('/'))) == Unicode('/')
    ensures PieceValue(Short(Unicode('b'))) == PieceValue(Hex(ZERO, ZERO, ZERO, Unicode('8'))) == 8
    ensures PieceValue(Short(Unicode('t'))) == PieceValue(Hex(ZERO, ZERO, ZERO, Unicode('9'))) == Unicode('\t')
    ensures PieceValue(Short(Unicode('n'))) == PieceValue(Hex(ZERO, ZERO, ZERO, Unicode('a'))) == Unicode('\n')
    ensures PieceValue(Short(Unicode('f'))) == PieceValue(Hex(ZERO, ZERO, ZERO, Unicode('C'))) == 12
    ensures PieceValue(Short(Unicode('r'))) == PieceValue(Hex(ZERO, ZERO, ZERO, Unicode('D'))) == Unicode('\r')
    ensures forall e :: IsShort(e) <==> e in [Unicode('\"'), Unicode('\\'), Unicode('/'), Unicode('b'), Unicode('f'), Unicode('n'), Unicode('r'), Unicode('t')]
    ensures PieceValue(Hex(Unicode('1'), Unicode('2'), Unicode('a'), Unicode('F'))) == 0x12af
  {
  }

  /** Hexadecimal digits count from 0 to 15, decimal numerals in tens. */
  lemma DigitsCount(v: nat)
    ensures v < 10 ==> IsHex(Unicode('0') + v) && HexValue(Unicode('0') + v) == v
    ensures 10 <= v < 16 ==> HexValue(Unicode('a') + v - 10) == v && HexValue(Unicode('A') + v - 10) == v
    ensures DigitsValue([Unicode('1'), Unicode('0'), Unicode('9')]) == 109
    ensures MAX_SAFE == 0x1f_ffff_ffff_ffff
  {
    var t: Text := [Unicode('1'), Unicode('0'), Unicode('9')];
    assert t[..2] == [Unicode('1'), Unicode('0')] && t[..2][..1] == [Unicode('1')] && t[..2][..1][..0] == [];
    assert DigitsValue(t[..2][..1]) == 1;
    assert DigitsValue(t[..2]) == 10;
  }

  /** The surrogates are the units of two blocks of 1024, next to each other; a pair of them stands for one of the code points above 0xffff. */
  lemma Surrogates(u: Unit)
    ensures IsHigh(u) <==> u / 0x400 == 0x36
    ensures IsLow(u) <==> u / 0x400 == 0x37
  {
  }

  /** A numeral whose double is a safe integer is that integer, however it is written; an unsafe one is refused. */
  lemma NumeralsMean(f: Doubles, n: Numeral, i: int)
    requires if n.fraction == [] && n.exponent.None? then i == DigitsValue(n.whole) * (if n.negative then -1 else 1) else f.read(NumeralText(n)) == Integral(i)
    ensures NumeralValue(f, n) == if -9007199254740991 <= i <= 9007199254740991 then Some(Whole(i)) else None
  {
  }

  /** Section 6: an exponent has a letter of either case, an optional sign and at least one digit; a leading zero stands alone. */
  lemma NumeralForms(sign: Text)
    requires sign == [] || sign == [Unicode('+')] || sign == [Unicode('-')]
    ensures ValidNumeral(Numeral(true, [Unicode('0')], [Unicode('5')], Some(Exponent(Unicode('e'), sign, [Unicode('0'), Unicode('7')]))))
    ensures ValidNumeral(Numeral(false, [Unicode('1'), Unicode('0')], [], Some(Exponent(Unicode('E'), sign, [Unicode('9')]))))
    ensures !ValidExponent(Exponent(Unicode('e'), sign, [])) && !ValidNumeral(Numeral(false, [Unicode('0'), Unicode('1')], [], None)) && !ValidNumeral(Numeral(false, [], [Unicode('5')], None))
    ensures NumeralText(Numeral(true, [Unicode('0')], [Unicode('5')], Some(Exponent(Unicode('e'), [Unicode('+')], [Unicode('7')]))))
         == [Unicode('-'), Unicode('0'), Unicode('.'), Unicode('5'), Unicode('e'), Unicode('+'), Unicode('7')]
  {
  }

  // ---------- values with their layout ----------

  datatype Tree =
    | NullTree | TrueTree | FalseTree
    | NumberTree(number: Numeral)
    | StringTree(pieces: seq<Piece>)
    | EmptyArray(gap: Text)
    | ArrayTree(elements: Elements)
    | EmptyObject(gap: Text)
    | ObjectTree(members: Members)
  datatype Elements =
    | LastElement(pre: Text, item: Tree, post: Text)
    | NextElement(pre: Text, item: Tree, post: Text, more: Elements)
  datatype Members =
    | LastMember(pre: Text, key: seq<Piece>, gap: Text, mid: Text, item: Tree, post: Text)
    | NextMember(pre: Text, key: seq<Piece>, gap: Text, mid: Text, item: Tree, post: Text, more: Members)

  predicate ValidTree(t: Tree) {
    match t
    case NullTree => true
    case TrueTree => true
    case FalseTree => true
    case NumberTree(n) => ValidNumeral(n)
    case StringTree(ps) => ValidPieces(ps)
    case EmptyArray(gap) => Spaces(gap)
    case ArrayTree(es) => ValidElements(es)
    case EmptyObject(gap) => Spaces(gap)
    case ObjectTree(ms) => ValidMembers(ms)
  }

  predicate ValidElements(es: Elements) {
    Spaces(es.pre) && ValidTree(es.item) && Spaces(es.post) && (es.NextElement? ==> ValidElements(es.more))
  }

  predicate ValidMembers(ms: Members) {
    Spaces(ms.pre) && ValidPieces(ms.key) && Spaces(ms.gap) && Spaces(ms.mid) && ValidTree(ms.item) && Spaces(ms.post)
    && (ms.NextMember? ==> ValidMembers(ms.more))
  }

  function TreeText(t: Tree): Text {
    match t
    case NullTree => NULL
    case TrueTree => TRUE
    case FalseTree => FALSE
    case NumberTree(n) => NumeralText(n)
    case StringTree(ps) => StringText(ps)
    case EmptyArray(gap) => [LBRACKET] + (gap + [RBRACKET])
    case ArrayTree(es) => [LBRACKET] + ElementsText(es)
    case EmptyObject(gap) => [LBRACE] + (gap + [RBRACE])
    case ObjectTree(ms) => [LBRACE] + MembersText(ms)
  }

  /** The elements and the bracket that closes them. */
  function ElementsText(es: Elements): Text {
    es.pre + (TreeText(es.item) + (es.post + (if es.NextElement? then [COMMA] + ElementsText(es.more) else [RBRACKET])))
  }

  /** The members and the brace that closes them. */
  function MembersText(ms: Members): Text {
    ms.pre + (StringText(ms.key) + (ms.gap + ([COLON] + (ms.mid + (TreeText(ms.item) + (ms.post +
      (if ms.NextMember? then [COMMA] + MembersText(ms.more) else [RBRACE])))))))
  }

  /** The value a layout stands for; none when a number is unsafe, a surrogate unpaired or a key repeated. */
  function TreeValue(f: Doubles, t: Tree): Option<Json>
    requires ValidTree(t)
  {
    match t
    case NullTree => Some(Null)
    case TrueTree => Some(Bool(true))
    case FalseTree => Some(Bool(false))
    case NumberTree(n) => NumeralValue(f, n)
    case StringTree(ps) => (match StringValue(ps) case Some(s) => Some(Str(s)) case None => None)
    case EmptyArray(_) => Some(Arr([]))
    case ArrayTree(es) => (match ElementsValue(f, es) case Some(items) => Some(Arr(items)) case None => None)
    case EmptyObject(_) => Some(Obj(map[]))
    case ObjectTree(ms) => (match MembersValue(f, ms) case Some(m) => Some(Obj(m)) case None => None)
  }

  function ElementsValue(f: Doubles, es: Elements): Option<seq<Json>>
    requires ValidElements(es)
  {
    var first := TreeValue(f, es.item);
    var rest := if es.NextElement? then ElementsValue(f, es.more) else Some([]);
    if first.Some? && rest.Some? then Some([first.value] + rest.value) else None
  }

  function MembersValue(f: Doubles, ms: Members): Option<map<Text, Json>>
    requires ValidMembers(ms)
  {
    var key := StringValue(ms.key);
    var first := TreeValue(f, ms.item);
    var rest := if ms.NextMember? then MembersValue(f, ms.more) else Some(map[]);
    if key.Some? && first.Some? && rest.Some? && key.value !in rest.value then Some(rest.value[key.value := first.value]) else None
  }
}
