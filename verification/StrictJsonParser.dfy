/** The parser as the program runs it: a class that moves an index through the text. */
module StrictJsonParser {
  import opened Wrappers
  import opened JsonText
  import opened StrictJson

  /** A high surrogate is followed by a low one, and a low one follows a high one. */
  predicate PairedAt(s: Text, i: nat)
    requires i < |s|
  {
    (IsHigh(s[i]) ==> i + 1 < |s| && IsLow(s[i + 1])) && (IsLow(s[i]) ==> i > 0 && IsHigh(s[i - 1]))
  }

  predicate NoneUnpaired(s: Text) {
    forall i :: 0 <= i < |s| ==> PairedAt(s, i)
  }

  lemma {:induction false} PairedIffNoneUnpaired(s: Text)
    ensures Paired(s) <==> NoneUnpaired(s)
  {
    hide PairedAt;
    if s != [] {
      FirstPaired(s);
      if IsHigh(s[0]) && |s| > 1 && IsLow(s[1]) {
        DropFirst(s, 2);
        PairedIffNoneUnpaired(s[2..]);
      } else if !IsHigh(s[0]) && !IsLow(s[0]) {
        DropFirst(s, 1);
        PairedIffNoneUnpaired(s[1..]);
      } else {
        assert !PairedAt(s, 0);
      }
    }
  }

  lemma FirstPaired(s: Text)
    requires s != []
    ensures PairedAt(s, 0) <==> (IsHigh(s[0]) ==> |s| > 1 && IsLow(s[1])) && !IsLow(s[0])
    ensures |s| > 1 && IsHigh(s[0]) && IsLow(s[1]) ==> PairedAt(s, 1)
  {
  }

  lemma DropFirst(s: Text, k: nat)
    requires 0 < k <= |s| && !IsHigh(s[k - 1])
    requires forall i :: 0 <= i < k ==> PairedAt(s, i)
    ensures NoneUnpaired(s) <==> NoneUnpaired(s[k..])
  {
    hide PairedAt;
    forall i | 0 <= i < |s| - k ensures PairedAt(s[k..], i) <==> PairedAt(s, k + i) {
      Shifted(s, k, i);
    }
    if NoneUnpaired(s[k..]) {
      forall i | 0 <= i < |s| ensures PairedAt(s, i) {
        if i >= k {
          assert PairedAt(s[k..], i - k);
          Shifted(s, k, i - k);
        }
      }
    }
  }

  lemma Shifted(s: Text, k: nat, i: nat)
    requires 0 < k <= |s| && !IsHigh(s[k - 1]) && i < |s| - k
    ensures PairedAt(s[k..], i) <==> PairedAt(s, k + i)
  {
    var t := s[k..];
    assert t[i] == s[k + i];
    assert i + 1 < |t| ==> t[i + 1] == s[k + i + 1];
    assert i > 0 ==> t[i - 1] == s[k + i - 1];
  }

  method AssertValidUnicode(value: Text) returns (ok: bool)
    ensures ok <==> NoneUnpaired(value)
  {
    PairedIffNoneUnpaired(value);
    var index := 0;
    while index < |value|
      invariant index <= |value|
      invariant Paired(value) <==> Paired(value[index..])
    {
      var code := value[index];
      if IsHigh(code) {
        if index + 1 >= |value| || !IsLow(value[index + 1]) {
          return false;
        }
        assert value[index..][2..] == value[index + 2..];
        index := index + 1;
      } else if IsLow(code) {
        return false;
      } else {
        assert value[index..][1..] == value[index + 1..];
      }
      index := index + 1;
    }
    return true;
  }

  ghost function AfterPieces(pieces: seq<Piece>, r: Option<Parsed<seq<Piece>>>): Option<Parsed<seq<Piece>>> {
    match r
    case None => None
    case Some(p) => Some(Parsed(pieces + p.value, p.rest))
  }

  ghost function AfterItems(items: seq<Json>, r: Option<Parsed<seq<Json>>>): Option<Parsed<seq<Json>>> {
    match r
    case None => None
    case Some(p) => Some(Parsed(items + p.value, p.rest))
  }

  ghost function AfterMembers(members: map<Text, Json>, r: Option<Parsed<map<Text, Json>>>): Option<Parsed<map<Text, Json>>> {
    match r
    case None => None
    case Some(p) => Some(Parsed(members + p.value, p.rest))
  }

  lemma {:induction false} FreshKeys(f: Doubles, t: Text, seen: set<Text>)
    ensures ParseMembers(f, t, seen).Some? ==> forall k :: k in ParseMembers(f, t, seen).value.value ==> k !in seen
    decreases |t|
  {
    hide ParseMember, SkipSpace;
    if ParseMember(f, t, seen).Some? {
      var member := ParseMember(f, t, seen).value;
      var s := SkipSpace(member.rest);
      if Begins(s, COMMA) {
        FreshKeys(f, SkipSpace(s[1..]), seen + {member.value.0});
      }
    }
  }

  lemma NothingBefore(r: Option<Parsed<seq<Piece>>>)
    ensures AfterPieces([], r) == r
  {
    if r.Some? {
      assert [] + r.value.value == r.value.value;
    }
  }

  /** One more piece read off the body. */
  lemma PieceRead(pieces: seq<Piece>, t: Text, p: Piece)
    requires !Begins(t, QUOTE) && TakePiece(t) == Some(p)
    ensures AfterPieces(pieces, ScanBody(t)) == AfterPieces(pieces + [p], ScanBody(t[|PieceText(p)|..]))
  {
    hide TakePiece, PieceText;
    var r := ScanBody(t[|PieceText(p)|..]);
    if r.Some? {
      assert pieces + ([p] + r.value.value) == (pieces + [p]) + r.value.value;
    }
  }

  /** Where the body ends, well or badly. */
  lemma PiecesEnd(pieces: seq<Piece>, t: Text)
    ensures Begins(t, QUOTE) ==> AfterPieces(pieces, ScanBody(t)) == Some(Parsed(pieces, t[1..]))
    ensures !Begins(t, QUOTE) && TakePiece(t) == None ==> AfterPieces(pieces, ScanBody(t)) == None
  {
    hide TakePiece;
    assert pieces + [] == pieces;
  }

  /** The cases of reading one element, after those already read. */
  lemma ItemRead(f: Doubles, items: seq<Json>, t: Text)
    ensures ParseValue(f, t) == None ==> ParseElements(f, t) == None
    ensures ParseValue(f, t).Some? ==>
              var p := ParseValue(f, t).value;
              var s := SkipSpace(p.rest);
              AfterItems(items, ParseElements(f, t)) ==
                if Begins(s, RBRACKET) then Some(Parsed(items + [p.value], s[1..]))
                else if Begins(s, COMMA) then AfterItems(items + [p.value], ParseElements(f, SkipSpace(s[1..])))
                else None
  {
    hide ParseValue, SkipSpace;
    if ParseValue(f, t).Some? {
      var p := ParseValue(f, t).value;
      var s := SkipSpace(p.rest);
      if Begins(s, COMMA) {
        var r := ParseElements(f, SkipSpace(s[1..]));
        if r.Some? {
          assert items + ([p.value] + r.value.value) == (items + [p.value]) + r.value.value;
        }
      }
    }
  }

  lemma MemberRead(f: Doubles, members: map<Text, Json>, t: Text, seen: set<Text>)
    ensures ParseMember(f, t, seen) == None ==> ParseMembers(f, t, seen) == None
    ensures ParseMember(f, t, seen).Some? ==>
              var p := ParseMember(f, t, seen).value;
              var s := SkipSpace(p.rest);
              var more := members[p.value.0 := p.value.1];
              AfterMembers(members, ParseMembers(f, t, seen)) ==
                if Begins(s, RBRACE) then Some(Parsed(more, s[1..]))
                else if Begins(s, COMMA) then AfterMembers(more, ParseMembers(f, SkipSpace(s[1..]), seen + {p.value.0}))
                else None
  {
    hide ParseMember, SkipSpace;
    if ParseMember(f, t, seen).Some? {
      var p := ParseMember(f, t, seen).value;
      var s := SkipSpace(p.rest);
      if Begins(s, RBRACE) {
        assert members + map[p.value.0 := p.value.1] == members[p.value.0 := p.value.1];
      } else if Begins(s, COMMA) {
        var tail := SkipSpace(s[1..]);
        FreshKeys(f, tail, seen + {p.value.0});
        Overlays(members, p.value.0, p.value.1, ParseMembers(f, tail, seen + {p.value.0}), seen);
      }
    }
  }

  lemma Overlays(members: map<Text, Json>, key: Text, item: Json, r: Option<Parsed<map<Text, Json>>>, seen: set<Text>)
    requires r.Some? ==> forall k :: k in r.value.value ==> k !in seen + {key}
    ensures r.Some? ==> members + r.value.value[key := item] == members[key := item] + r.value.value
  {
    if r.Some? {
      var more := r.value.value;
      assert key in seen + {key};
      assert key !in more;
      assert members + more[key := item] == members[key := item] + more;
    }
  }

  lemma NoItemsBefore(r: Option<Parsed<seq<Json>>>)
    ensures AfterItems([], r) == r
  {
    if r.Some? {
      assert [] + r.value.value == r.value.value;
    }
  }

  lemma ArrayRead(f: Doubles, t: Text)
    ensures var s := SkipSpace(t);
            ParseArray(f, t) == if Begins(s, RBRACKET) then Some(Parsed(Arr([]), s[1..]))
                                else match AfterItems([], ParseElements(f, s))
                                  case None => None
                                  case Some(p) => Some(Parsed(Arr(p.value), p.rest))
  {
    hide SkipSpace;
    NoItemsBefore(ParseElements(f, SkipSpace(t)));
    hide ParseElements, AfterItems;
  }

  lemma NoItems(items: seq<Json>)
    ensures AfterItems(items, None) == None
  {
  }

  lemma NoMembersBefore(r: Option<Parsed<map<Text, Json>>>)
    ensures AfterMembers(map[], r) == r
  {
    if r.Some? {
      assert map[] + r.value.value == r.value.value;
    }
  }

  lemma ObjectRead(f: Doubles, t: Text)
    ensures var s := SkipSpace(t);
            ParseObject(f, t) == if Begins(s, RBRACE) then Some(Parsed(Obj(map[]), s[1..]))
                                 else match AfterMembers(map[], ParseMembers(f, s, {}))
                                   case None => None
                                   case Some(p) => Some(Parsed(Obj(p.value), p.rest))
  {
    hide SkipSpace;
    NoMembersBefore(ParseMembers(f, SkipSpace(t), {}));
    hide ParseMembers, AfterMembers;
  }

  lemma NoMembers(members: map<Text, Json>)
    ensures AfterMembers(members, None) == None
  {
  }

  lemma SkipStep(t: Text)
    ensures SkipSpace(t) == if t != [] && IsSpace(t[0]) then SkipSpace(t[1..]) else t
  {
  }

  class StrictParser {
    const f: Doubles
    const text: Text
    var index: nat

    constructor (f: Doubles, text: Text)
      ensures this.f == f && this.text == text && index == 0
    {
      this.f, this.text, index := f, text, 0;
    }

    /** The text still to be read. */
    ghost function Rest(): Text
      reads this
      requires index <= |text|
    {
      text[index..]
    }

    /** A method's outcome and the new index agree with the function's. */
    ghost predicate Agrees<T>(outcome: Option<T>, expected: Option<Parsed<T>>)
      reads this
    {
      match expected
      case None => outcome == None
      case Some(p) => outcome == Some(p.value) && index <= |text| && Rest() == p.rest
    }

    method Space()
      requires index <= |text|
      modifies this
      ensures index <= |text| && Rest() == SkipSpace(old(Rest()))
    {
      hide SkipSpace, IsSpace;
      while index < |text| && IsSpace(text[index])
        invariant index <= |text| && SkipSpace(Rest()) == SkipSpace(old(Rest()))
      {
        SkipStep(Rest());
        assert Rest()[1..] == text[index + 1..];
        index := index + 1;
      }
      SkipStep(Rest());
    }

    method Number() returns (r: Option<Json>)
      requires index <= |text|
      modifies this
      ensures Agrees(r, ParseNumber(f, old(Rest())))
    {
      hide TakeNumeral, NumeralValue, NumeralText;
      var numeral := TakeNumeral(text[index..]);
      if numeral == None {
        return None;
      }
      TakenFits(text[index..], numeral.value);
      assert text[index..][|NumeralText(numeral.value)|..] == text[index + |NumeralText(numeral.value)|..];
      index := index + |NumeralText(numeral.value)|;
      r := NumeralValue(f, numeral.value);
    }

    /** From the opening quote on. */
    method String() returns (r: Option<Text>)
      requires index <= |text| && Begins(Rest(), QUOTE)
      modifies this
      ensures Agrees(r, ParseString(old(Rest())))
    {
      hide PieceText, PieceValue, ValidPiece, PiecesText, PiecesValue, Paired, ScanBody, AfterPieces;
      assert Rest()[1..] == text[index + 1..];
      index := index + 1;
      ghost var body := Rest();
      var pieces: seq<Piece> := [];
      assert AfterPieces([], ScanBody(body)) == ScanBody(body) by {
        NothingBefore(ScanBody(body));
      }
      while index < |text|
        invariant index <= |text| && ValidPieces(pieces)
        invariant ScanBody(body) == AfterPieces(pieces, ScanBody(Rest()))
      {
        PiecesEnd(pieces, Rest());
        if text[index] == QUOTE {
          assert Rest()[1..] == text[index + 1..];
          index := index + 1;
          var value := PiecesValue(pieces);
          var ok := AssertValidUnicode(value);
          PairedIffNoneUnpaired(value);
          return if ok then Some(value) else None;
        }
        var piece := TakePiece(text[index..]);
        if piece == None {
          return None;
        }
        PieceRead(pieces, text[index..], piece.value);
        assert text[index..][|PieceText(piece.value)|..] == text[index + |PieceText(piece.value)|..];
        PieceAdvances(piece.value);
        index := index + |PieceText(piece.value)|;
        pieces := pieces + [piece.value];
      }
      assert Rest() == [];
      PiecesEnd(pieces, Rest());
      return None;
    }

    /** Consumes the literal. */
    method Take(n: nat)
      requires index + n <= |text|
      modifies this
      ensures index <= |text| && Rest() == old(Rest())[n..]
    {
      assert text[index..][n..] == text[index + n..];
      index := index + n;
    }

    method Value() returns (r: Option<Json>)
      requires index <= |text|
      modifies this
      ensures Agrees(r, ParseValue(f, old(Rest())))
      decreases |Rest()|, 3
    {
      hide ParseObject, ParseArray, ParseString, ParseNumber, SkipSpace;
      Space();
      if Begins(text[index..], LBRACE) {
        Take(1);
        r := Object();
      } else if Begins(text[index..], LBRACKET) {
        Take(1);
        r := Array();
      } else if Begins(text[index..], QUOTE) {
        var s := String();
        r := if s.Some? then Some(Str(s.value)) else None;
      } else if TRUE <= text[index..] {
        Take(4);
        r := Some(Bool(true));
      } else if FALSE <= text[index..] {
        Take(5);
        r := Some(Bool(false));
      } else if NULL <= text[index..] {
        Take(4);
        r := Some(Null);
      } else {
        r := Number();
      }
    }

    /** After the opening bracket. */
    method Array() returns (r: Option<Json>)
      requires index <= |text|
      modifies this
      ensures Agrees(r, ParseArray(f, old(Rest())))
      decreases |Rest()|, 5
    {
      hide ParseValue, ParseArray, ParseElements, AfterItems, SkipSpace;
      ArrayRead(f, Rest());
      Space();
      if Begins(text[index..], RBRACKET) {
        Take(1);
        return Some(Arr([]));
      }
      ghost var start := Rest();
      var output: seq<Json> := [];
      while true
        invariant index <= |text| && |Rest()| <= |start|
        invariant AfterItems([], ParseElements(f, start)) == AfterItems(output, ParseElements(f, Rest()))
        decreases |Rest()|
      {
        ItemRead(f, output, Rest());
        NoItems(output);
        var item := Value();
        if item == None {
          return None;
        }
        Space();
        output := output + [item.value];
        if Begins(text[index..], RBRACKET) {
          Take(1);
          return Some(Arr(output));
        }
        if !Begins(text[index..], COMMA) {
          return None;
        }
        Take(1);
        Space();
      }
    }

    /** A key that was not seen, a colon and a value. */
    method Member(keys: set<Text>) returns (r: Option<(Text, Json)>)
      requires index <= |text|
      modifies this
      ensures Agrees(r, ParseMember(f, old(Rest()), keys))
      decreases |Rest()|, 3
    {
      hide ParseValue, ParseString;
      if !Begins(text[index..], QUOTE) {
        return None;
      }
      var key := String();
      if key == None || key.value in keys {
        return None;
      }
      Space();
      if !Begins(text[index..], COLON) {
        return None;
      }
      Take(1);
      var item := Value();
      r := if item.Some? then Some((key.value, item.value)) else None;
    }

    /** After the opening brace. */
    method Object() returns (r: Option<Json>)
      requires index <= |text|
      modifies this
      ensures Agrees(r, ParseObject(f, old(Rest())))
      decreases |Rest()|, 5
    {
      hide ParseMember, ParseObject, ParseMembers, AfterMembers, SkipSpace;
      ObjectRead(f, Rest());
      Space();
      if Begins(text[index..], RBRACE) {
        Take(1);
        return Some(Obj(map[]));
      }
      ghost var start := Rest();
      var output: map<Text, Json> := map[];
      var keys: set<Text> := {};
      while true
        invariant index <= |text| && |Rest()| <= |start|
        invariant AfterMembers(map[], ParseMembers(f, start, {})) == AfterMembers(output, ParseMembers(f, Rest(), keys))
        decreases |Rest()|
      {
        MemberRead(f, output, Rest(), keys);
        NoMembers(output);
        var member := Member(keys);
        if member == None {
          return None;
        }
        Space();
        output := output[member.value.0 := member.value.1];
        if Begins(text[index..], RBRACE) {
          Take(1);
          return Some(Obj(output));
        }
        if !Begins(text[index..], COMMA) {
          return None;
        }
        keys := keys + {member.value.0};
        Take(1);
        Space();
      }
    }

    method Parse() returns (r: Option<Json>)
      requires index == 0
      modifies this
      ensures r == StrictJson.Parse(f, text)
    {
      hide ParseValue;
      assert text[0..] == text;
      Space();
      r := Value();
      if r.Some? {
        Space();
        if index != |text| {
          r := None;
        }
      }
    }
  }

  method ParseStrictJson(f: Doubles, text: Text) returns (r: Option<Json>)
    ensures r == StrictJson.Parse(f, text)
  {
    var parser := new StrictParser(f, text);
    r := parser.Parse();
  }
}
