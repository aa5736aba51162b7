/**
  The cursor of guest/docker-shutdown.rs: `Json` holds the text and the position
  `at`, and every method moves `at`. Each method is proved to end where the reader
  functions of JsonParser say, with the same result and the same error.
 */
module JsonScanner {
  import opened Outcomes
  import opened Utf8
  import opened JsonGrammar
  import opened JsonParser
  import opened JsonStrings

  /** The text decoded so far, and what is still to be decoded. */
  function Joined(done: seq<Scalar>, rest: Result<Pieces, JsonError>): Result<seq<Scalar>, JsonError>
    requires rest.Ok? ==> Denotes(rest.value)
  {
    if rest.Ok? then Ok(done + Decoded(rest.value)) else Err(rest.error)
  }

  lemma JoinedStep(b: Bytes, i: nat, done: seq<Scalar>)
    requires i + 1 < |b|
    ensures match ReadPiece(b, i)
            case Err(e) => Joined(done, ReadPieces(b, i)) == Err(e)
            case Ok(p) =>
              Joined(done, ReadPieces(b, i))
              == Joined(done + [PieceValue(p).value], ReadPieces(b, i + |PieceBytes(p)|))
  {
    hide ReadPiece, PieceBytes, PieceValue;
    if ReadPiece(b, i).Ok? {
      var p := ReadPiece(b, i).value;
      var rest := ReadPieces(b, i + |PieceBytes(p)|);
      if rest.Ok? {
        var c := [PieceValue(p).value];
        assert done + (c + Decoded(rest.value)) == done + c + Decoded(rest.value);
      }
    }
  }

  lemma NothingLeft(b: Bytes, i: nat, done: seq<Scalar>)
    requires i + 1 >= |b|
    ensures Joined(done, ReadPieces(b, i)) == Ok(done)
  {
    assert done + [] == done;
  }

  lemma NothingDone(rest: Result<Pieces, JsonError>)
    requires rest.Ok? ==> Denotes(rest.value)
    ensures Joined([], rest) == if rest.Ok? then Ok(Decoded(rest.value)) else Err(rest.error)
  {
    if rest.Ok? {
      assert [] + Decoded(rest.value) == Decoded(rest.value);
    }
  }

  /** The characters of a string; `bytes` includes both quotes. */
  method DecodeJsonString(bytes: Bytes) returns (r: Result<seq<Scalar>, JsonError>)
    ensures r == Joined([], ReadPieces(bytes, 1))
  {
    hide First, Encode, FieldValue, ShortValue, ReadPieces;
    var output := [];
    var at := 1;
    while at + 1 < |bytes|
      invariant at >= 1
      invariant Joined(output, ReadPieces(bytes, at)) == Joined([], ReadPieces(bytes, 1))
    {
      ghost var start, before := at, output;
      JoinedStep(bytes, at, output);
      if bytes[at] != BACKSLASH {
        if !Valid(bytes[at..|bytes| - 1]) {
          return Err(InvalidUtf8);
        }
        var ch := First(bytes[at..|bytes| - 1]).value;
        output := output + [ch];
        at := at + |Encode(ch)|;
        assert ReadPiece(bytes, start) == Ok(Literal(ch));
        continue;
      }
      at := at + 1;
      var letter := bytes[at];
      if letter == LOWER_U {
        if at + 5 > |bytes| {
          return Err(InvalidUnicodeEscape);
        }
        var value := FieldValue(bytes[at + 1..at + 5]);
        if value.None? {
          return Err(InvalidUnicodeEscape);
        }
        if IsHigh(value.value) {
          if !At(bytes, at + 5, BACKSLASH) || !At(bytes, at + 6, LOWER_U) {
            return Err(UnpairedSurrogate);
          }
          if at + 11 > |bytes| {
            return Err(InvalidUnicodeEscape);
          }
          var low := FieldValue(bytes[at + 7..at + 11]);
          if low.None? {
            return Err(InvalidUnicodeEscape);
          }
          if !IsLow(low.value) {
            return Err(UnpairedSurrogate);
          }
          output := output + [0x10000 + (value.value - 0xd800) * 0x400 + (low.value - 0xdc00)];
          at := at + 10;
          assert ReadPiece(bytes, start) == Ok(Pair(bytes[start + 2..start + 6], bytes[start + 8..start + 12]));
        } else {
          if IsLow(value.value) {
            return Err(UnpairedSurrogate);
          }
          output := output + [value.value];
          at := at + 4;
          assert ReadPiece(bytes, start) == Ok(Unicode(bytes[start + 2..start + 6]));
        }
      } else {
        var value := ShortValue(letter);
        if value.None? {
          return Err(InvalidEscape);
        }
        output := output + [value.value];
      }
      at := at + 1;
    }
    NothingLeft(bytes, at, output);
    return Ok(output);
  }

  /** Where reading ends, or why it fails. */
  function EndOf<T>(p: Parsed<T>): Result<nat, JsonError> {
    match p
    case Done(_, end) => Ok(end)
    case Bad(e) => Err(e)
  }

  lemma SkipTwice(s: Bytes, i: nat)
    requires i <= |s| && (i < |s| ==> !IsWs(s[i]))
    ensures WsEnd(s, i) == i
  {
  }

  lemma WordFits(s: Bytes, i: nat, word: Bytes)
    requires Holds(s, i, word) && i <= |s|
    ensures i + |word| <= |s|
  {
    SliceHeld(s, i, word);
  }

  /** Members are read one after the other. */
  lemma MembersStep(s: Bytes, i: nat, depth: nat, seen: set<seq<Scalar>>)
    ensures EndOf(ReadMembers(s, i, depth, seen)) ==
            match ReadMember(s, i, depth, seen)
            case Bad(e) => Err(e)
            case Done(m, i1) =>
              if At(s, i1, CLOSE_BRACE) then Ok(i1 + 1)
              else if At(s, i1, COMMA) then
                EndOf(ReadMembers(s, WsEnd(s, i1 + 1), depth, seen + {Decoded(m.key)}))
              else Err(InvalidObject)
  {
    hide ReadMember, Decoded, WsEnd;
  }

  /** A member is a key, a colon, a value and white space. */
  lemma MemberParts(s: Bytes, i: nat, depth: nat, seen: set<seq<Scalar>>)
    ensures var p := ReadMember(s, i, depth, seen);
            match ReadString(s, i)
            case Bad(e) => p == Bad(e)
            case Done(key, i1) =>
              if Decoded(key) in seen then p == Bad(DuplicateKey(Decoded(key)))
              else
                var i2 := WsEnd(s, i1);
                if !At(s, i2, COLON) then p == Bad(InvalidJson)
                else
                  match ReadValue(s, WsEnd(s, i2 + 1), depth)
                  case Bad(e) => p == Bad(e)
                  case Done(v, i4) =>
                    p.Done? && p.end == WsEnd(s, i4) && p.value.key == key && p.value.value == v
  {
    hide ReadString, ReadValue, Decoded, WsEnd;
  }

  lemma ElementsStep(s: Bytes, i: nat, depth: nat)
    ensures EndOf(ReadElements(s, i, depth)) ==
            match ReadValue(s, i, depth)
            case Bad(e) => Err(e)
            case Done(_, i1) =>
              var i2 := WsEnd(s, i1);
              if At(s, i2, CLOSE_BRACKET) then Ok(i2 + 1)
              else if At(s, i2, COMMA) then EndOf(ReadElements(s, WsEnd(s, i2 + 1), depth))
              else Err(InvalidArray)
  {
    hide ReadValue, WsEnd;
  }

  class Json {
    const data: Bytes
    var at: nat

    constructor (data: Bytes)
      ensures this.data == data && at == 0
    {
      this.data := data;
      at := 0;
    }

    ghost predicate Valid()
      reads this
    {
      at <= |data|
    }

    method Whitespace()
      requires Valid()
      modifies this
      ensures Valid() && at == WsEnd(data, old(at))
    {
      while at < |data| && IsWs(data[at])
        invariant Valid() && WsEnd(data, at) == WsEnd(data, old(at))
        decreases |data| - at
      {
        at := at + 1;
      }
    }

    method Byte(expected: Byte) returns (r: Result<(), JsonError>)
      requires Valid()
      modifies this
      ensures var k := WsEnd(data, old(at));
              if At(data, k, expected) then r == Ok(()) && Valid() && at == k + 1 else r == Err(InvalidJson)
    {
      Whitespace();
      if !At(data, at, expected) {
        return Err(InvalidJson);
      }
      at := at + 1;
      return Ok(());
    }

    method String() returns (r: Result<seq<Scalar>, JsonError>)
      requires Valid()
      modifies this
      ensures match ReadString(data, WsEnd(data, old(at)))
              case Done(ps, end) => r == Ok(Decoded(ps)) && Valid() && at == end
              case Bad(e) => r == Err(e)
    {
      hide ReadPieces;
      Whitespace();
      if !At(data, at, QUOTE) {
        return Err(InvalidString);
      }
      var start := at;
      at := at + 1;
      while at < |data|
        invariant start < at && QuoteAt(data, at) == QuoteAt(data, start + 1)
        decreases |data| - at
      {
        var byte := data[at];
        if byte == QUOTE {
          at := at + 1;
          r := DecodeJsonString(data[start..at]);
          NothingDone(ReadPieces(data[start..at], 1));
          return;
        }
        if byte == BACKSLASH {
          at := at + 2;
          if At(data, at - 1, LOWER_U) {
            at := at + 4;
          }
        } else if byte < 0x20 {
          return Err(ControlByte);
        } else {
          at := at + 1;
        }
        if at > |data| {
          break;
        }
      }
      return Err(Unterminated);
    }

    method Digits()
      requires Valid()
      modifies this
      ensures Valid() && at == DigitsEnd(data, old(at))
    {
      while DigitAt(data, at)
        invariant Valid() && DigitsEnd(data, at) == DigitsEnd(data, old(at))
        decreases |data| - at
      {
        at := at + 1;
      }
    }

    /** The part of `Number` from the decimal point on. */
    method Fraction() returns (r: Result<(), JsonError>)
      requires Valid()
      modifies this
      ensures match ReadFraction(data, old(at))
              case Done(_, end) => r == Ok(()) && Valid() && at == end
              case Bad(e) => r == Err(e)
    {
      hide DigitsEnd;
      if At(data, at, DOT) {
        at := at + 1;
        var start := at;
        Digits();
        if at == start {
          return Err(InvalidNumber);
        }
      }
      return Ok(());
    }

    /** The part of `Number` from the `e` on. */
    method Exponent() returns (r: Result<(), JsonError>)
      requires Valid()
      modifies this
      ensures match ReadExponent(data, old(at))
              case Done(_, end) => r == Ok(()) && Valid() && at == end
              case Bad(e) => r == Err(e)
    {
      hide DigitsEnd;
      if At(data, at, 0x65) || At(data, at, 0x45) {
        at := at + 1;
        if At(data, at, PLUS) || At(data, at, MINUS) {
          at := at + 1;
        }
        var start := at;
        Digits();
        if at == start {
          return Err(InvalidNumber);
        }
      }
      return Ok(());
    }

    method Number() returns (r: Result<(), JsonError>)
      requires Valid()
      modifies this
      ensures match ReadNumber(data, old(at))
              case Done(_, end) => r == Ok(()) && Valid() && at == end
              case Bad(e) => r == Err(e)
    {
      hide ReadFraction, ReadExponent, DigitsEnd;
      if At(data, at, MINUS) {
        at := at + 1;
      }
      if At(data, at, ZERO) {
        at := at + 1;
        if DigitAt(data, at) {
          return Err(InvalidNumber);
        }
      } else if DigitAt(data, at) {
        at := at + 1;
        Digits();
      } else {
        return Err(InvalidNumber);
      }
      var _ :- Fraction();
      var _ :- Exponent();
      return Ok(());
    }

    /** The object branch of `Value`, after the opening brace. */
    method ObjectRest(depth: nat) returns (r: Result<(), JsonError>)
      requires Valid()
      modifies this
      ensures match ReadObject(data, WsEnd(data, old(at)), depth)
              case Done(_, end) => r == Ok(()) && Valid() && at == end
              case Bad(e) => r == Err(e)
      decreases |data| - at, 1
    {
      hide ReadString, Decoded, ReadValue, ReadMember, ReadMembers, WsEnd;
      var keys: set<seq<Scalar>> := {};
      Whitespace();
      ghost var first := at;
      if At(data, at, CLOSE_BRACE) {
        at := at + 1;
        return Ok(());
      }
      SkipTwice(data, at);
      while true
        invariant first <= at && Valid()
        invariant EndOf(ReadMembers(data, WsEnd(data, at), depth, keys)) == EndOf(ReadMembers(data, first, depth, {}))
        decreases |data| - at
      {
        ghost var i, seen := WsEnd(data, at), keys;
        MembersStep(data, i, depth, seen);
        MemberParts(data, i, depth, seen);
        var key :- String();
        if key in keys {
          return Err(DuplicateKey(key));
        }
        keys := keys + {key};
        var _ :- Byte(COLON);
        var _ :- Value(depth);
        Whitespace();
        if At(data, at, COMMA) {
          at := at + 1;
        } else if At(data, at, CLOSE_BRACE) {
          at := at + 1;
          break;
        } else {
          return Err(InvalidObject);
        }
      }
      return Ok(());
    }

    /** The array branch of `Value`, after the opening bracket. */
    method ArrayRest(depth: nat) returns (r: Result<(), JsonError>)
      requires Valid()
      modifies this
      ensures match ReadArray(data, WsEnd(data, old(at)), depth)
              case Done(_, end) => r == Ok(()) && Valid() && at == end
              case Bad(e) => r == Err(e)
      decreases |data| - at, 1
    {
      hide ReadValue, ReadElements, WsEnd;
      Whitespace();
      ghost var first := at;
      if At(data, at, CLOSE_BRACKET) {
        at := at + 1;
        return Ok(());
      }
      SkipTwice(data, at);
      while true
        invariant first <= at && Valid()
        invariant EndOf(ReadElements(data, WsEnd(data, at), depth)) == EndOf(ReadElements(data, first, depth))
        decreases |data| - at
      {
        ElementsStep(data, WsEnd(data, at), depth);
        var _ :- Value(depth);
        Whitespace();
        if At(data, at, COMMA) {
          at := at + 1;
        } else if At(data, at, CLOSE_BRACKET) {
          at := at + 1;
          break;
        } else {
          return Err(InvalidArray);
        }
      }
      return Ok(());
    }

    method Value(depth: nat) returns (r: Result<Option<bool>, JsonError>)
      requires Valid()
      modifies this
      ensures match ReadValue(data, WsEnd(data, old(at)), depth)
              case Done(v, end) => r == Ok(BoolOf(v)) && Valid() && at == end
              case Bad(e) => r == Err(e)
      decreases |data| - at, 0
    {
      hide ReadString, ReadNumber, ReadObject, ReadArray, Decoded, Denotes, WsEnd, Holds;
      if depth > DEPTH_LIMIT {
        return Err(TooDeep);
      }
      Whitespace();
      ghost var first := at;
      if At(data, at, QUOTE) {
        SkipTwice(data, at);
        var _ :- String();
        return Ok(None);
      } else if At(data, at, OPEN_BRACE) {
        at := at + 1;
        var _ :- ObjectRest(depth + 1);
        return Ok(None);
      } else if At(data, at, OPEN_BRACKET) {
        at := at + 1;
        var _ :- ArrayRest(depth + 1);
        return Ok(None);
      } else if Holds(data, at, TRUE) {
        WordFits(data, at, TRUE);
        at := at + 4;
        return Ok(Some(true));
      } else if Holds(data, at, FALSE) {
        WordFits(data, at, FALSE);
        at := at + 5;
        return Ok(Some(false));
      } else if Holds(data, at, NULL) {
        WordFits(data, at, NULL);
        at := at + 4;
        return Ok(None);
      } else if At(data, at, MINUS) || DigitAt(data, at) {
        var _ :- Number();
        return Ok(None);
      } else {
        return Err(InvalidValue);
      }
    }
  }
}
