/**
  The text reader of guest/docker-shutdown.rs as functions from a position in the
  text to the concrete syntax tree that starts there and the position after it.
 */
module JsonParser {
  import opened Outcomes
  import opened Utf8
  import opened JsonGrammar

  datatype JsonError =
    | InvalidJson
    | InvalidString
    | ControlByte
    | Unterminated
    | InvalidUtf8
    | InvalidEscape
    | InvalidUnicodeEscape
    | UnpairedSurrogate
    | TooDeep
    | DuplicateKey(key: seq<Scalar>)
    | InvalidObject
    | InvalidArray
    | InvalidNumber
    | InvalidValue
    | NotAnObject
    | TrailingData

  datatype Parsed<+T> = Done(value: T, end: nat) | Bad(error: JsonError)

  /** `data.get(at) == Some(&b)` */
  predicate At(s: Bytes, i: nat, b: Byte) {
    i < |s| && s[i] == b
  }

  predicate DigitAt(s: Bytes, i: nat) {
    i < |s| && IsDigit(s[i])
  }

  /** The text contains `b` at `i`. */
  predicate Holds(s: Bytes, i: nat, b: Bytes)
    decreases |b|
  {
    b != [] ==> At(s, i, b[0]) && Holds(s, i + 1, b[1..])
  }

  // ----- White space -----

  function WsEnd(s: Bytes, i: nat): (e: nat)
    requires i <= |s|
    ensures i <= e <= |s| && (e < |s| ==> !IsWs(s[e]))
    decreases |s| - i
  {
    if i < |s| && IsWs(s[i]) then WsEnd(s, i + 1) else i
  }

  // ----- Strings -----

  /** The position of the closing quote. */
  function QuoteAt(s: Bytes, i: nat): (r: Result<nat, JsonError>)
    ensures r.Ok? ==> i <= r.value && At(s, r.value, QUOTE)
    decreases |s| - i
  {
    if i >= |s| then Err(Unterminated)
    else if s[i] == QUOTE then Ok(i)
    else if s[i] == BACKSLASH then QuoteAt(s, if At(s, i + 1, LOWER_U) then i + 6 else i + 2)
    else if s[i] < 0x20 then Err(ControlByte)
    else QuoteAt(s, i + 1)
  }

  /** The four bytes at `i`, unless they are not there or not hexadecimal. */
  function ReadField(b: Bytes, i: nat): (r: Result<Bytes, JsonError>)
    ensures r.Ok? ==> i + 4 <= |b| && r.value == b[i..i + 4] && FieldValue(r.value).Some?
  {
    if i + 4 <= |b| && FieldValue(b[i..i + 4]).Some? then Ok(b[i..i + 4]) else Err(InvalidUnicodeEscape)
  }

  /** The character at `i` of a string whose last byte is its closing quote. */
  function ReadPiece(b: Bytes, i: nat): (r: Result<Piece, JsonError>)
    requires i + 1 < |b|
    ensures r.Ok? ==> PieceValue(r.value).Some?
  {
    if b[i] != BACKSLASH then
      if Valid(b[i..|b| - 1]) then Ok(Literal(First(b[i..|b| - 1]).value)) else Err(InvalidUtf8)
    else if b[i + 1] == LOWER_U then
      var field :- ReadField(b, i + 2);
      if IsHigh(FieldValue(field).value) then
        if !At(b, i + 6, BACKSLASH) || !At(b, i + 7, LOWER_U) then Err(UnpairedSurrogate)
        else
          var low :- ReadField(b, i + 8);
          if IsLow(FieldValue(low).value) then Ok(Pair(field, low)) else Err(UnpairedSurrogate)
      else if IsLow(FieldValue(field).value) then Err(UnpairedSurrogate)
      else Ok(Unicode(field))
    else if ShortValue(b[i + 1]).Some? then Ok(Short(b[i + 1]))
    else Err(InvalidEscape)
  }

  function ReadPieces(b: Bytes, i: nat): (r: Result<Pieces, JsonError>)
    ensures r.Ok? ==> Denotes(r.value)
    decreases |b| - i
  {
    if i + 1 >= |b| then Ok(NoPieces)
    else
      var p :- ReadPiece(b, i);
      var ps :- ReadPieces(b, i + |PieceBytes(p)|);
      Ok(Pieces(p, ps))
  }

  function ReadString(s: Bytes, i: nat): (p: Parsed<Pieces>)
    ensures p.Done? ==> i < p.end <= |s| && Denotes(p.value)
  {
    if !At(s, i, QUOTE) then Bad(InvalidString)
    else
      match QuoteAt(s, i + 1)
      case Err(e) => Bad(e)
      case Ok(n) =>
        match ReadPieces(s[i..n + 1], 1)
        case Err(e) => Bad(e)
        case Ok(ps) => Done(ps, n + 1)
  }

  // ----- Numbers -----

  function DigitsEnd(s: Bytes, i: nat): (e: nat)
    requires i <= |s|
    ensures i <= e <= |s|
    decreases |s| - i
  {
    if DigitAt(s, i) then DigitsEnd(s, i + 1) else i
  }

  function ReadWhole(s: Bytes, i: nat): (p: Parsed<Bytes>)
    ensures p.Done? ==> i < p.end <= |s|
  {
    if At(s, i, ZERO) then
      if DigitAt(s, i + 1) then Bad(InvalidNumber) else Done([ZERO], i + 1)
    else if DigitAt(s, i) then
      var e := DigitsEnd(s, i + 1);
      Done(s[i..e], e)
    else Bad(InvalidNumber)
  }

  /** At least one digit. */
  function ReadDigits(s: Bytes, i: nat): (p: Parsed<Bytes>)
    requires i <= |s|
    ensures p.Done? ==> i < p.end <= |s|
  {
    var e := DigitsEnd(s, i);
    if e == i then Bad(InvalidNumber) else Done(s[i..e], e)
  }

  function ReadFraction(s: Bytes, i: nat): (p: Parsed<Option<Bytes>>)
    requires i <= |s|
    ensures p.Done? ==> i <= p.end <= |s|
  {
    if At(s, i, DOT) then
      match ReadDigits(s, i + 1)
      case Bad(e) => Bad(e)
      case Done(digits, end) => Done(Some(digits), end)
    else Done(None, i)
  }

  function SignEnd(s: Bytes, i: nat): nat {
    if At(s, i, PLUS) || At(s, i, MINUS) then i + 1 else i
  }

  function ReadExponent(s: Bytes, i: nat): (p: Parsed<Option<Exponent>>)
    requires i <= |s|
    ensures p.Done? ==> i <= p.end <= |s|
  {
    if At(s, i, 0x65) || At(s, i, 0x45) then
      var k := SignEnd(s, i + 1);
      match ReadDigits(s, k)
      case Bad(e) => Bad(e)
      case Done(digits, end) => Done(Some(Exponent(s[i], s[i + 1..k], digits)), end)
    else Done(None, i)
  }

  function ReadNumber(s: Bytes, i: nat): (p: Parsed<Number>)
    ensures p.Done? ==> i < p.end <= |s|
  {
    var minus := At(s, i, MINUS);
    match ReadWhole(s, if minus then i + 1 else i)
    case Bad(e) => Bad(e)
    case Done(whole, i1) =>
      match ReadFraction(s, i1)
      case Bad(e) => Bad(e)
      case Done(fraction, i2) =>
        match ReadExponent(s, i2)
        case Bad(e) => Bad(e)
        case Done(exponent, i3) => Done(Number(minus, whole, fraction, exponent), i3)
  }

  // ----- Values -----

  /** The value whose first byte is at `i`; `depth` is its nesting depth. */
  function ReadValue(s: Bytes, i: nat, depth: nat): (p: Parsed<JsonValue>)
    ensures p.Done? ==> i < p.end <= |s|
    decreases |s| - i, 0
  {
    if depth > DEPTH_LIMIT then Bad(TooDeep)
    else if At(s, i, QUOTE) then
      match ReadString(s, i)
      case Bad(e) => Bad(e)
      case Done(ps, end) => Done(Text(ps), end)
    else if At(s, i, OPEN_BRACE) then
      var k := WsEnd(s, i + 1);
      match ReadObject(s, k, depth + 1)
      case Bad(e) => Bad(e)
      case Done(ms, end) => Done(Object(s[i + 1..k], ms), end)
    else if At(s, i, OPEN_BRACKET) then
      var k := WsEnd(s, i + 1);
      match ReadArray(s, k, depth + 1)
      case Bad(e) => Bad(e)
      case Done(es, end) => Done(Array(s[i + 1..k], es), end)
    else if Holds(s, i, TRUE) then Done(Bool(true), i + 4)
    else if Holds(s, i, FALSE) then Done(Bool(false), i + 5)
    else if Holds(s, i, NULL) then Done(Null, i + 4)
    else if At(s, i, MINUS) || DigitAt(s, i) then
      match ReadNumber(s, i)
      case Bad(e) => Bad(e)
      case Done(n, end) => Done(Numeral(n), end)
    else Bad(InvalidValue)
  }

  /** The elements of an array, after its opening bracket and white space. */
  function ReadArray(s: Bytes, i: nat, depth: nat): (p: Parsed<Elements>)
    ensures p.Done? ==> i < p.end <= |s|
    decreases |s| - i, 3
  {
    if At(s, i, CLOSE_BRACKET) then Done(NoElements, i + 1) else ReadElements(s, i, depth)
  }

  /** The members of an object, after its opening brace and white space. */
  function ReadObject(s: Bytes, i: nat, depth: nat): (p: Parsed<Members>)
    ensures p.Done? ==> i < p.end <= |s|
    decreases |s| - i, 3
  {
    if At(s, i, CLOSE_BRACE) then Done(NoMembers, i + 1) else ReadMembers(s, i, depth, {})
  }

  /** One array element and the white space after it. */
  function ReadElement(s: Bytes, i: nat, depth: nat): (p: Parsed<Element>)
    ensures p.Done? ==> i < p.end <= |s|
    decreases |s| - i, 1
  {
    match ReadValue(s, i, depth)
    case Bad(e) => Bad(e)
    case Done(v, i1) =>
      var i2 := WsEnd(s, i1);
      Done(Element(v, s[i1..i2]), i2)
  }

  /** At least one array element, and the closing bracket. */
  function ReadElements(s: Bytes, i: nat, depth: nat): (p: Parsed<Elements>)
    ensures p.Done? ==> i < p.end <= |s| && p.value.Elements?
    decreases |s| - i, 2
  {
    match ReadElement(s, i, depth)
    case Bad(e) => Bad(e)
    case Done(x, i1) =>
      if At(s, i1, CLOSE_BRACKET) then Done(Elements(x, [], NoElements), i1 + 1)
      else if At(s, i1, COMMA) then
        var i2 := WsEnd(s, i1 + 1);
        match ReadElements(s, i2, depth)
        case Bad(e) => Bad(e)
        case Done(tail, end) => Done(Elements(x, s[i1 + 1..i2], tail), end)
      else Bad(InvalidArray)
  }

  /** One `"key": value` and the white space after it. `seen` holds the keys before it. */
  function ReadMember(s: Bytes, i: nat, depth: nat, seen: set<seq<Scalar>>): (p: Parsed<Member>)
    ensures p.Done? ==> i < p.end <= |s| && Denotes(p.value.key) && (p.end < |s| ==> !IsWs(s[p.end]))
    decreases |s| - i, 1
  {
    match ReadString(s, i)
    case Bad(e) => Bad(e)
    case Done(key, i1) =>
      if Decoded(key) in seen then Bad(DuplicateKey(Decoded(key)))
      else
        var i2 := WsEnd(s, i1);
        if !At(s, i2, COLON) then Bad(InvalidJson)
        else
          var i3 := WsEnd(s, i2 + 1);
          match ReadValue(s, i3, depth)
          case Bad(e) => Bad(e)
          case Done(v, i4) =>
            var i5 := WsEnd(s, i4);
            Done(Member(key, s[i1..i2], s[i2 + 1..i3], v, s[i4..i5]), i5)
  }

  /** At least one object member, and the closing brace. */
  function ReadMembers(s: Bytes, i: nat, depth: nat, seen: set<seq<Scalar>>): (p: Parsed<Members>)
    ensures p.Done? ==> i < p.end <= |s| && p.value.Members?
    decreases |s| - i, 2
  {
    match ReadMember(s, i, depth, seen)
    case Bad(e) => Bad(e)
    case Done(m, i1) =>
      if At(s, i1, CLOSE_BRACE) then Done(Members(m, [], NoMembers), i1 + 1)
      else if At(s, i1, COMMA) then
        var i2 := WsEnd(s, i1 + 1);
        match ReadMembers(s, i2, depth, seen + {Decoded(m.key)})
        case Bad(e) => Bad(e)
        case Done(tail, end) => Done(Members(m, s[i1 + 1..i2], tail), end)
      else Bad(InvalidObject)
  }

  /** A whole text: its members start at nesting depth 1. */
  function ReadDocument(s: Bytes): Parsed<Document> {
    var i := WsEnd(s, 0);
    if !At(s, i, OPEN_BRACE) then Bad(NotAnObject)
    else
      var k := WsEnd(s, i + 1);
      match ReadObject(s, k, 1)
      case Bad(e) => Bad(e)
      case Done(ms, end) =>
        if WsEnd(s, end) == |s| then Done(Document(s[..i], s[i + 1..k], ms, s[end..]), |s|)
        else Bad(TrailingData)
  }

  function BoolOf(v: JsonValue): Option<bool> {
    if v.Bool? then Some(v.b) else None
  }
}
