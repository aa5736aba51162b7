/**
  JSON texts as concrete syntax trees and the bytes they stand for, after sections
  2, 4, 5, 6 and 7 of RFC 8259.

  A tree keeps every byte of its text: white space, the spelling of each number
  and the way each character of a string is escaped. `DocumentBytes` is therefore
  the grammar read as a printer, and `DocumentOk` says which trees the guest
  helper accepts. How that relates to RFC 8259 itself is in `JsonRfc`.
 */
module JsonGrammar {
  import opened Outcomes
  import opened Utf8

  const TAB: Byte := 0x09
  const LINE_FEED: Byte := 0x0a
  const FORM_FEED: Byte := 0x0c
  const CARRIAGE_RETURN: Byte := 0x0d
  const SPACE: Byte := 0x20
  const QUOTE: Byte := 0x22
  const PLUS: Byte := 0x2b
  const COMMA: Byte := 0x2c
  const MINUS: Byte := 0x2d
  const DOT: Byte := 0x2e
  const SLASH: Byte := 0x2f
  const ZERO: Byte := 0x30
  const COLON: Byte := 0x3a
  const OPEN_BRACKET: Byte := 0x5b
  const BACKSLASH: Byte := 0x5c
  const CLOSE_BRACKET: Byte := 0x5d
  const LOWER_U: Byte := 0x75
  const OPEN_BRACE: Byte := 0x7b
  const CLOSE_BRACE: Byte := 0x7d
  const TRUE: Bytes := [0x74, 0x72, 0x75, 0x65]
  const FALSE: Bytes := [0x66, 0x61, 0x6c, 0x73, 0x65]
  const NULL: Bytes := [0x6e, 0x75, 0x6c, 0x6c]
  const DEPTH_LIMIT := 64

  // ----- White space (section 2) -----

  predicate IsWs(b: Byte) {
    b == SPACE || b == TAB || b == LINE_FEED || b == FORM_FEED || b == CARRIAGE_RETURN
  }

  predicate WsOk(w: Bytes) {
    w != [] ==> IsWs(w[0]) && WsOk(w[1..])
  }

  // ----- Strings (section 7) -----

  /** One character of a string: as itself, as \n and the like, as \uXXXX, or as a surrogate pair. */
  datatype Piece =
    | Literal(c: Scalar)
    | Short(letter: Byte)
    | Unicode(field: Bytes)
    | Pair(high: Bytes, low: Bytes)

  function HexDigit(b: Byte): (r: Option<nat>)
    ensures r.Some? ==> r.value < 16
  {
    if 0x30 <= b <= 0x39 then Some(b - 0x30)
    else if 0x41 <= b <= 0x46 then Some(b - 0x41 + 10)
    else if 0x61 <= b <= 0x66 then Some(b - 0x61 + 10)
    else None
  }

  /** `u32::from_str_radix(field, 16)` on the four bytes of a \u field. */
  function FieldValue(field: Bytes): (v: Option<nat>)
    ensures v.Some? ==> |field| == 4 && v.value < 0x10000
  {
    if |field| != 4 then None
    else
      var a := if field[0] == PLUS then Some(0) else HexDigit(field[0]);
      var b, c, d := HexDigit(field[1]), HexDigit(field[2]), HexDigit(field[3]);
      if a.None? || b.None? || c.None? || d.None? then None
      else Some(a.value * 0x1000 + b.value * 0x100 + c.value * 0x10 + d.value)
  }

  predicate IsHigh(v: nat) {
    0xd800 <= v <= 0xdbff
  }

  predicate IsLow(v: nat) {
    0xdc00 <= v <= 0xdfff
  }

  /** The character a short escape stands for. */
  function ShortValue(letter: Byte): Option<Scalar> {
    if letter == QUOTE || letter == BACKSLASH || letter == SLASH then Some(letter)
    else if letter == 0x62 then Some(0x08)
    else if letter == 0x66 then Some(0x0c)
    else if letter == 0x6e then Some(0x0a)
    else if letter == 0x72 then Some(0x0d)
    else if letter == 0x74 then Some(0x09)
    else None
  }

  /** The character a piece stands for, if it stands for one. */
  function PieceValue(p: Piece): Option<Scalar> {
    match p
    case Literal(c) => Some(c)
    case Short(letter) => ShortValue(letter)
    case Unicode(field) =>
      var v := FieldValue(field);
      if v.None? || IsHigh(v.value) || IsLow(v.value) then None else Some(v.value)
    case Pair(high, low) =>
      var h, l := FieldValue(high), FieldValue(low);
      if h.None? || l.None? || !IsHigh(h.value) || !IsLow(l.value) then None
      else Some(0x10000 + (h.value - 0xd800) * 0x400 + (l.value - 0xdc00))
  }

  /** Control characters, quotes and backslashes must be escaped. */
  predicate Unescaped(c: Scalar) {
    0x20 <= c && c != QUOTE && c != BACKSLASH
  }

  predicate PieceOk(p: Piece) {
    PieceValue(p).Some? && (p.Literal? ==> Unescaped(p.c))
  }

  /** A \u escape. */
  function Escape(field: Bytes): (s: Bytes)
    ensures |s| == 2 + |field| && s[0] == BACKSLASH && s[1] == LOWER_U && s[2..] == field
  {
    [BACKSLASH, LOWER_U] + field
  }

  function PieceBytes(p: Piece): (s: Bytes)
    ensures |s| > 0
  {
    match p
    case Literal(c) => Encode(c)
    case Short(letter) => [BACKSLASH, letter]
    case Unicode(field) => Escape(field)
    case Pair(high, low) => Escape(high) + Escape(low)
  }

  /** The characters between two quotes. */
  datatype Pieces = NoPieces | Pieces(head: Piece, tail: Pieces)

  predicate TextOk(ps: Pieces) {
    ps.Pieces? ==> PieceOk(ps.head) && TextOk(ps.tail)
  }

  function TextBytes(ps: Pieces): Bytes {
    match ps
    case NoPieces => []
    case Pieces(p, tail) => PieceBytes(p) + TextBytes(tail)
  }

  predicate Denotes(ps: Pieces)
    ensures TextOk(ps) ==> Denotes(ps)
  {
    ps.Pieces? ==> PieceValue(ps.head).Some? && Denotes(ps.tail)
  }

  /** The text that a string stands for. */
  function Decoded(ps: Pieces): (cs: seq<Scalar>)
    requires Denotes(ps)
  {
    match ps
    case NoPieces => []
    case Pieces(p, tail) => [PieceValue(p).value] + Decoded(tail)
  }

  function Quoted(ps: Pieces): Bytes {
    [QUOTE] + TextBytes(ps) + [QUOTE]
  }

  // ----- Numbers (section 6) -----

  datatype Exponent = Exponent(letter: Byte, sign: Bytes, digits: Bytes)
  datatype Number = Number(minus: bool, whole: Bytes, fraction: Option<Bytes>, exponent: Option<Exponent>)

  predicate IsDigit(b: Byte) {
    0x30 <= b <= 0x39
  }

  predicate DigitsOk(s: Bytes) {
    |s| > 0 && forall i | 0 <= i < |s| :: IsDigit(s[i])
  }

  predicate WholeOk(d: Bytes) {
    DigitsOk(d) && (d[0] == ZERO ==> |d| == 1)
  }

  predicate ExponentOk(e: Exponent) {
    && (e.letter == 0x65 || e.letter == 0x45)
    && (e.sign == [] || e.sign == [PLUS] || e.sign == [MINUS])
    && DigitsOk(e.digits)
  }

  predicate NumberOk(n: Number) {
    && WholeOk(n.whole)
    && (n.fraction.Some? ==> DigitsOk(n.fraction.value))
    && (n.exponent.Some? ==> ExponentOk(n.exponent.value))
  }

  function FractionBytes(f: Option<Bytes>): Bytes {
    if f.None? then [] else [DOT] + f.value
  }

  function ExponentBytes(e: Option<Exponent>): Bytes {
    if e.None? then [] else [e.value.letter] + e.value.sign + e.value.digits
  }

  function NumberBytes(n: Number): Bytes {
    (if n.minus then [MINUS] else []) + n.whole + FractionBytes(n.fraction) + ExponentBytes(n.exponent)
  }

  // ----- Values, arrays and objects (sections 3, 4 and 5) -----

  /** `gap` is the white space between the opening bracket and what follows it. */
  datatype JsonValue =
    | Text(pieces: Pieces)
    | Numeral(number: Number)
    | Bool(b: bool)
    | Null
    | Array(gap: Bytes, elements: Elements)
    | Object(gap: Bytes, members: Members)

  /** `gap` is the white space after the comma, and empty after the last element. */
  datatype Elements = NoElements | Elements(head: Element, gap: Bytes, tail: Elements)
  datatype Element = Element(value: JsonValue, after: Bytes)

  datatype Member = Member(key: Pieces, beforeColon: Bytes, afterColon: Bytes, value: JsonValue, after: Bytes)
  datatype Members = NoMembers | Members(head: Member, gap: Bytes, tail: Members)

  /** A whole text: one object, with white space around it. */
  datatype Document = Document(lead: Bytes, gap: Bytes, members: Members, trail: Bytes)

  function JsonBytes(v: JsonValue): Bytes {
    match v
    case Text(ps) => Quoted(ps)
    case Numeral(n) => NumberBytes(n)
    case Bool(b) => if b then TRUE else FALSE
    case Null => NULL
    case Array(gap, es) => [OPEN_BRACKET] + gap + ElementsBytes(es) + [CLOSE_BRACKET]
    case Object(gap, ms) => [OPEN_BRACE] + gap + MembersBytes(ms) + [CLOSE_BRACE]
  }

  function ElementBytes(e: Element): Bytes {
    JsonBytes(e.value) + e.after
  }

  function ElementsBytes(es: Elements): Bytes {
    match es
    case NoElements => []
    case Elements(e, gap, tail) =>
      ElementBytes(e) + (if tail.NoElements? then [] else [COMMA] + gap + ElementsBytes(tail))
  }

  function MemberBytes(m: Member): Bytes {
    Quoted(m.key) + m.beforeColon + [COLON] + m.afterColon + JsonBytes(m.value) + m.after
  }

  function MembersBytes(ms: Members): Bytes {
    match ms
    case NoMembers => []
    case Members(m, gap, tail) =>
      MemberBytes(m) + (if tail.NoMembers? then [] else [COMMA] + gap + MembersBytes(tail))
  }

  function DocumentBytes(d: Document): Bytes {
    d.lead + [OPEN_BRACE] + d.gap + MembersBytes(d.members) + [CLOSE_BRACE] + d.trail
  }

  function Max(a: nat, b: nat): nat {
    if a < b then b else a
  }

  /** Nesting: 1 for scalars and empty containers. */
  function Height(v: JsonValue): (h: nat)
    ensures h >= 1
  {
    match v
    case Array(_, es) => 1 + ElementsHeight(es)
    case Object(_, ms) => 1 + MembersHeight(ms)
    case _ => 1
  }

  function ElementsHeight(es: Elements): nat {
    match es
    case NoElements => 0
    case Elements(e, _, tail) => Max(Height(e.value), ElementsHeight(tail))
  }

  function MembersHeight(ms: Members): nat {
    match ms
    case NoMembers => 0
    case Members(m, _, tail) => Max(Height(m.value), MembersHeight(tail))
  }

  predicate JsonOk(v: JsonValue) {
    match v
    case Text(ps) => TextOk(ps)
    case Numeral(n) => NumberOk(n)
    case Bool(_) => true
    case Null => true
    case Array(gap, es) => WsOk(gap) && ElementsOk(es)
    case Object(gap, ms) => WsOk(gap) && MembersOk(ms)
  }

  predicate ElementOk(e: Element) {
    JsonOk(e.value) && WsOk(e.after)
  }

  predicate ElementsOk(es: Elements) {
    match es
    case NoElements => true
    case Elements(e, gap, tail) =>
      ElementOk(e) && WsOk(gap) && ElementsOk(tail) && (tail.NoElements? ==> gap == [])
  }

  predicate MemberOk(m: Member) {
    TextOk(m.key) && WsOk(m.beforeColon) && WsOk(m.afterColon) && JsonOk(m.value) && WsOk(m.after)
  }

  /** Keys must be distinct once decoded, however they are spelled. */
  predicate MembersOk(ms: Members)
    ensures MembersOk(ms) ==> KeysOk(ms)
  {
    match ms
    case NoMembers => true
    case Members(m, gap, tail) =>
      && MemberOk(m) && WsOk(gap) && MembersOk(tail) && (tail.NoMembers? ==> gap == [])
      && Decoded(m.key) !in Keys(tail)
  }

  predicate KeysOk(ms: Members) {
    ms.Members? ==> Denotes(ms.head.key) && KeysOk(ms.tail)
  }

  function Keys(ms: Members): set<seq<Scalar>>
    requires KeysOk(ms)
  {
    match ms
    case NoMembers => {}
    case Members(m, _, tail) => {Decoded(m.key)} + Keys(tail)
  }

  /** The texts the helper accepts; member values may nest to depth 64. */
  predicate DocumentOk(d: Document) {
    && WsOk(d.lead) && WsOk(d.gap) && MembersOk(d.members) && WsOk(d.trail)
    && MembersHeight(d.members) <= DEPTH_LIMIT
  }
}
