/**
  How the accepted texts relate to RFC 8259. `DocumentIn(d, false)` is the grammar of its
  sections 2, 4, 5, 6 and 7 for object texts, of any depth, with any keys and any \u escapes.
  `DocumentIn(d, true)` also allows what the helper allows: a form feed as white space, and a
  plus sign as the first digit of a \u field.
 */
module JsonRfc {
  import opened Outcomes
  import opened Utf8
  import opened JsonGrammar
  import opened JsonParser
  import opened JsonStrings
  import opened JsonRoundTrip

  // ----- The grammar -----

  /** Section 2. */
  predicate WsIn(w: Bytes, extended: bool) {
    w != [] ==>
      && (w[0] == 0x20 || w[0] == 0x09 || w[0] == 0x0a || w[0] == 0x0d || (extended && w[0] == 0x0c))
      && WsIn(w[1..], extended)
  }

  predicate IsHex(b: Byte) {
    0x30 <= b <= 0x39 || 0x41 <= b <= 0x46 || 0x61 <= b <= 0x66
  }

  predicate FieldIn(field: Bytes, extended: bool) {
    && |field| == 4 && (IsHex(field[0]) || (extended && field[0] == 0x2b))
    && IsHex(field[1]) && IsHex(field[2]) && IsHex(field[3])
  }

  /** The letters of the two-character escapes, and what they stand for. */
  const SHORT: map<Byte, Scalar> :=
    map[0x22 := 0x22, 0x5c := 0x5c, 0x2f := 0x2f, 0x62 := 0x08, 0x66 := 0x0c, 0x6e := 0x0a, 0x72 := 0x0d, 0x74 := 0x09]

  /** Section 7. */
  predicate PieceIn(p: Piece, extended: bool) {
    match p
    case Literal(c) => 0x20 <= c <= 0x21 || 0x23 <= c <= 0x5b || 0x5d <= c <= 0x10ffff
    case Short(letter) => letter in SHORT
    case Unicode(field) => FieldIn(field, extended)
    case Pair(high, low) => FieldIn(high, extended) && FieldIn(low, extended)
  }

  predicate TextIn(ps: Pieces, extended: bool) {
    ps.Pieces? ==> PieceIn(ps.head, extended) && TextIn(ps.tail, extended)
  }

  predicate DigitsIn(s: Bytes) {
    s != [] ==> 0x30 <= s[0] <= 0x39 && DigitsIn(s[1..])
  }

  /** Section 6. */
  predicate NumberIn(n: Number) {
    && (n.whole == [0x30] || (n.whole != [] && 0x31 <= n.whole[0] <= 0x39 && DigitsIn(n.whole)))
    && (n.fraction.Some? ==> n.fraction.value != [] && DigitsIn(n.fraction.value))
    && (n.exponent.Some? ==>
          && n.exponent.value.letter in {0x65, 0x45} && n.exponent.value.sign in {[], [0x2d], [0x2b]}
          && n.exponent.value.digits != [] && DigitsIn(n.exponent.value.digits))
  }

  /** Section 3. */
  predicate JsonIn(v: JsonValue, extended: bool) {
    match v
    case Text(ps) => TextIn(ps, extended)
    case Numeral(n) => NumberIn(n)
    case Bool(_) => true
    case Null => true
    case Array(gap, es) => WsIn(gap, extended) && ElementsIn(es, extended)
    case Object(gap, ms) => WsIn(gap, extended) && MembersIn(ms, extended)
  }

  /** Section 5. */
  predicate ElementsIn(es: Elements, extended: bool) {
    match es
    case NoElements => true
    case Elements(e, gap, tail) =>
      && JsonIn(e.value, extended) && WsIn(e.after, extended) && WsIn(gap, extended) && ElementsIn(tail, extended)
      && (tail.NoElements? ==> gap == [])
  }

  /** Section 4. */
  predicate MembersIn(ms: Members, extended: bool) {
    match ms
    case NoMembers => true
    case Members(m, gap, tail) =>
      && TextIn(m.key, extended) && WsIn(m.beforeColon, extended) && WsIn(m.afterColon, extended)
      && JsonIn(m.value, extended) && WsIn(m.after, extended) && WsIn(gap, extended) && MembersIn(tail, extended)
      && (tail.NoMembers? ==> gap == [])
  }

  predicate DocumentIn(d: Document, extended: bool) {
    WsIn(d.lead, extended) && WsIn(d.gap, extended) && MembersIn(d.members, extended) && WsIn(d.trail, extended)
  }

  // ----- The characters -----

  /** UTF-8 as the syntax of RFC 3629, section 4, has it. */
  predicate IsUtf8(s: Bytes, c: Scalar) {
    if |s| == 1 then
      s[0] <= 0x7f && c == s[0]
    else if |s| == 2 then
      0xc2 <= s[0] <= 0xdf && IsTail(s[1]) && c == (s[0] as int - 0xc0) * 0x40 + (s[1] as int - 0x80)
    else if |s| == 3 then
      && IsTail(s[2])
      && (|| (s[0] == 0xe0 && 0xa0 <= s[1] <= 0xbf) || (0xe1 <= s[0] <= 0xec && IsTail(s[1]))
          || (s[0] == 0xed && 0x80 <= s[1] <= 0x9f) || (0xee <= s[0] <= 0xef && IsTail(s[1])))
      && c == (s[0] as int - 0xe0) * 0x1000 + (s[1] as int - 0x80) * 0x40 + (s[2] as int - 0x80)
    else
      && |s| == 4 && IsTail(s[2]) && IsTail(s[3])
      && (|| (s[0] == 0xf0 && 0x90 <= s[1] <= 0xbf) || (0xf1 <= s[0] <= 0xf3 && IsTail(s[1]))
          || (s[0] == 0xf4 && 0x80 <= s[1] <= 0x8f))
      && c == (s[0] as int - 0xf0) * 0x40000 + (s[1] as int - 0x80) * 0x1000 + (s[2] as int - 0x80) * 0x40
              + (s[3] as int - 0x80)
  }

  predicate IsTail(b: Byte) {
    0x80 <= b <= 0xbf
  }

  predicate HexIs(b: Byte, v: nat) {
    || (v < 10 && b as int == 0x30 + v)
    || (10 <= v < 16 && (b as int == 0x41 + (v - 10) || b as int == 0x61 + (v - 10)))
  }

  ghost predicate FieldIs(field: Bytes, v: nat) {
    && |field| == 4
    && exists a: nat, b: nat, c: nat, d: nat ::
         && HexIs(field[0], a) && HexIs(field[1], b) && HexIs(field[2], c) && HexIs(field[3], d)
         && v == ((a * 0x10 + b) * 0x10 + c) * 0x10 + d
  }

  /** The ways section 7 gives to spell a character: as itself, by a letter, by four digits, or by a surrogate pair. */
  ghost predicate Spells(s: Bytes, c: Scalar) {
    || (IsUtf8(s, c) && 0x20 <= c && c != 0x22 && c != 0x5c)
    || (|s| == 2 && s[0] == 0x5c && s[1] in SHORT && SHORT[s[1]] == c)
    || (|s| == 6 && s[0] == 0x5c && s[1] == 0x75 && FieldIs(s[2..], c))
    || (&& |s| == 12 && s[0] == 0x5c && s[1] == 0x75 && s[6] == 0x5c && s[7] == 0x75 && c >= 0x10000
        && FieldIs(s[2..6], 0xd800 + (c - 0x10000) / 0x400) && FieldIs(s[8..], 0xdc00 + (c - 0x10000) % 0x400))
  }

  function Concat(parts: seq<Bytes>): Bytes {
    if parts == [] then [] else parts[0] + Concat(parts[1..])
  }

  lemma Utf8IsEncoded(s: Bytes, c: Scalar)
    ensures IsUtf8(s, c) <==> s == Encode(c)
  {
    Utf8Encodes(c);
    if IsUtf8(s, c) {
      Utf8IsUnique(s, c);
    }
  }

  lemma Utf8Encodes(c: Scalar)
    ensures IsUtf8(Encode(c), c)
  {
  }

  lemma Utf8IsUnique(s: Bytes, c: Scalar)
    requires IsUtf8(s, c)
    ensures s == Encode(c)
  {
    if |s| == 2 {
      Divides(c, s[0] as int - 0xc0, s[1] as int - 0x80);
    } else if |s| == 3 {
      ThreeBytes(s, c);
    } else if |s| == 4 {
      FourBytes(s, c);
    }
  }

  lemma ThreeBytes(s: Bytes, c: Scalar)
    requires |s| == 3 && IsUtf8(s, c)
    ensures s == Encode(c)
  {
    var q := (s[0] as int - 0xe0) * 0x40 + (s[1] as int - 0x80);
    Divides(c, q, s[2] as int - 0x80);
    Divides(q, s[0] as int - 0xe0, s[1] as int - 0x80);
  }

  lemma FourBytes(s: Bytes, c: Scalar)
    requires |s| == 4 && IsUtf8(s, c)
    ensures s == Encode(c)
  {
    var p := (s[0] as int - 0xf0) * 0x40 + (s[1] as int - 0x80);
    var q := p * 0x40 + (s[2] as int - 0x80);
    Divides(c, q, s[3] as int - 0x80);
    Divides(q, p, s[2] as int - 0x80);
    Divides(p, s[0] as int - 0xf0, s[1] as int - 0x80);
  }

  lemma Divides(n: int, q: int, r: int)
    requires n == q * 0x40 + r && 0 <= r < 0x40
    ensures n / 0x40 == q && n % 0x40 == r
  {
  }

  lemma HexIsDigit(b: Byte, v: nat)
    ensures HexIs(b, v) <==> HexDigit(b) == Some(v)
    ensures IsHex(b) <==> HexDigit(b).Some?
  {
  }

  lemma FieldIsValue(field: Bytes, v: nat)
    requires FieldIs(field, v)
    ensures FieldValue(field) == Some(v) && FieldIn(field, false)
  {
    var a: nat, b: nat, c: nat, d: nat :|
      && HexIs(field[0], a) && HexIs(field[1], b) && HexIs(field[2], c) && HexIs(field[3], d)
      && v == ((a * 0x10 + b) * 0x10 + c) * 0x10 + d;
    HexIsDigit(field[0], a);
    HexIsDigit(field[1], b);
    HexIsDigit(field[2], c);
    HexIsDigit(field[3], d);
    NoPlusDigit();
    hide HexIs, HexDigit, IsHex;
  }

  lemma NoPlusDigit()
    ensures HexDigit(PLUS) == None
  {
  }

  lemma ShortIsValue(letter: Byte)
    ensures if letter in SHORT then ShortValue(letter) == Some(SHORT[letter]) else ShortValue(letter).None?
  {
  }

  /** The piece that a spelling is read as. */
  ghost function PieceOf(s: Bytes, c: Scalar): Piece
    requires Spells(s, c)
  {
    if IsUtf8(s, c) && 0x20 <= c && c != 0x22 && c != 0x5c then Literal(c)
    else if |s| == 2 then Short(s[1])
    else if |s| == 6 then Unicode(s[2..])
    else Pair(s[2..6], s[8..])
  }

  lemma PieceOfSpelling(s: Bytes, c: Scalar)
    requires Spells(s, c)
    ensures PieceOk(PieceOf(s, c)) && PieceValue(PieceOf(s, c)) == Some(c) && PieceBytes(PieceOf(s, c)) == s
  {
    Utf8IsEncoded(s, c);
    hide IsUtf8, Encode, FieldIs, FieldValue, SHORT, ShortValue;
    if IsUtf8(s, c) && 0x20 <= c && c != 0x22 && c != 0x5c {
    } else if |s| == 2 {
      ShortIsValue(s[1]);
    } else if |s| == 6 {
      FieldIsValue(s[2..], c);
      assert s == [0x5c, 0x75] + s[2..];
    } else {
      FieldIsValue(s[2..6], 0xd800 + (c - 0x10000) / 0x400);
      FieldIsValue(s[8..], 0xdc00 + (c - 0x10000) % 0x400);
      assert s == [0x5c, 0x75] + s[2..6] + ([0x5c, 0x75] + s[8..]);
    }
  }

  ghost function PiecesOf(parts: seq<Bytes>, cs: seq<Scalar>): Pieces
    requires |parts| == |cs| && forall k :: 0 <= k < |cs| ==> Spells(parts[k], cs[k])
  {
    if cs == [] then NoPieces else Pieces(PieceOf(parts[0], cs[0]), PiecesOf(parts[1..], cs[1..]))
  }

  lemma {:induction false} PiecesOfSpellings(parts: seq<Bytes>, cs: seq<Scalar>)
    requires |parts| == |cs| && forall k :: 0 <= k < |cs| ==> Spells(parts[k], cs[k])
    ensures var ps := PiecesOf(parts, cs); TextOk(ps) && Decoded(ps) == cs && TextBytes(ps) == Concat(parts)
    decreases |cs|
  {
    hide Spells, PieceOf, PieceOk, PieceValue, PieceBytes;
    if cs != [] {
      PieceOfSpelling(parts[0], cs[0]);
      PiecesOfSpellings(parts[1..], cs[1..]);
    }
  }

  /** Any text, with every character spelled in any of the ways of section 7, is read as itself. */
  lemma SpelledTextIsRead(parts: seq<Bytes>, cs: seq<Scalar>)
    requires |parts| == |cs| && forall k :: 0 <= k < |cs| ==> Spells(parts[k], cs[k])
    ensures var s: Bytes := [0x22] + Concat(parts) + [0x22];
            && ReadString(s, 0).Done? && ReadString(s, 0).end == |s|
            && TextOk(ReadString(s, 0).value) && Decoded(ReadString(s, 0).value) == cs
  {
    hide ReadString, Spells, PieceOf, PieceOk, PieceValue, TextBytes;
    var ps := PiecesOf(parts, cs);
    PiecesOfSpellings(parts, cs);
    var s := Quoted(ps);
    HoldsSlice(s, 0, |s|);
    assert s[0..|s|] == s;
    StringComplete(s, 0, ps);
  }

  // ----- The text of a tree -----

  function TextOf(ps: Pieces): Bytes {
    match ps
    case NoPieces => []
    case Pieces(Literal(c), tail) => Encode(c) + TextOf(tail)
    case Pieces(Short(letter), tail) => [0x5c, letter] + TextOf(tail)
    case Pieces(Unicode(field), tail) => [0x5c, 0x75] + field + TextOf(tail)
    case Pieces(Pair(high, low), tail) => [0x5c, 0x75] + high + [0x5c, 0x75] + low + TextOf(tail)
  }

  function NumberText(n: Number): Bytes {
    (if n.minus then [0x2d] else []) + n.whole + (if n.fraction.Some? then [0x2e] + n.fraction.value else [])
      + (if n.exponent.Some? then
           [n.exponent.value.letter] + n.exponent.value.sign + n.exponent.value.digits
         else
           [])
  }

  /** `true`, `false`, `null`, and the six structural characters. */
  function JsonText(v: JsonValue): Bytes {
    match v
    case Text(ps) => [0x22] + TextOf(ps) + [0x22]
    case Numeral(n) => NumberText(n)
    case Bool(b) => if b then [0x74, 0x72, 0x75, 0x65] else [0x66, 0x61, 0x6c, 0x73, 0x65]
    case Null => [0x6e, 0x75, 0x6c, 0x6c]
    case Array(gap, es) => [0x5b] + gap + ElementsText(es) + [0x5d]
    case Object(gap, ms) => [0x7b] + gap + MembersText(ms) + [0x7d]
  }

  function ElementsText(es: Elements): Bytes {
    match es
    case NoElements => []
    case Elements(Element(v, after), _, NoElements) => JsonText(v) + after
    case Elements(Element(v, after), gap, tail) => JsonText(v) + after + [0x2c] + gap + ElementsText(tail)
  }

  function MembersText(ms: Members): Bytes {
    match ms
    case NoMembers => []
    case Members(m, gap, tail) =>
      [0x22] + TextOf(m.key) + [0x22] + m.beforeColon + [0x3a] + m.afterColon + JsonText(m.value) + m.after
        + (if tail.NoMembers? then [] else [0x2c] + gap + MembersText(tail))
  }

  function DocumentText(d: Document): Bytes {
    d.lead + [0x7b] + d.gap + MembersText(d.members) + [0x7d] + d.trail
  }

  lemma {:induction false} TextIsBytes(ps: Pieces)
    ensures TextOf(ps) == TextBytes(ps)
  {
    hide Encode;
    if ps.Pieces? {
      TextIsBytes(ps.tail);
      assert PieceBytes(ps.head) + TextOf(ps.tail) == TextOf(ps);
    }
  }

  lemma NumberIsBytes(n: Number)
    ensures NumberText(n) == NumberBytes(n)
  {
  }

  lemma {:induction false} JsonIsBytes(v: JsonValue)
    ensures JsonText(v) == JsonBytes(v)
    decreases v
  {
    hide TextOf, TextBytes, NumberText, NumberBytes, ElementsText, ElementsBytes, MembersText, MembersBytes;
    match v
    case Text(ps) => TextIsBytes(ps);
    case Numeral(n) => NumberIsBytes(n);
    case Array(_, es) => ElementsAreBytes(es);
    case Object(_, ms) => MembersAreBytes(ms);
    case _ =>
  }

  lemma {:induction false} ElementsAreBytes(es: Elements)
    ensures ElementsText(es) == ElementsBytes(es)
    decreases es
  {
    hide JsonText, JsonBytes;
    if es.Elements? {
      JsonIsBytes(es.head.value);
      ElementsAreBytes(es.tail);
      if es.tail.Elements? {
        Regrouped(JsonText(es.head.value) + es.head.after, [0x2c], es.gap, ElementsText(es.tail));
      }
    }
  }

  lemma Regrouped(a: Bytes, b: Bytes, c: Bytes, d: Bytes)
    ensures a + b + c + d == a + (b + c + d)
  {
  }

  lemma {:induction false} MembersAreBytes(ms: Members)
    ensures MembersText(ms) == MembersBytes(ms)
    decreases ms
  {
    hide JsonText, JsonBytes, TextOf, TextBytes;
    if ms.Members? {
      TextIsBytes(ms.head.key);
      JsonIsBytes(ms.head.value);
      MembersAreBytes(ms.tail);
    }
  }

  /** The printer of the trees writes what RFC 8259 says. */
  lemma DocumentIsBytes(d: Document)
    ensures DocumentText(d) == DocumentBytes(d)
  {
    MembersAreBytes(d.members);
  }

  // ----- What the helper asks for besides -----

  /** No surrogate stands alone, in keys or values. */
  predicate PairedJson(v: JsonValue) {
    match v
    case Text(ps) => Denotes(ps)
    case Array(_, es) => PairedElements(es)
    case Object(_, ms) => PairedMembers(ms)
    case _ => true
  }

  predicate PairedElements(es: Elements) {
    es.Elements? ==> PairedJson(es.head.value) && PairedElements(es.tail)
  }

  predicate PairedMembers(ms: Members)
    ensures PairedMembers(ms) ==> KeysOk(ms)
  {
    ms.Members? ==> Denotes(ms.head.key) && PairedJson(ms.head.value) && PairedMembers(ms.tail)
  }

  /** No object repeats a key, however it is spelled. */
  predicate DistinctJson(v: JsonValue)
    requires PairedJson(v)
  {
    match v
    case Array(_, es) => DistinctElements(es)
    case Object(_, ms) => DistinctMembers(ms)
    case _ => true
  }

  predicate DistinctElements(es: Elements)
    requires PairedElements(es)
  {
    es.Elements? ==> DistinctJson(es.head.value) && DistinctElements(es.tail)
  }

  predicate DistinctMembers(ms: Members)
    requires PairedMembers(ms)
  {
    ms.Members? ==>
      Decoded(ms.head.key) !in Keys(ms.tail) && DistinctJson(ms.head.value) && DistinctMembers(ms.tail)
  }

  // ----- Acceptance -----

  lemma {:induction false} WsOkIff(w: Bytes)
    ensures WsOk(w) <==> WsIn(w, true)
  {
    if w != [] {
      WsOkIff(w[1..]);
    }
  }

  lemma FieldInIff(field: Bytes)
    ensures FieldIn(field, true) <==> FieldValue(field).Some?
  {
  }

  lemma PieceOkIff(p: Piece)
    ensures PieceOk(p) <==> PieceIn(p, true) && PieceValue(p).Some?
  {
    hide FieldIn, FieldValue;
    match p
    case Literal(_) =>
    case Short(letter) =>
      ShortIsValue(letter);
    case Unicode(field) =>
      FieldInIff(field);
    case Pair(high, low) =>
      FieldInIff(high);
      FieldInIff(low);
  }

  lemma {:induction false} TextOkIff(ps: Pieces)
    ensures TextOk(ps) <==> TextIn(ps, true) && Denotes(ps)
  {
    hide PieceOk, PieceIn, PieceValue;
    if ps.Pieces? {
      PieceOkIff(ps.head);
      TextOkIff(ps.tail);
    }
  }

  lemma {:induction false} DigitsInIff(s: Bytes)
    ensures DigitsIn(s) <==> forall i | 0 <= i < |s| :: IsDigit(s[i])
  {
    if s != [] {
      DigitsInIff(s[1..]);
      assert forall i :: 1 <= i < |s| ==> s[i] == s[1..][i - 1];
    }
  }

  lemma NumberOkIff(n: Number)
    ensures NumberOk(n) <==> NumberIn(n)
  {
    DigitsInIff(n.whole);
    if n.fraction.Some? {
      DigitsInIff(n.fraction.value);
    }
    if n.exponent.Some? {
      DigitsInIff(n.exponent.value.digits);
    }
    hide DigitsIn;
  }

  lemma {:induction false} JsonOkIff(v: JsonValue)
    ensures JsonOk(v) <==> JsonIn(v, true) && PairedJson(v) && DistinctJson(v)
    decreases v
  {
    hide TextOk, TextIn, Denotes, WsOk, WsIn, NumberOk, NumberIn, ElementsOk, ElementsIn, MembersOk, MembersIn;
    match v
    case Text(ps) => TextOkIff(ps);
    case Numeral(n) => NumberOkIff(n);
    case Array(gap, es) =>
      WsOkIff(gap);
      ElementsOkIff(es);
    case Object(gap, ms) =>
      WsOkIff(gap);
      MembersOkIff(ms);
    case _ =>
  }

  lemma {:induction false} ElementsOkIff(es: Elements)
    ensures ElementsOk(es) <==> ElementsIn(es, true) && PairedElements(es) && DistinctElements(es)
    decreases es
  {
    hide WsOk, WsIn, JsonOk, JsonIn, PairedJson, DistinctJson;
    if es.Elements? {
      JsonOkIff(es.head.value);
      WsOkIff(es.head.after);
      WsOkIff(es.gap);
      ElementsOkIff(es.tail);
    }
  }

  lemma {:induction false} MembersOkIff(ms: Members)
    ensures MembersOk(ms) <==> MembersIn(ms, true) && PairedMembers(ms) && DistinctMembers(ms)
    decreases ms
  {
    hide WsOk, WsIn, JsonOk, JsonIn, PairedJson, DistinctJson, TextOk, TextIn, Denotes, Decoded;
    if ms.Members? {
      var m := ms.head;
      TextOkIff(m.key);
      JsonOkIff(m.value);
      WsOkIff(m.beforeColon);
      WsOkIff(m.afterColon);
      WsOkIff(m.after);
      WsOkIff(ms.gap);
      MembersOkIff(ms.tail);
    }
  }

  /** Member values nest to depth 64, no surrogate stands alone, and no object repeats a key. */
  predicate WithinLimits(d: Document) {
    MembersHeight(d.members) <= DEPTH_LIMIT && PairedMembers(d.members) && DistinctMembers(d.members)
  }

  /** The trees that the helper accepts are those of the extended grammar within its limits. */
  lemma AcceptedGrammar(d: Document)
    ensures DocumentOk(d) <==> DocumentIn(d, true) && WithinLimits(d)
  {
    hide WsOk, WsIn, MembersOk, MembersIn;
    WsOkIff(d.lead);
    WsOkIff(d.gap);
    WsOkIff(d.trail);
    MembersOkIff(d.members);
  }

  lemma {:induction false} WsWidens(w: Bytes)
    requires WsIn(w, false)
    ensures WsIn(w, true)
  {
    if w != [] {
      WsWidens(w[1..]);
    }
  }

  lemma {:induction false} TextWidens(ps: Pieces)
    requires TextIn(ps, false)
    ensures TextIn(ps, true)
  {
    if ps.Pieces? {
      TextWidens(ps.tail);
    }
  }

  lemma {:induction false} JsonWidens(v: JsonValue)
    requires JsonIn(v, false)
    ensures JsonIn(v, true)
    decreases v
  {
    hide WsIn, TextIn;
    match v
    case Text(ps) => TextWidens(ps);
    case Array(gap, es) =>
      WsWidens(gap);
      ElementsWiden(es);
    case Object(gap, ms) =>
      WsWidens(gap);
      MembersWiden(ms);
    case _ =>
  }

  lemma {:induction false} ElementsWiden(es: Elements)
    requires ElementsIn(es, false)
    ensures ElementsIn(es, true)
    decreases es
  {
    hide WsIn, JsonIn;
    if es.Elements? {
      JsonWidens(es.head.value);
      WsWidens(es.head.after);
      WsWidens(es.gap);
      ElementsWiden(es.tail);
    }
  }

  lemma {:induction false} MembersWiden(ms: Members)
    requires MembersIn(ms, false)
    ensures MembersIn(ms, true)
    decreases ms
  {
    hide WsIn, JsonIn, TextIn;
    if ms.Members? {
      TextWidens(ms.head.key);
      JsonWidens(ms.head.value);
      WsWidens(ms.head.beforeColon);
      WsWidens(ms.head.afterColon);
      WsWidens(ms.head.after);
      WsWidens(ms.gap);
      MembersWiden(ms.tail);
    }
  }

  lemma DocumentWidens(d: Document)
    requires DocumentIn(d, false)
    ensures DocumentIn(d, true)
  {
    hide WsIn, MembersIn;
    WsWidens(d.lead);
    WsWidens(d.gap);
    WsWidens(d.trail);
    MembersWiden(d.members);
  }

  /** An object text of RFC 8259 is accepted, with this tree, exactly when it is within the helper's limits. */
  lemma RfcTextsAreAccepted(d: Document)
    requires DocumentIn(d, false)
    ensures ReadDocument(DocumentText(d)) == Done(d, |DocumentText(d)|) <==> WithinLimits(d)
  {
    hide DocumentBytes, DocumentText, ReadDocument, DocumentOk, DocumentIn, WithinLimits;
    DocumentIsBytes(d);
    DocumentWidens(d);
    AcceptedGrammar(d);
    AcceptedIffPrinted(DocumentBytes(d), d);
  }

  /** A text has one accepted tree. */
  lemma AcceptedTextHasOneTree(d: Document, e: Document)
    requires DocumentOk(d) && DocumentOk(e) && DocumentBytes(d) == DocumentBytes(e)
    ensures d == e
  {
    hide DocumentBytes, ReadDocument, DocumentOk;
    DocumentComplete(d);
    DocumentComplete(e);
  }

  // ----- Every character can be escaped -----

  function HexByte(v: nat): (b: Byte)
    requires v < 16
    ensures HexDigit(b) == Some(v)
  {
    if v < 10 then 0x30 + v else 0x61 + v - 10
  }

  /** The four hexadecimal digits of a \u escape. */
  function HexField(v: nat): (f: Bytes)
    requires v < 0x10000
    ensures FieldValue(f) == Some(v)
  {
    var q1, q2, q3 := v / 0x10, v / 0x10 / 0x10, v / 0x10 / 0x10 / 0x10;
    FieldOf(q3, q2 % 0x10, q1 % 0x10, v % 0x10);
    [HexByte(q3), HexByte(q2 % 0x10), HexByte(q1 % 0x10), HexByte(v % 0x10)]
  }

  lemma FieldOf(a: nat, b: nat, c: nat, d: nat)
    requires a < 16 && b < 16 && c < 16 && d < 16
    ensures FieldValue([HexByte(a), HexByte(b), HexByte(c), HexByte(d)]) ==
            Some(((a * 0x10 + b) * 0x10 + c) * 0x10 + d)
  {
    hide HexByte;
    assert HexDigit(PLUS) == None;
  }

  /** The \u spelling of a character: one escape, or a surrogate pair past 0xffff. */
  function Escaped(c: Scalar): Piece {
    if c < 0x10000 then Unicode(HexField(c))
    else Pair(HexField(0xd800 + (c - 0x10000) / 0x400), HexField(0xdc00 + (c - 0x10000) % 0x400))
  }

  /** The surrogate arithmetic of the decoder inverts the one of RFC 8259, section 7. */
  lemma EscapedStandsForItself(c: Scalar)
    ensures PieceOk(Escaped(c)) && PieceValue(Escaped(c)) == Some(c)
  {
  }

  function AllEscaped(cs: seq<Scalar>): Pieces {
    if cs == [] then NoPieces else Pieces(Escaped(cs[0]), AllEscaped(cs[1..]))
  }

  /** So any text at all survives being escaped, quoted and read. */
  lemma {:induction false} EscapedTextIsReadBack(cs: seq<Scalar>)
    ensures TextOk(AllEscaped(cs)) && Decoded(AllEscaped(cs)) == cs
    ensures ReadString(Quoted(AllEscaped(cs)), 0) == Done(AllEscaped(cs), |Quoted(AllEscaped(cs))|)
  {
    hide ReadString, Escaped, PieceOk, PieceValue;
    EscapedDecodes(cs);
    var s := Quoted(AllEscaped(cs));
    HoldsSlice(s, 0, |s|);
    assert s[0..|s|] == s;
    StringComplete(s, 0, AllEscaped(cs));
  }

  lemma {:induction false} EscapedDecodes(cs: seq<Scalar>)
    ensures TextOk(AllEscaped(cs)) && Decoded(AllEscaped(cs)) == cs
  {
    hide Escaped;
    if cs != [] {
      EscapedDecodes(cs[1..]);
      EscapedStandsForItself(cs[0]);
    }
  }
}
