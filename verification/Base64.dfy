/**
  The wrapped base64 encoder of build.rs, against the decoding rules of RFC 4648
  section 4 and the line limit of RFC 2045 section 6.8.
 */
module Base64 {
  import opened Outcomes
  import opened Utf8

  const UPPER: string := "ABCDEFGHIJKLMNOPQRSTUVWXYZ"
  const LOWER: string := "abcdefghijklmnopqrstuvwxyz"
  const DIGITS: string := "0123456789"
  const TABLE: string := UPPER + LOWER + DIGITS + "+/"
  const LINE := 76

  type Sextet = v: int | 0 <= v < 64

  function Letter(v: Sextet): char {
    assert |TABLE| == 64;
    TABLE[v]
  }

  // ----- The reference decoder -----

  /** The alphabet of RFC 4648 section 4. */
  function SextetOf(c: char): Option<Sextet> {
    if 'A' <= c <= 'Z' then Some(c as int - 'A' as int)
    else if 'a' <= c <= 'z' then Some(c as int - 'a' as int + 26)
    else if '0' <= c <= '9' then Some(c as int - '0' as int + 52)
    else if c == '+' then Some(62)
    else if c == '/' then Some(63)
    else None
  }

  /** Four letters, of which padding may replace the last one or two; left-over bits must be zero. */
  function DecodeGroup(g: string): Option<Bytes>
    requires |g| == 4
  {
    var a, b, c, d := SextetOf(g[0]), SextetOf(g[1]), SextetOf(g[2]), SextetOf(g[3]);
    if a.None? || b.None? then None
    else if g[2] == '=' then
      if g[3] == '=' && b.value % 16 == 0 then Some([a.value * 4 + b.value / 16]) else None
    else if c.None? then None
    else if g[3] == '=' then
      if c.value % 4 == 0 then Some([a.value * 4 + b.value / 16, b.value % 16 * 16 + c.value / 4]) else None
    else if d.None? then None
    else Some([a.value * 4 + b.value / 16, b.value % 16 * 16 + c.value / 4, c.value % 4 * 64 + d.value])
  }

  /** Groups of four; only the last may be padded. */
  function Decode(s: string): Option<Bytes> {
    if s == "" then Some([])
    else if |s| < 4 then None
    else
      var group, rest := DecodeGroup(s[..4]), Decode(s[4..]);
      if group.None? || rest.None? || (|group.value| < 3 && rest.value != []) then
        None
      else
        Some(group.value + rest.value)
  }

  function WithoutNewlines(s: string): string {
    if s == "" then "" else (if s[0] == '\n' then "" else [s[0]]) + WithoutNewlines(s[1..])
  }

  // ----- The encoder's meaning -----

  function ByteAt(chunk: Bytes, i: nat): int {
    if i < |chunk| then chunk[i] else 0
  }

  function Bits(chunk: Bytes): int {
    ByteAt(chunk, 0) * 0x1_0000 + ByteAt(chunk, 1) * 0x100 + ByteAt(chunk, 2)
  }

  /** The four letters of one to three bytes, by the shifts and masks of the source. */
  function Group(chunk: Bytes): (g: string)
    requires 1 <= |chunk| <= 3
    ensures |g| == 4
  {
    var value := Bits(chunk);
    [ Letter(value / 0x4_0000 % 64),
      Letter(value / 0x1000 % 64),
      if |chunk| > 1 then Letter(value / 0x40 % 64) else '=',
      if |chunk| > 2 then Letter(value % 64) else '=' ]
  }

  function ChunkSize(n: nat): nat {
    if n < 3 then n else 3
  }

  function Encoded(bytes: Bytes): string {
    if bytes == [] then "" else
      var n := ChunkSize(|bytes|);
      Group(bytes[..n]) + Encoded(bytes[n..])
  }

  function Lines(s: string): seq<string> {
    if s == "" then [] else if |s| <= LINE then [s] else [s[..LINE]] + Lines(s[LINE..])
  }

  function Join(lines: seq<string>): string {
    if lines == [] then "" else if |lines| == 1 then lines[0] else lines[0] + "\n" + Join(lines[1..])
  }

  /** The first group is that of the first chunk. */
  lemma EncodedChunk(chunk: Bytes, rest: Bytes)
    requires 1 <= |chunk| <= 3 && (|chunk| < 3 ==> rest == [])
    ensures Encoded(chunk + rest) == Group(chunk) + Encoded(rest)
  {
    hide Group;
    assert (chunk + rest)[..|chunk|] == chunk && (chunk + rest)[|chunk|..] == rest;
  }

  lemma Shift(a: string, b: string, c: string)
    ensures a + (b + c) == (a + b) + c
  {
  }

  /** The four characters of a group, one by one. */
  lemma GroupStep(chunk: Bytes, output: string)
    requires 1 <= |chunk| <= 3
    ensures var value := Bits(chunk);
            var first := output + [Letter(value / 0x4_0000 % 64)] + [Letter(value / 0x1000 % 64)];
            var third := [if |chunk| > 1 then Letter(value / 0x40 % 64) else '='];
            first + third + [if |chunk| > 2 then Letter(value % 64) else '='] == output + Group(chunk)
  {
    hide Letter, Bits;
  }

  lemma AllIsLeft(bytes: Bytes)
    ensures "" + Encoded(bytes[0..]) == Encoded(bytes)
  {
    hide Encoded;
    assert bytes[0..] == bytes;
  }

  lemma NothingIsLeft(bytes: Bytes, output: string)
    ensures output + Encoded(bytes[|bytes|..]) == output
  {
  }

  lemma BitsAre(chunk: Bytes)
    ensures Bits(chunk) == ByteAt(chunk, 0) * 0x1_0000 + ByteAt(chunk, 1) * 0x100 + ByteAt(chunk, 2)
  {
  }

  /** `encode_base64` */
  method EncodeBase64(bytes: Bytes) returns (text: string)
    ensures text == Join(Lines(Encoded(bytes))) + "\n"
  {
    hide Letter, Join, Lines, Group, Encoded, Bits;
    var output := "";
    var at := 0;
    AllIsLeft(bytes);
    while at < |bytes|
      invariant at <= |bytes|
      invariant output + Encoded(bytes[at..]) == Encoded(bytes)
    {
      var n := ChunkSize(|bytes| - at);
      var chunk := bytes[at..at + n];
      assert bytes[at..] == chunk + bytes[at + n..];
      EncodedChunk(chunk, bytes[at + n..]);
      Shift(output, Group(chunk), Encoded(bytes[at + n..]));
      GroupStep(chunk, output);
      BitsAre(chunk);
      var value: int := ByteAt(chunk, 0) * 0x1_0000 + ByteAt(chunk, 1) * 0x100 + ByteAt(chunk, 2);
      output := output + [Letter(value / 0x4_0000 % 64)];
      output := output + [Letter(value / 0x1000 % 64)];
      output := output + [if |chunk| > 1 then Letter(value / 0x40 % 64) else '='];
      output := output + [if |chunk| > 2 then Letter(value % 64) else '='];
      at := at + n;
    }
    NothingIsLeft(bytes, output);
    return Join(Lines(output)) + "\n";
  }

  // ----- Round trip -----

  lemma UpperLetters(v: nat)
    requires v < 26
    ensures |UPPER| == 26 && UPPER[v] as int == 'A' as int + v
  {
  }

  lemma LowerLetters(v: nat)
    requires v < 26
    ensures |LOWER| == 26 && LOWER[v] as int == 'a' as int + v
  {
  }

  lemma LetterIsAlphabet(v: Sextet)
    ensures SextetOf(Letter(v)) == Some(v) && Letter(v) != '=' && Letter(v) != '\n'
  {
    if v < 26 {
      UpperLetters(v);
      assert TABLE[v] == UPPER[v];
    } else if v < 52 {
      LowerLetters(v - 26);
      assert TABLE[v] == LOWER[v - 26];
    } else if v < 62 {
      assert TABLE[v] == DIGITS[v - 52];
    }
  }

  /** Where the bits of three bytes go, and that they come back. */
  lemma BitsRoundTrip(x: Byte, y: Byte, z: Byte)
    ensures var value: int := x * 0x1_0000 + y * 0x100 + z;
            var a, b, c, d := value / 0x4_0000 % 64, value / 0x1000 % 64, value / 0x40 % 64, value % 64;
            && a == x / 4 && b == x % 4 * 16 + y / 16 && c == y % 16 * 4 + z / 64 && d == z % 64
            && x == a * 4 + b / 16 && y == b % 16 * 16 + c / 4 && z == c % 4 * 64 + d
            && (y == 0 ==> b % 16 == 0) && (z == 0 ==> c % 4 == 0)
  {
    var value: int := x * 0x1_0000 + y * 0x100 + z;
    var low := x / 4 * 64 + (x % 4 * 16 + y / 16);
    var high := low * 64 + (y % 16 * 4 + z / 64);
    Quotient(value, high, z % 64);
    Quotient(high, low, y % 16 * 4 + z / 64);
    Quotient(low, x / 4, x % 4 * 16 + y / 16);
    assert value / 0x40 == high && value / 0x1000 == high / 64 && value / 0x4_0000 == low / 64;
  }

  lemma Quotient(value: int, quotient: int, rest: int)
    requires value == quotient * 64 + rest && 0 <= rest < 64
    ensures value / 64 == quotient && value % 64 == rest
  {
  }

  lemma GroupRoundTrip(chunk: Bytes)
    requires 1 <= |chunk| <= 3
    ensures DecodeGroup(Group(chunk)) == Some(chunk)
  {
    hide Letter, SextetOf, DecodeGroup;
    var value := Bits(chunk);
    BitsRoundTrip(ByteAt(chunk, 0), ByteAt(chunk, 1), ByteAt(chunk, 2));
    var a, b, c, d := value / 0x4_0000 % 64, value / 0x1000 % 64, value / 0x40 % 64, value % 64;
    LettersDecode(a, b, c, d);
    if |chunk| == 1 {
      assert chunk == [chunk[0]];
      assert Group(chunk) == [Letter(a), Letter(b), '=', '='];
    } else if |chunk| == 2 {
      assert chunk == [chunk[0], chunk[1]];
      assert Group(chunk) == [Letter(a), Letter(b), Letter(c), '='];
    } else {
      assert chunk == [chunk[0], chunk[1], chunk[2]];
      assert Group(chunk) == [Letter(a), Letter(b), Letter(c), Letter(d)];
    }
  }

  /** Two, three or four letters and padding. */
  lemma LettersDecode(a: Sextet, b: Sextet, c: Sextet, d: Sextet)
    ensures DecodeGroup([Letter(a), Letter(b), Letter(c), Letter(d)])
         == Some([a * 4 + b / 16, b % 16 * 16 + c / 4, c % 4 * 64 + d])
    ensures c % 4 == 0 ==>
      DecodeGroup([Letter(a), Letter(b), Letter(c), '=']) == Some([a * 4 + b / 16, b % 16 * 16 + c / 4])
    ensures b % 16 == 0 ==> DecodeGroup([Letter(a), Letter(b), '=', '=']) == Some([a * 4 + b / 16])
  {
    hide Letter, SextetOf;
    LetterIsAlphabet(a);
    LetterIsAlphabet(b);
    LetterIsAlphabet(c);
    LetterIsAlphabet(d);
  }

  lemma GroupHasNoNewline(chunk: Bytes)
    requires 1 <= |chunk| <= 3
    ensures WithoutNewlines(Group(chunk)) == Group(chunk)
  {
    hide Letter, SextetOf;
    var value := Bits(chunk);
    LetterIsAlphabet(value / 0x4_0000 % 64);
    LetterIsAlphabet(value / 0x1000 % 64);
    LetterIsAlphabet(value / 0x40 % 64);
    LetterIsAlphabet(value % 64);
    hide Bits;
    NoNewlines(Group(chunk));
  }

  lemma DecodeFirst(g: string, rest: string)
    requires |g| == 4 && DecodeGroup(g).Some? && Decode(rest).Some?
    requires |DecodeGroup(g).value| == 3 || Decode(rest).value == []
    ensures Decode(g + rest) == Some(DecodeGroup(g).value + Decode(rest).value)
  {
    hide DecodeGroup;
    assert (g + rest)[..4] == g && (g + rest)[4..] == rest;
  }

  /** Decoding what was encoded gives the bytes back. */
  lemma {:induction false} RoundTrip(bytes: Bytes)
    ensures Decode(Encoded(bytes)) == Some(bytes)
  {
    if bytes != [] {
      var n := ChunkSize(|bytes|);
      GroupRoundTrip(bytes[..n]);
      RoundTrip(bytes[n..]);
      DecodeFirst(Group(bytes[..n]), Encoded(bytes[n..]));
      hide DecodeGroup, Group, Decode;
      assert bytes == bytes[..n] + bytes[n..];
    }
  }

  lemma {:induction false} EncodedLength(bytes: Bytes)
    ensures |Encoded(bytes)| == 4 * ((|bytes| + 2) / 3)
  {
    hide Group;
    if bytes != [] {
      EncodedLength(bytes[ChunkSize(|bytes|)..]);
    }
  }

  lemma {:induction false} EncodedHasNoNewline(bytes: Bytes)
    ensures WithoutNewlines(Encoded(bytes)) == Encoded(bytes)
  {
    if bytes != [] {
      var n := ChunkSize(|bytes|);
      GroupHasNoNewline(bytes[..n]);
      hide Group;
      EncodedHasNoNewline(bytes[n..]);
      NewlinesOfParts(Group(bytes[..n]), Encoded(bytes[n..]));
    }
  }

  lemma FirstCharacter(c: char, rest: string)
    ensures WithoutNewlines([c] + rest) == (if c == '\n' then "" else [c]) + WithoutNewlines(rest)
  {
    assert ([c] + rest)[1..] == rest;
  }

  lemma {:induction false} NewlinesOfParts(a: string, b: string)
    ensures WithoutNewlines(a + b) == WithoutNewlines(a) + WithoutNewlines(b)
  {
    if a == "" {
      assert a + b == b;
    } else {
      NewlinesOfParts(a[1..], b);
      FirstCharacter(a[0], a[1..] + b);
      FirstCharacter(a[0], a[1..]);
      hide WithoutNewlines;
      assert a + b == [a[0]] + (a[1..] + b) && a == [a[0]] + a[1..];
    }
  }

  lemma {:induction false} NoNewlines(a: string)
    requires forall k :: 0 <= k < |a| ==> a[k] != '\n'
    ensures WithoutNewlines(a) == a
  {
    if a != "" {
      NoNewlines(a[1..]);
    }
  }

  /** Wrapping adds newlines and nothing else. */
  lemma {:induction false} WrappingIsReversible(s: string)
    ensures WithoutNewlines(Join(Lines(s)) + "\n") == WithoutNewlines(s)
  {
    NewlinesOfParts(Join(Lines(s)), "\n");
    JoinedLines(s);
  }

  lemma {:induction false} JoinedLines(s: string)
    ensures WithoutNewlines(Join(Lines(s))) == WithoutNewlines(s)
  {
    if |s| > LINE {
      hide WithoutNewlines;
      var head, rest := s[..LINE], s[LINE..];
      JoinedLines(rest);
      JoinOfMore(head, rest);
      NewlinesOfParts(head, "\n" + Join(Lines(rest)));
      NewlineVanishes(Join(Lines(rest)));
      NewlinesOfParts(head, rest);
      assert s == head + rest;
    }
  }

  lemma JoinOfMore(head: string, rest: string)
    requires |head| == LINE && rest != ""
    ensures Join(Lines(head + rest)) == head + ("\n" + Join(Lines(rest)))
  {
    assert (head + rest)[..LINE] == head && (head + rest)[LINE..] == rest;
    assert Lines(head + rest) == [head] + Lines(rest) && ([head] + Lines(rest))[1..] == Lines(rest);
    hide Lines;
    Shift(head, "\n", Join(Lines(rest)));
  }

  lemma NewlineVanishes(s: string)
    ensures WithoutNewlines("\n" + s) == WithoutNewlines(s)
  {
    assert ("\n" + s)[1..] == s;
  }

  /** How many lines there are, how long they are, and how long they are together. */
  lemma {:induction false} LineLengths(s: string)
    ensures var lines := Lines(s);
            && |lines| == (|s| + LINE - 1) / LINE
            && (forall k :: 0 <= k < |lines| - 1 ==> |lines[k]| == LINE)
            && (lines != [] ==> 1 <= |lines[|lines| - 1]| <= LINE)
            && |Join(lines)| == |s| + if lines == [] then 0 else |lines| - 1
  {
    if |s| > LINE {
      LineLengths(s[LINE..]);
      assert Lines(s)[1..] == Lines(s[LINE..]);
    }
  }

  function AtLeastOne(n: nat): nat {
    if n == 0 then 1 else n
  }

  /** The text for any bytes: it decodes to them once newlines are gone, and its length is known. */
  lemma WrappedRoundTrip(bytes: Bytes)
    ensures var text := Join(Lines(Encoded(bytes))) + "\n";
            && Decode(WithoutNewlines(text)) == Some(bytes)
            && var letters := 4 * ((|bytes| + 2) / 3);
               |text| == letters + AtLeastOne((letters + LINE - 1) / LINE)
  {
    hide Decode, Encoded, Lines, Join, WithoutNewlines;
    RoundTrip(bytes);
    EncodedLength(bytes);
    EncodedHasNoNewline(bytes);
    WrappingIsReversible(Encoded(bytes));
    LineLengths(Encoded(bytes));
  }
}
