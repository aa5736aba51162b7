/**
  Bytes, Unicode scalar values and the UTF-8 encoding that Rust's `str` relies on.
  Rust accepts exactly the shortest-form encodings of scalar values.
 */
module Utf8 {
  import opened Outcomes

  type Byte = b: int | 0 <= b < 0x100
  type Bytes = seq<Byte>
  type Scalar = c: int | 0 <= c < 0xd800 || 0xe000 <= c < 0x110000

  function Encode(c: Scalar): (s: Bytes)
    ensures 1 <= |s| <= 4
  {
    var q := c / 0x40;
    var p := q / 0x40;
    if c < 0x80 then [c]
    else if c < 0x800 then [0xc0 + q, 0x80 + c % 0x40]
    else if c < 0x10000 then [0xe0 + p, 0x80 + q % 0x40, 0x80 + c % 0x40]
    else [0xf0 + p / 0x40, 0x80 + p % 0x40, 0x80 + q % 0x40, 0x80 + c % 0x40]
  }

  predicate Continuation(b: Byte) {
    0x80 <= b < 0xc0
  }

  /** Appends the six bits of a continuation byte. */
  function Push(bits: int, b: int): int {
    bits * 0x40 + (b - 0x80)
  }

  /** The first character of `s`, unless `s` starts with something that is not UTF-8. */
  function First(s: Bytes): Option<Scalar> {
    if |s| >= 1 && s[0] < 0x80 then
      Some(s[0])
    else if |s| >= 2 && 0xc0 <= s[0] < 0xe0 && Continuation(s[1]) then
      var c := Push(s[0] - 0xc0, s[1]);
      if c < 0x80 then None else Some(c)
    else if |s| >= 3 && 0xe0 <= s[0] < 0xf0 && Continuation(s[1]) && Continuation(s[2]) then
      var c := Push(Push(s[0] - 0xe0, s[1]), s[2]);
      if c < 0x800 || 0xd800 <= c < 0xe000 then None else Some(c)
    else if |s| >= 4 && 0xf0 <= s[0] < 0xf8
            && Continuation(s[1]) && Continuation(s[2]) && Continuation(s[3]) then
      var c := Push(Push(Push(s[0] - 0xf0, s[1]), s[2]), s[3]);
      if c < 0x10000 || 0x110000 <= c then None else Some(c)
    else
      None
  }

  lemma SplitPush(bits: nat, b: Byte)
    requires Continuation(b)
    ensures Push(bits, b) / 0x40 == bits && Push(bits, b) % 0x40 == b - 0x80
  {
  }

  lemma PushSplit(c: nat)
    ensures Push(c / 0x40, 0x80 + c % 0x40) == c
  {
  }

  /** Decoding inverts encoding, whatever bytes follow. */
  lemma FirstOfEncoded(c: Scalar, rest: Bytes)
    ensures First(Encode(c) + rest) == Some(c)
  {
    PushSplit(c);
    PushSplit(c / 0x40);
    PushSplit(c / 0x40 / 0x40);
  }

  /** Encoding inverts decoding: only the shortest form of a character is accepted. */
  lemma EncodedFirst(s: Bytes)
    requires First(s).Some?
    ensures |Encode(First(s).value)| <= |s| && s[..|Encode(First(s).value)|] == Encode(First(s).value)
  {
    if s[0] < 0x80 {
    } else if s[0] < 0xe0 {
      SplitPush(s[0] - 0xc0, s[1]);
    } else if s[0] < 0xf0 {
      SplitPush(s[0] - 0xe0, s[1]);
      SplitPush(Push(s[0] - 0xe0, s[1]), s[2]);
    } else {
      SplitPush(s[0] - 0xf0, s[1]);
      SplitPush(Push(s[0] - 0xf0, s[1]), s[2]);
      SplitPush(Push(Push(s[0] - 0xf0, s[1]), s[2]), s[3]);
    }
  }

  /** Bytes past 0x7f only occur inside multi-byte characters, and all their bytes are past 0x7f. */
  lemma EncodedBytes(c: Scalar)
    ensures c < 0x80 ==> Encode(c) == [c]
    ensures 0x80 <= c ==> forall i | 0 <= i < |Encode(c)| :: 0x80 <= Encode(c)[i]
  {
  }

  /** `std::str::from_utf8(s).is_ok()` */
  predicate Valid(s: Bytes) {
    s == [] ||
    (First(s).Some? && var n := |Encode(First(s).value)|; n <= |s| && Valid(s[n..]))
  }

  lemma ValidCons(c: Scalar, rest: Bytes)
    requires Valid(rest)
    ensures Valid(Encode(c) + rest)
  {
    FirstOfEncoded(c, rest);
    assert (Encode(c) + rest)[|Encode(c)|..] == rest;
  }
}
