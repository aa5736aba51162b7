/**
  Strings: the closing quote is found, and decoding inverts every legal way of
  escaping a text (section 7 of RFC 8259).
 */
module JsonStrings {
  import opened Outcomes
  import opened Utf8
  import opened JsonGrammar
  import opened JsonParser

  // ----- Pieces of a text -----

  lemma {:induction false} HoldsAppend(s: Bytes, i: nat, a: Bytes, b: Bytes)
    ensures Holds(s, i, a + b) <==> Holds(s, i, a) && Holds(s, i + |a|, b)
    decreases |a|
  {
    if a == [] {
      assert a + b == b;
    } else {
      assert (a + b)[1..] == a[1..] + b;
      HoldsAppend(s, i + 1, a[1..], b);
    }
  }

  lemma HoldsByte(s: Bytes, i: nat, b: Byte)
    ensures Holds(s, i, [b]) <==> At(s, i, b)
  {
    assert Holds(s, i + 1, []);
    assert [b][1..] == [];
  }

  lemma {:induction false} HoldsSlice(s: Bytes, i: nat, j: nat)
    requires i <= j <= |s|
    ensures Holds(s, i, s[i..j])
    decreases j - i
  {
    if i < j {
      assert s[i..j][1..] == s[i + 1..j];
      HoldsSlice(s, i + 1, j);
    }
  }

  lemma {:induction false} SliceHeld(s: Bytes, i: nat, b: Bytes)
    requires Holds(s, i, b) && i <= |s|
    ensures i + |b| <= |s| && s[i..i + |b|] == b
    decreases |b|
  {
    if b != [] {
      SliceHeld(s, i + 1, b[1..]);
      assert s[i..i + |b|] == [s[i]] + s[i + 1..i + |b|];
    }
  }

  lemma {:induction false} HoldsAt(s: Bytes, i: nat, b: Bytes, k: nat)
    requires Holds(s, i, b) && k < |b|
    ensures At(s, i + k, b[k])
    decreases |b|
  {
    if k > 0 {
      HoldsAt(s, i + 1, b[1..], k - 1);
    }
  }

  /** The same bytes elsewhere, in a slice that starts at `start` and ends at `end`. */
  lemma {:induction false} HoldsInSlice(s: Bytes, start: nat, end: nat, i: nat, b: Bytes)
    requires start <= i && i + |b| <= end <= |s|
    ensures Holds(s, i, b) <==> Holds(s[start..end], i - start, b)
    decreases |b|
  {
    if b != [] {
      HoldsInSlice(s, start, end, i + 1, b[1..]);
    }
  }

  // ----- White space -----

  lemma WsSlice(s: Bytes, i: nat)
    requires i <= |s|
    ensures WsOk(s[i..WsEnd(s, i)])
    decreases |s| - i
  {
    var e := WsEnd(s, i);
    if i < e {
      WsSlice(s, i + 1);
      assert s[i..e][1..] == s[i + 1..e];
    }
  }

  lemma {:induction false} WsEndUnique(s: Bytes, i: nat, w: Bytes)
    requires WsOk(w) && Holds(s, i, w) && i <= |s|
    requires i + |w| < |s| ==> !IsWs(s[i + |w|])
    ensures WsEnd(s, i) == i + |w|
    decreases |w|
  {
    if w != [] {
      WsEndUnique(s, i + 1, w[1..]);
    }
  }

  // ----- Finding the closing quote -----

  lemma {:induction false} QuoteAfterBytes(s: Bytes, i: nat, w: Bytes)
    requires Holds(s, i, w) && forall k | 0 <= k < |w| :: 0x20 <= w[k] && w[k] != QUOTE && w[k] != BACKSLASH
    ensures QuoteAt(s, i) == QuoteAt(s, i + |w|)
    decreases |w|
  {
    if w != [] {
      QuoteAfterBytes(s, i + 1, w[1..]);
    }
  }

  /** The closing quote is never looked for inside a character. */
  lemma QuoteAfterPiece(s: Bytes, i: nat, p: Piece)
    requires PieceOk(p) && Holds(s, i, PieceBytes(p))
    ensures QuoteAt(s, i) == QuoteAt(s, i + |PieceBytes(p)|)
  {
    var b := PieceBytes(p);
    HoldsAt(s, i, b, 0);
    if p.Literal? {
      EncodedBytes(p.c);
      QuoteAfterBytes(s, i, b);
    } else {
      HoldsAt(s, i, b, 1);
      if p.Pair? {
        HoldsAt(s, i, b, 6);
        HoldsAt(s, i, b, 7);
      }
    }
  }

  // ----- One character -----

  lemma LiteralSound(b: Bytes, i: nat)
    requires i + 1 < |b| && Valid(b[i..|b| - 1])
    ensures var c := First(b[i..|b| - 1]).value; Holds(b, i, Encode(c)) && i + |Encode(c)| < |b|
  {
    var t := b[i..|b| - 1];
    var n := |Encode(First(t).value)|;
    EncodedFirst(t);
    assert b[i..i + n] == t[..n];
    HoldsSlice(b, i, i + n);
  }

  lemma ReadPieceSound(b: Bytes, i: nat, p: Piece)
    requires i + 1 < |b| && ReadPiece(b, i) == Ok(p)
    ensures Holds(b, i, PieceBytes(p)) && i + |PieceBytes(p)| <= |b|
  {
    hide First, FieldValue;
    match p
    case Literal(c) =>
      LiteralSound(b, i);
    case Short(letter) =>
      assert Holds(b, i + 1, [letter]);
      assert [BACKSLASH, letter][1..] == [letter];
    case Unicode(field) =>
      HoldsEscape(b, i, field);
    case Pair(high, low) =>
      HoldsEscape(b, i, high);
      HoldsEscape(b, i + 6, low);
      HoldsAppend(b, i, Escape(high), Escape(low));
  }

  lemma HoldsEscape(b: Bytes, i: nat, field: Bytes)
    requires |field| == 4
    ensures At(b, i, BACKSLASH) && At(b, i + 1, LOWER_U) && i + 6 <= |b| && b[i + 2..i + 6] == field
            <==> Holds(b, i, Escape(field))
  {
    HoldsAppend(b, i, [BACKSLASH, LOWER_U], field);
    assert [BACKSLASH, LOWER_U][1..] == [LOWER_U];
    if At(b, i, BACKSLASH) && At(b, i + 1, LOWER_U) && i + 6 <= |b| && b[i + 2..i + 6] == field {
      HoldsSlice(b, i + 2, i + 6);
    }
    if Holds(b, i, Escape(field)) {
      SliceHeld(b, i + 2, field);
    }
  }

  /** Bytes that begin with a character, and not with a backslash, are read as it. */
  lemma ReadLiteral(b: Bytes, i: nat, e: Bytes, c: Scalar)
    requires e != [] && e[0] != BACKSLASH && Holds(b, i, e) && i + |e| < |b| && Valid(b[i..|b| - 1])
    requires First(e + b[i + |e|..|b| - 1]) == Some(c)
    ensures ReadPiece(b, i) == Ok(Literal(c))
  {
    hide First;
    SliceHeld(b, i, e);
    assert b[i..|b| - 1] == e + b[i + |e|..|b| - 1];
    HoldsAt(b, i, e, 0);
  }

  lemma ReadPieceComplete(b: Bytes, i: nat, p: Piece)
    requires PieceOk(p) && Holds(b, i, PieceBytes(p)) && i + |PieceBytes(p)| < |b|
    requires Valid(b[i..|b| - 1])
    ensures ReadPiece(b, i) == Ok(p)
  {
    hide Encode, First, HexDigit;
    match p
    case Literal(c) =>
      FirstOfEncoded(c, b[i + |Encode(c)|..|b| - 1]);
      EncodedBytes(c);
      ReadLiteral(b, i, Encode(c), c);
    case Short(letter) =>
      HoldsAt(b, i, PieceBytes(p), 1);
    case Unicode(field) =>
      HoldsEscape(b, i, field);
    case Pair(high, low) =>
      HoldsAppend(b, i, Escape(high), Escape(low));
      HoldsEscape(b, i, high);
      HoldsEscape(b, i + 6, low);
  }

  // ----- Whole texts -----

  lemma {:induction false} AsciiValid(w: Bytes, rest: Bytes)
    requires Valid(rest) && forall i | 0 <= i < |w| :: w[i] < 0x80
    ensures Valid(w + rest)
  {
    if w == [] {
      assert w + rest == rest;
    } else {
      assert (w + rest)[1..] == w[1..] + rest && (w + rest)[0] == w[0];
      AsciiValid(w[1..], rest);
    }
  }

  lemma FieldAscii(field: Bytes)
    requires FieldValue(field).Some?
    ensures forall i | 0 <= i < |field| :: field[i] < 0x80
  {
  }

  lemma PieceValid(p: Piece, rest: Bytes)
    requires PieceOk(p) && Valid(rest)
    ensures Valid(PieceBytes(p) + rest)
  {
    match p
    case Literal(c) => ValidCons(c, rest);
    case Short(_) => AsciiValid(PieceBytes(p), rest);
    case Unicode(field) =>
      FieldAscii(field);
      AsciiValid(PieceBytes(p), rest);
    case Pair(high, low) =>
      FieldAscii(high);
      FieldAscii(low);
      AsciiValid(PieceBytes(p), rest);
  }

  /** An escaped text is UTF-8. */
  lemma {:induction false} TextValid(ps: Pieces)
    requires TextOk(ps)
    ensures Valid(TextBytes(ps))
  {
    hide PieceOk, PieceBytes;
    if ps.Pieces? {
      TextValid(ps.tail);
      PieceValid(ps.head, TextBytes(ps.tail));
    }
  }

  /** Whatever is between the opening quote and the quote at `n` is a legal escaping of the decoded text. */
  lemma {:induction false} PiecesSound(s: Bytes, i: nat, n: nat, start: nat, ps: Pieces)
    requires start < i && QuoteAt(s, i) == Ok(n) && ReadPieces(s[start..n + 1], i - start) == Ok(ps)
    ensures TextOk(ps) && Holds(s, i, TextBytes(ps)) && n == i + |TextBytes(ps)|
    decreases n - i
  {
    hide PieceOk, PieceBytes, ReadPiece;
    if i < n {
      FirstPieceSound(s, i, n, start, ps.head);
      var t := PieceBytes(ps.head);
      PiecesSound(s, i + |t|, n, start, ps.tail);
      HoldsAppend(s, i, t, TextBytes(ps.tail));
    }
  }

  lemma FirstPieceSound(s: Bytes, i: nat, n: nat, start: nat, p: Piece)
    requires start < i < n && QuoteAt(s, i) == Ok(n) && ReadPiece(s[start..n + 1], i - start) == Ok(p)
    ensures PieceOk(p) && Holds(s, i, PieceBytes(p)) && QuoteAt(s, i + |PieceBytes(p)|) == Ok(n)
  {
    hide PieceValue, First, Valid;
    ReadPieceSound(s[start..n + 1], i - start, p);
    HoldsInSlice(s, start, n + 1, i, PieceBytes(p));
    HoldsAt(s, i, PieceBytes(p), 0);
    EncodedOrEscaped(p);
    QuoteAfterPiece(s, i, p);
  }

  lemma EncodedOrEscaped(p: Piece)
    ensures match p
            case Literal(c) => (c < 0x80 ==> PieceBytes(p) == [c]) && (c >= 0x80 ==> PieceBytes(p)[0] >= 0x80)
            case _ => PieceBytes(p)[0] == BACKSLASH
  {
    if p.Literal? {
      EncodedBytes(p.c);
    }
  }

  lemma TextStep(s: Bytes, i: nat, ps: Pieces)
    requires ps.Pieces?
    ensures Holds(s, i, TextBytes(ps))
            <==> Holds(s, i, PieceBytes(ps.head)) && Holds(s, i + |PieceBytes(ps.head)|, TextBytes(ps.tail))
  {
    hide PieceBytes;
    HoldsAppend(s, i, PieceBytes(ps.head), TextBytes(ps.tail));
  }

  lemma QuoteAfterFirst(s: Bytes, i: nat, ps: Pieces)
    requires ps.Pieces? && TextOk(ps) && Holds(s, i, PieceBytes(ps.head))
    ensures QuoteAt(s, i) == QuoteAt(s, i + |PieceBytes(ps.head)|)
  {
    hide PieceOk, PieceBytes;
    QuoteAfterPiece(s, i, ps.head);
  }

  lemma {:induction false} QuoteComplete(s: Bytes, i: nat, ps: Pieces)
    requires TextOk(ps) && Holds(s, i, TextBytes(ps)) && At(s, i + |TextBytes(ps)|, QUOTE)
    ensures QuoteAt(s, i) == Ok(i + |TextBytes(ps)|)
    decreases ps
  {
    hide PieceOk, PieceBytes;
    if ps.Pieces? {
      TextStep(s, i, ps);
      QuoteAfterFirst(s, i, ps);
      QuoteComplete(s, i + |PieceBytes(ps.head)|, ps.tail);
    }
  }

  lemma FirstPieceComplete(b: Bytes, i: nat, ps: Pieces)
    requires ps.Pieces? && TextOk(ps) && Holds(b, i, TextBytes(ps)) && |b| == i + |TextBytes(ps)| + 1
    ensures ReadPiece(b, i) == Ok(ps.head)
  {
    hide PieceOk, PieceBytes, ReadPiece;
    TextStep(b, i, ps);
    SliceHeld(b, i, TextBytes(ps));
    TextValid(ps);
    ReadPieceComplete(b, i, ps.head);
  }

  lemma {:induction false} PiecesComplete(b: Bytes, i: nat, ps: Pieces)
    requires TextOk(ps) && Holds(b, i, TextBytes(ps)) && |b| == i + |TextBytes(ps)| + 1
    ensures ReadPieces(b, i) == Ok(ps)
    decreases ps
  {
    hide PieceOk, PieceBytes, ReadPiece;
    if ps.Pieces? {
      FirstPieceComplete(b, i, ps);
      TextStep(b, i, ps);
      PiecesComplete(b, i + |PieceBytes(ps.head)|, ps.tail);
    }
  }

  lemma HoldsQuoted(s: Bytes, i: nat, t: Bytes)
    ensures Holds(s, i, [QUOTE] + t + [QUOTE])
            <==> At(s, i, QUOTE) && Holds(s, i + 1, t) && At(s, i + 1 + |t|, QUOTE)
  {
    HoldsAppend(s, i, [QUOTE] + t, [QUOTE]);
    HoldsAppend(s, i, [QUOTE], t);
  }

  lemma StringSound(s: Bytes, i: nat)
    requires ReadString(s, i).Done?
    ensures var p := ReadString(s, i);
            TextOk(p.value) && Holds(s, i, Quoted(p.value)) && p.end == i + |Quoted(p.value)|
  {
    hide ReadPiece, PieceBytes, PieceOk;
    var ps := ReadString(s, i).value;
    PiecesSound(s, i + 1, QuoteAt(s, i + 1).value, i, ps);
    HoldsQuoted(s, i, TextBytes(ps));
  }

  /** A string is read back as it was spelled, and reading ends after its closing quote. */
  lemma StringComplete(s: Bytes, i: nat, ps: Pieces)
    requires TextOk(ps) && Holds(s, i, Quoted(ps))
    ensures ReadString(s, i) == Done(ps, i + |Quoted(ps)|)
  {
    hide ReadPieces, QuoteAt, TextOk, TextBytes;
    var t := TextBytes(ps);
    HoldsQuoted(s, i, t);
    QuoteComplete(s, i + 1, ps);
    var n := i + 1 + |t|;
    HoldsInSlice(s, i, n + 1, i + 1, t);
    PiecesComplete(s[i..n + 1], 1, ps);
  }
}
