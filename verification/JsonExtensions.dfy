/**
  Which accepted texts are texts of RFC 8259, for every text: those without a form feed and
  without a \u field that starts with a plus sign. A scan over the bytes alone finds both, so
  the answer does not depend on the tree that a text is read as.
 */
module JsonExtensions {
  import opened Outcomes
  import opened Utf8
  import opened JsonGrammar
  import opened JsonParser
  import opened JsonRoundTrip
  import opened JsonRfc

  // ----- The scan -----

  datatype Mode = Outside | Inside | Escaping | InField

  /** A plus sign at the start of a \u field, and a form feed. */
  datatype Marks = Marks(plus: bool, feed: bool)

  datatype Scan = Scan(mode: Mode, marks: Marks)

  const NONE := Marks(false, false)

  function Or(a: Marks, b: Marks): Marks {
    Marks(a.plus || b.plus, a.feed || b.feed)
  }

  function Next(q: Scan, b: Byte): Scan {
    var mode :=
      match q.mode
      case Outside => if b == QUOTE then Inside else Outside
      case Inside => if b == QUOTE then Outside else if b == BACKSLASH then Escaping else Inside
      case Escaping => if b == LOWER_U then InField else Inside
      case InField => Inside;
    Scan(mode, Or(q.marks, Marks(q.mode.InField? && b == PLUS, b == FORM_FEED)))
  }

  function Run(q: Scan, s: Bytes): Scan
    decreases |s|
  {
    if s == [] then q else Run(Next(q, s[0]), s[1..])
  }

  lemma {:induction false} RunAppend(q: Scan, a: Bytes, b: Bytes)
    ensures Run(q, a + b) == Run(Run(q, a), b)
    decreases |a|
  {
    hide Next;
    if a == [] {
      assert a + b == b;
    } else {
      assert (a + b)[0] == a[0] && (a + b)[1..] == a[1..] + b;
      RunAppend(Next(q, a[0]), a[1..], b);
    }
  }

  lemma {:induction false} RunFeed(q: Scan, s: Bytes)
    ensures Run(q, s).marks.feed <==> q.marks.feed || FORM_FEED in s
    decreases |s|
  {
    if s != [] {
      RunFeed(Next(q, s[0]), s[1..]);
      assert s == [s[0]] + s[1..];
    }
  }

  /** From outside a string back to outside a string, finding exactly these marks. */
  ghost predicate Passes(s: Bytes, k: Marks) {
    forall m :: Run(Scan(Outside, m), s) == Scan(Outside, Or(m, k))
  }

  lemma PassesJoin(a: Bytes, j: Marks, b: Bytes, k: Marks)
    requires Passes(a, j) && Passes(b, k)
    ensures Passes(a + b, Or(j, k))
  {
    hide Run;
    forall m ensures Run(Scan(Outside, m), a + b) == Scan(Outside, Or(m, Or(j, k))) {
      RunAppend(Scan(Outside, m), a, b);
    }
  }

  lemma {:induction false} PlainPasses(s: Bytes)
    requires QUOTE !in s && FORM_FEED !in s
    ensures Passes(s, NONE)
  {
    if s != [] {
      PlainPasses(s[1..]);
      assert s[0] in s;
      forall m ensures Run(Scan(Outside, m), s) == Scan(Outside, Or(m, NONE)) {
        assert Next(Scan(Outside, m), s[0]) == Scan(Outside, m);
      }
    }
  }

  // ----- The marks of a tree -----

  function WsMarks(w: Bytes): Marks {
    Marks(false, FORM_FEED in w)
  }

  function FieldMarks(field: Bytes): Marks {
    Marks(field != [] && field[0] == PLUS, false)
  }

  function PieceMarks(p: Piece): Marks {
    match p
    case Unicode(field) => FieldMarks(field)
    case Pair(high, low) => Or(FieldMarks(high), FieldMarks(low))
    case _ => NONE
  }

  function TextMarks(ps: Pieces): Marks {
    if ps.NoPieces? then NONE else Or(PieceMarks(ps.head), TextMarks(ps.tail))
  }

  function JsonMarks(v: JsonValue): Marks {
    match v
    case Text(ps) => TextMarks(ps)
    case Array(gap, es) => Or(WsMarks(gap), ElementsMarks(es))
    case Object(gap, ms) => Or(WsMarks(gap), MembersMarks(ms))
    case _ => NONE
  }

  function ElementsMarks(es: Elements): Marks {
    match es
    case NoElements => NONE
    case Elements(e, gap, tail) => Or(Or(JsonMarks(e.value), WsMarks(e.after)), Or(WsMarks(gap), ElementsMarks(tail)))
  }

  function MemberMarks(m: Member): Marks {
    Or(Or(Or(Or(TextMarks(m.key), WsMarks(m.beforeColon)), WsMarks(m.afterColon)), JsonMarks(m.value)),
       WsMarks(m.after))
  }

  function MembersMarks(ms: Members): Marks {
    match ms
    case NoMembers => NONE
    case Members(m, gap, tail) => Or(MemberMarks(m), Or(WsMarks(gap), MembersMarks(tail)))
  }

  function DocumentMarks(d: Document): Marks {
    Or(Or(Or(WsMarks(d.lead), WsMarks(d.gap)), MembersMarks(d.members)), WsMarks(d.trail))
  }

  /** Some \u field of the tree starts with a plus sign. */
  predicate PlusIn(d: Document) {
    DocumentMarks(d).plus
  }

  // ----- The scan finds the marks of the tree -----

  lemma {:induction false} WsPasses(w: Bytes)
    requires WsIn(w, true)
    ensures Passes(w, WsMarks(w))
  {
    if w != [] {
      WsPasses(w[1..]);
      assert w == [w[0]] + w[1..];
      var here := Marks(false, w[0] == FORM_FEED);
      forall m ensures Run(Scan(Outside, m), w) == Scan(Outside, Or(m, WsMarks(w))) {
        assert Next(Scan(Outside, m), w[0]) == Scan(Outside, Or(m, here));
      }
    }
  }

  lemma HexIsPlain(b: Byte)
    requires HexDigit(b).Some? || b == PLUS
    ensures b != QUOTE && b != BACKSLASH && b != FORM_FEED
  {
  }

  lemma FieldRun(m: Marks, field: Bytes)
    requires FieldIn(field, true)
    ensures Run(Scan(Inside, m), Escape(field)) == Scan(Inside, Or(m, FieldMarks(field)))
  {
    HexIsPlain(field[0]);
    HexIsPlain(field[1]);
    HexIsPlain(field[2]);
    HexIsPlain(field[3]);
    var s := Escape(field);
    assert s == [BACKSLASH, LOWER_U, field[0], field[1], field[2], field[3]];
    hide HexDigit;
    SixSteps(Scan(Inside, m), s);
  }

  lemma SixSteps(q: Scan, s: Bytes)
    requires |s| == 6
    ensures Run(q, s) == Next(Next(Next(Next(Next(Next(q, s[0]), s[1]), s[2]), s[3]), s[4]), s[5])
  {
    hide Next;
    var s1 := s[1..];
    var s2 := s1[1..];
    var s3 := s2[1..];
    var s4 := s3[1..];
    var s5 := s4[1..];
    assert s5[1..] == [];
    assert s1[0] == s[1] && s2[0] == s[2] && s3[0] == s[3] && s4[0] == s[4] && s5[0] == s[5];
    var q2 := Next(Next(q, s[0]), s[1]);
    assert Run(q, s) == Run(Next(q, s[0]), s1) == Run(q2, s2);
    var q4 := Next(Next(q2, s[2]), s[3]);
    assert Run(q2, s2) == Run(Next(q2, s[2]), s3) == Run(q4, s4);
    assert Run(q4, s4) == Run(Next(q4, s[4]), s5);
  }

  lemma {:induction false} LiteralRun(m: Marks, s: Bytes)
    requires QUOTE !in s && BACKSLASH !in s && FORM_FEED !in s
    ensures Run(Scan(Inside, m), s) == Scan(Inside, m)
    decreases |s|
  {
    if s != [] {
      assert s[0] in s;
      assert Next(Scan(Inside, m), s[0]) == Scan(Inside, m);
      LiteralRun(m, s[1..]);
    }
  }

  lemma PieceRun(m: Marks, p: Piece)
    requires PieceIn(p, true)
    ensures Run(Scan(Inside, m), PieceBytes(p)) == Scan(Inside, Or(m, PieceMarks(p)))
  {
    match p
    case Literal(c) =>
      EncodedBytes(c);
      LiteralRun(m, Encode(c));
    case Short(letter) =>
      assert Run(Next(Scan(Inside, m), BACKSLASH), [letter]) == Next(Next(Scan(Inside, m), BACKSLASH), letter);
      assert [BACKSLASH, letter][1..] == [letter];
    case Unicode(field) =>
      FieldRun(m, field);
    case Pair(high, low) =>
      hide Run, FieldMarks;
      FieldRun(m, high);
      RunAppend(Scan(Inside, m), Escape(high), Escape(low));
      FieldRun(Or(m, FieldMarks(high)), low);
  }

  lemma {:induction false} TextRun(m: Marks, ps: Pieces)
    requires TextIn(ps, true)
    ensures Run(Scan(Inside, m), TextBytes(ps)) == Scan(Inside, Or(m, TextMarks(ps)))
    decreases ps
  {
    hide PieceMarks, PieceIn, PieceBytes, Next;
    if ps.Pieces? {
      PieceRun(m, ps.head);
      RunAppend(Scan(Inside, m), PieceBytes(ps.head), TextBytes(ps.tail));
      TextRun(Or(m, PieceMarks(ps.head)), ps.tail);
    }
  }

  lemma QuotedPasses(ps: Pieces)
    requires TextIn(ps, true)
    ensures Passes(Quoted(ps), TextMarks(ps))
  {
    hide TextMarks, TextIn, TextBytes;
    forall m ensures Run(Scan(Outside, m), Quoted(ps)) == Scan(Outside, Or(m, TextMarks(ps))) {
      RunAppend(Scan(Outside, m), [QUOTE] + TextBytes(ps), [QUOTE]);
      RunAppend(Scan(Outside, m), [QUOTE], TextBytes(ps));
      OneStep(Scan(Outside, m), QUOTE);
      TextRun(m, ps);
      OneStep(Scan(Inside, Or(m, TextMarks(ps))), QUOTE);
    }
  }

  lemma OneStep(q: Scan, b: Byte)
    ensures Run(q, [b]) == Next(q, b)
  {
    assert [b][1..] == [];
  }

  lemma DigitsArePlain(s: Bytes)
    requires DigitsOk(s)
    ensures QUOTE !in s && FORM_FEED !in s
  {
  }

  lemma NumberPasses(n: Number)
    requires NumberOk(n)
    ensures Passes(NumberBytes(n), NONE)
  {
    hide Passes;
    DigitsArePlain(n.whole);
    if n.fraction.Some? {
      DigitsArePlain(n.fraction.value);
    }
    if n.exponent.Some? {
      DigitsArePlain(n.exponent.value.digits);
    }
    hide DigitsOk;
    PlainPasses(NumberBytes(n));
  }

  lemma BracketedPasses(open: Byte, gap: Bytes, body: Bytes, k: Marks, close: Byte)
    requires open in {OPEN_BRACE, OPEN_BRACKET} && close in {CLOSE_BRACE, CLOSE_BRACKET}
    requires WsIn(gap, true) && Passes(body, k)
    ensures Passes([open] + gap + body + [close], Or(WsMarks(gap), k))
  {
    hide Passes, WsMarks;
    PlainPasses([open]);
    PlainPasses([close]);
    WsPasses(gap);
    PassesJoin([open], NONE, gap, WsMarks(gap));
    PassesJoin([open] + gap, WsMarks(gap), body, k);
    PassesJoin([open] + gap + body, Or(WsMarks(gap), k), [close], NONE);
  }

  lemma {:induction false} JsonPasses(v: JsonValue)
    requires JsonIn(v, true)
    ensures Passes(JsonBytes(v), JsonMarks(v))
    decreases v
  {
    hide Passes, WsIn, TextIn, NumberOk, NumberIn, ElementsIn, MembersIn, NumberBytes, Quoted, WsMarks, TextMarks,
         ElementsMarks,
      MembersMarks, ElementsBytes, MembersBytes;
    match v
    case Text(ps) => QuotedPasses(ps);
    case Numeral(n) =>
      NumberOkIff(n);
      NumberPasses(n);
    case Bool(_) => PlainPasses(JsonBytes(v));
    case Null => PlainPasses(JsonBytes(v));
    case Array(gap, es) =>
      ElementsPass(es);
      BracketedPasses(OPEN_BRACKET, gap, ElementsBytes(es), ElementsMarks(es), CLOSE_BRACKET);
    case Object(gap, ms) =>
      MembersPass(ms);
      BracketedPasses(OPEN_BRACE, gap, MembersBytes(ms), MembersMarks(ms), CLOSE_BRACE);
  }

  /** One element or member, then either nothing or a comma and the rest. */
  lemma ListPasses(head: Bytes, j: Marks, gap: Bytes, tail: Bytes, k: Marks)
    requires Passes(head, j) && WsIn(gap, true) && Passes(tail, k)
    ensures Passes(head + ([COMMA] + gap + tail), Or(j, Or(WsMarks(gap), k)))
  {
    hide Passes, WsMarks;
    PlainPasses([COMMA]);
    WsPasses(gap);
    PassesJoin([COMMA], NONE, gap, WsMarks(gap));
    PassesJoin([COMMA] + gap, WsMarks(gap), tail, k);
    PassesJoin(head, j, [COMMA] + gap + tail, Or(WsMarks(gap), k));
  }

  lemma {:induction false} ElementsPass(es: Elements)
    requires ElementsIn(es, true)
    ensures Passes(ElementsBytes(es), ElementsMarks(es))
    decreases es
  {
    hide Passes, WsIn, JsonIn, WsMarks, JsonMarks, JsonBytes;
    if es.Elements? {
      var e := es.head;
      JsonPasses(e.value);
      WsPasses(e.after);
      PassesJoin(JsonBytes(e.value), JsonMarks(e.value), e.after, WsMarks(e.after));
      ElementsPass(es.tail);
      if es.tail.Elements? {
        ListPasses(ElementBytes(e), Or(JsonMarks(e.value), WsMarks(e.after)), es.gap, ElementsBytes(es.tail),
                   ElementsMarks(es.tail));
      } else {
        assert ElementsBytes(es) == ElementBytes(e) && WsMarks([]) == NONE by {
          assert ElementBytes(e) + [] == ElementBytes(e);
          NoFeed();
        }
      }
    } else {
      PlainPasses([]);
    }
  }

  lemma NoFeed()
    ensures WsMarks([]) == NONE
  {
  }

  lemma MemberPasses(m: Member)
    requires TextIn(m.key, true) && WsIn(m.beforeColon, true) && WsIn(m.afterColon, true) && WsIn(m.after, true)
    requires Passes(JsonBytes(m.value), JsonMarks(m.value))
    ensures Passes(MemberBytes(m), MemberMarks(m))
  {
    hide Passes, WsMarks, TextMarks, JsonMarks, JsonBytes, Quoted;
    QuotedPasses(m.key);
    WsPasses(m.beforeColon);
    PlainPasses([COLON]);
    WsPasses(m.afterColon);
    WsPasses(m.after);
    var a := Quoted(m.key) + m.beforeColon;
    var j := Or(TextMarks(m.key), WsMarks(m.beforeColon));
    PassesJoin(Quoted(m.key), TextMarks(m.key), m.beforeColon, WsMarks(m.beforeColon));
    PassesJoin(a, j, [COLON], NONE);
    PassesJoin(a + [COLON], j, m.afterColon, WsMarks(m.afterColon));
    var b, k := a + [COLON] + m.afterColon, Or(j, WsMarks(m.afterColon));
    PassesJoin(b, k, JsonBytes(m.value), JsonMarks(m.value));
    PassesJoin(b + JsonBytes(m.value), Or(k, JsonMarks(m.value)), m.after, WsMarks(m.after));
  }

  lemma {:induction false} MembersPass(ms: Members)
    requires MembersIn(ms, true)
    ensures Passes(MembersBytes(ms), MembersMarks(ms))
    decreases ms
  {
    hide Passes, WsIn, JsonIn, TextIn, WsMarks, JsonMarks, MemberMarks, MemberBytes;
    if ms.Members? {
      JsonPasses(ms.head.value);
      MemberPasses(ms.head);
      MembersPass(ms.tail);
      if ms.tail.Members? {
        ListPasses(MemberBytes(ms.head), MemberMarks(ms.head), ms.gap, MembersBytes(ms.tail), MembersMarks(ms.tail));
      } else {
        assert MembersBytes(ms) == MemberBytes(ms.head) && WsMarks([]) == NONE by {
          assert MemberBytes(ms.head) + [] == MemberBytes(ms.head);
          NoFeed();
        }
      }
    } else {
      PlainPasses([]);
    }
  }

  lemma DocumentPasses(d: Document)
    requires DocumentIn(d, true)
    ensures Passes(DocumentBytes(d), DocumentMarks(d))
  {
    hide Passes, WsMarks, MembersMarks, MembersBytes, WsIn, MembersIn;
    WsPasses(d.lead);
    MembersPass(d.members);
    BracketedPasses(OPEN_BRACE, d.gap, MembersBytes(d.members), MembersMarks(d.members), CLOSE_BRACE);
    var braces := [OPEN_BRACE] + d.gap + MembersBytes(d.members) + [CLOSE_BRACE];
    var k := Or(WsMarks(d.gap), MembersMarks(d.members));
    PassesJoin(d.lead, WsMarks(d.lead), braces, k);
    WsPasses(d.trail);
    PassesJoin(d.lead + braces, Or(WsMarks(d.lead), k), d.trail, WsMarks(d.trail));
    assert DocumentBytes(d) == d.lead + braces + d.trail;
  }

  // ----- Trees without marks are trees of RFC 8259 -----

  lemma {:induction false} WsStrict(w: Bytes)
    requires WsIn(w, true)
    ensures WsIn(w, false) <==> WsMarks(w) == NONE
  {
    if w != [] {
      WsStrict(w[1..]);
      assert w == [w[0]] + w[1..];
    }
  }

  lemma FieldStrict(field: Bytes)
    requires FieldIn(field, true)
    ensures FieldIn(field, false) <==> FieldMarks(field) == NONE
  {
    assert HexDigit(PLUS) == None;
  }

  lemma {:induction false} TextStrict(ps: Pieces)
    requires TextIn(ps, true)
    ensures TextIn(ps, false) <==> TextMarks(ps) == NONE
  {
    hide FieldIn, FieldMarks;
    if ps.Pieces? {
      TextStrict(ps.tail);
      match ps.head
      case Unicode(field) => FieldStrict(field);
      case Pair(high, low) =>
        FieldStrict(high);
        FieldStrict(low);
      case _ =>
    }
  }

  lemma {:induction false} JsonStrict(v: JsonValue)
    requires JsonIn(v, true)
    ensures JsonIn(v, false) <==> JsonMarks(v) == NONE
    decreases v
  {
    hide WsIn, TextIn, WsMarks, TextMarks;
    match v
    case Text(ps) => TextStrict(ps);
    case Array(gap, es) =>
      WsStrict(gap);
      ElementsStrict(es);
    case Object(gap, ms) =>
      WsStrict(gap);
      MembersStrict(ms);
    case _ =>
  }

  lemma {:induction false} ElementsStrict(es: Elements)
    requires ElementsIn(es, true)
    ensures ElementsIn(es, false) <==> ElementsMarks(es) == NONE
    decreases es
  {
    hide WsIn, JsonIn, WsMarks, JsonMarks;
    if es.Elements? {
      JsonStrict(es.head.value);
      WsStrict(es.head.after);
      WsStrict(es.gap);
      ElementsStrict(es.tail);
    }
  }

  lemma {:induction false} MembersStrict(ms: Members)
    requires MembersIn(ms, true)
    ensures MembersIn(ms, false) <==> MembersMarks(ms) == NONE
    decreases ms
  {
    hide WsIn, JsonIn, TextIn, WsMarks, JsonMarks, TextMarks;
    if ms.Members? {
      TextStrict(ms.head.key);
      JsonStrict(ms.head.value);
      WsStrict(ms.head.beforeColon);
      WsStrict(ms.head.afterColon);
      WsStrict(ms.head.after);
      WsStrict(ms.gap);
      MembersStrict(ms.tail);
    }
  }

  lemma DocumentStrict(d: Document)
    requires DocumentIn(d, true)
    ensures DocumentIn(d, false) <==> DocumentMarks(d) == NONE
  {
    hide WsIn, MembersIn, WsMarks, MembersMarks;
    WsStrict(d.lead);
    WsStrict(d.gap);
    WsStrict(d.trail);
    MembersStrict(d.members);
  }

  // ----- Accepted texts and RFC 8259 -----

  ghost predicate RfcText(s: Bytes) {
    exists e :: DocumentIn(e, false) && DocumentText(e) == s
  }

  /**
    An accepted text is an object text of RFC 8259 exactly when it has no form feed, and no \u field
    starts with a plus sign.
   */
  lemma AcceptedIsRfcIff(s: Bytes, d: Document)
    requires ReadDocument(s) == Done(d, |s|)
    ensures RfcText(s) <==> 0x0c !in s && !PlusIn(d)
  {
    hide ReadDocument, DocumentOk, DocumentIn, DocumentBytes, DocumentText, WithinLimits, Run, DocumentMarks;
    AcceptedIffPrinted(s, d);
    AcceptedGrammar(d);
    DocumentPasses(d);
    DocumentStrict(d);
    var start := Scan(Outside, NONE);
    assert Run(start, s) == Scan(Outside, Or(NONE, DocumentMarks(d)));
    RunFeed(start, s);
    DocumentIsBytes(d);
    if e :| DocumentIn(e, false) && DocumentText(e) == s {
      DocumentIsBytes(e);
      DocumentWidens(e);
      DocumentStrict(e);
      DocumentPasses(e);
      assert Run(start, s) == Scan(Outside, Or(NONE, DocumentMarks(e)));
    }
  }

  /** The scan of the bytes decides it. */
  lemma ScanDecides(s: Bytes)
    requires ReadDocument(s).Done?
    ensures RfcText(s) <==> Run(Scan(Outside, NONE), s).marks == NONE
  {
    hide ReadDocument, DocumentOk, DocumentIn, WithinLimits, DocumentBytes, RfcText, Run, DocumentMarks;
    DocumentSound(s);
    var d := ReadDocument(s).value;
    AcceptedIffPrinted(s, d);
    AcceptedGrammar(d);
    DocumentPasses(d);
    AcceptedIsRfcIff(s, d);
    RunFeed(Scan(Outside, NONE), s);
  }

  /** {} with a form feed between the braces is accepted, and is not a text of RFC 8259. */
  lemma FormFeedIsAnExtension()
    ensures var s: Bytes := [0x7b, 0x0c, 0x7d];
            ReadDocument(s).Done? && !RfcText(s)
  {
    var d := Document([], [FORM_FEED], NoMembers, []);
    var s := DocumentBytes(d);
    assert s == [OPEN_BRACE, FORM_FEED, CLOSE_BRACE];
    assert WsOk([]) && [FORM_FEED][1..] == [];
    assert DocumentOk(d);
    DocumentComplete(d);
    assert s[1] == FORM_FEED;
    AcceptedIsRfcIff(s, d);
  }

  const PLUS_KEY: Bytes := [0x22, 0x5c, 0x75, 0x2b, 0x30, 0x34, 0x31, 0x22]

  /** {"\u+041":null} is accepted, and is not a text of RFC 8259. */
  lemma PlusIsAnExtension()
    ensures var s: Bytes := [0x7b] + PLUS_KEY + [0x3a, 0x6e, 0x75, 0x6c, 0x6c, 0x7d];
            ReadDocument(s).Done? && !RfcText(s)
  {
    var field: Bytes := [PLUS, 0x30, 0x34, 0x31];
    var key := Pieces(Unicode(field), NoPieces);
    var ms := Members(Member(key, [], [], Null, []), [], NoMembers);
    var d := Document([], [], ms, []);
    PlusKey(field, key);
    PlusMembers(key, ms);
    hide MembersBytes, MembersOk, MembersHeight, MembersMarks, PLUS_KEY, NULL, ReadDocument;
    var s := DocumentBytes(d);
    assert s == [OPEN_BRACE] + PLUS_KEY + ([COLON] + NULL + [CLOSE_BRACE]);
    NullMember();
    assert WsOk([]);
    assert DocumentOk(d) && PlusIn(d);
    hide DocumentBytes, DocumentOk, PlusIn;
    DocumentComplete(d);
    AcceptedIsRfcIff(s, d);
  }

  lemma NullMember()
    ensures [COLON] + NULL + [CLOSE_BRACE] == [0x3a, 0x6e, 0x75, 0x6c, 0x6c, 0x7d]
  {
  }

  lemma PlusMembers(key: Pieces, ms: Members)
    requires ms == Members(Member(key, [], [], Null, []), [], NoMembers)
    requires TextOk(key) && TextMarks(key).plus
    ensures MembersBytes(ms) == Quoted(key) + [COLON] + NULL
    ensures MembersOk(ms) && MembersHeight(ms) == 1 && MembersMarks(ms).plus
  {
    hide Quoted, TextOk, TextMarks, NULL;
    var m := ms.head;
    assert MemberBytes(m) == Quoted(key) + [COLON] + NULL;
    assert MembersBytes(ms) == MemberBytes(m);
    assert WsOk([]) && MemberOk(m) && MembersOk(NoMembers) && Decoded(key) !in Keys(NoMembers);
    assert MemberMarks(m).plus;
  }

  lemma PlusKey(field: Bytes, key: Pieces)
    requires field == [PLUS, 0x30, 0x34, 0x31] && key == Pieces(Unicode(field), NoPieces)
    ensures Quoted(key) == PLUS_KEY
    ensures TextOk(key) && TextMarks(key).plus
  {
    assert FieldValue(field) == Some(0x41);
    assert TextBytes(key) == Escape(field);
    assert FieldMarks(field).plus;
  }
}
