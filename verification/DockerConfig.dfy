/**
  What the guest helper does to Docker's configuration, stated on syntax trees:
  looking a field up, and the temporary copy with live restore turned off.
 */
module DockerConfig {
  import opened Outcomes
  import opened Utf8
  import opened JsonGrammar
  import opened JsonParser
  import opened JsonRoundTrip

  const LIMIT := 1024 * 1024

  /** live-restore */
  const LIVE_RESTORE: seq<Scalar> :=
    [0x6c, 0x69, 0x76, 0x65, 0x2d, 0x72, 0x65, 0x73, 0x74, 0x6f, 0x72, 0x65]

  datatype ConfigError = Malformed(error: JsonError) | NotABoolean | TooLarge

  // ----- Looking a field up -----

  /** Where the value of a member stands, and its truth value if it is a boolean. */
  datatype Located = Located(start: nat, end: nat, boolean: Option<bool>)

  function ValueStart(m: Member, i: nat): nat {
    i + |Quoted(m.key)| + |m.beforeColon| + 1 + |m.afterColon|
  }

  function LocateMember(m: Member, i: nat): Located {
    var start := ValueStart(m, i);
    Located(start, start + |JsonBytes(m.value)|, BoolOf(m.value))
  }

  /** The position of the member after this one. */
  function Next(ms: Members, i: nat): nat
    requires ms.Members?
  {
    i + |MemberBytes(ms.head)| + 1 + |ms.gap|
  }

  /** The last member with this key, in members that start at `i`. */
  function Find(ms: Members, i: nat, wanted: seq<Scalar>): Option<Located>
    requires KeysOk(ms)
  {
    match ms
    case NoMembers => None
    case Members(m, _, tail) =>
      var later := Find(tail, Next(ms, i), wanted);
      if later.None? && Decoded(m.key) == wanted then Some(LocateMember(m, i)) else later
  }

  /** The value of the member with this key. */
  function Lookup(ms: Members, wanted: seq<Scalar>): Option<JsonValue>
    requires KeysOk(ms)
  {
    match ms
    case NoMembers => None
    case Members(m, _, tail) => if Decoded(m.key) == wanted then Some(m.value) else Lookup(tail, wanted)
  }

  function BooleanField(data: Bytes, wanted: seq<Scalar>): Result<Option<bool>, ConfigError> {
    match ReadDocument(data)
    case Bad(e) => Err(Malformed(e))
    case Done(d, _) =>
      assert MembersOk(d.members) by { DocumentSound(data); }
      var v := Lookup(d.members, wanted);
      if v.None? then Ok(None) else if v.value.Bool? then Ok(Some(v.value.b)) else Err(NotABoolean)
  }

  /** What a field of an accepted text is, by the bytes of its value: `true`, `false`, or an error. */
  lemma FieldMeaning(d: Document, wanted: seq<Scalar>)
    requires DocumentOk(d)
    ensures BooleanField(DocumentBytes(d), wanted) ==
      var v := Lookup(d.members, wanted);
      if v.None? then Ok(None)
      else if JsonBytes(v.value) == [0x74, 0x72, 0x75, 0x65] then Ok(Some(true))
      else if JsonBytes(v.value) == [0x66, 0x61, 0x6c, 0x73, 0x65] then Ok(Some(false))
      else Err(NotABoolean)
  {
    LookupOk(d.members, wanted);
    hide ReadDocument, DocumentBytes, DocumentOk, MembersOk, Lookup, JsonBytes, JsonOk;
    DocumentComplete(d);
    if Lookup(d.members, wanted).Some? {
      BooleanBytes(Lookup(d.members, wanted).value);
    }
  }

  lemma {:induction false} LookupOk(ms: Members, wanted: seq<Scalar>)
    requires MembersOk(ms)
    ensures Lookup(ms, wanted).Some? ==> JsonOk(Lookup(ms, wanted).value)
  {
    hide JsonOk, TextOk, WsOk, Decoded;
    if ms.Members? {
      LookupOk(ms.tail, wanted);
    }
  }

  /** No other value has the bytes of a boolean. */
  lemma BooleanBytes(v: JsonValue)
    requires JsonOk(v)
    ensures JsonBytes(v) == [0x74, 0x72, 0x75, 0x65] <==> v == Bool(true)
    ensures JsonBytes(v) == [0x66, 0x61, 0x6c, 0x73, 0x65] <==> v == Bool(false)
  {
    hide TextBytes, ElementsBytes, MembersBytes, FractionBytes, ExponentBytes, TextOk, ElementsOk, MembersOk, WsOk;
    match v
    case Text(ps) =>
      assert JsonBytes(v)[0] == QUOTE;
    case Array(_, _) =>
      assert JsonBytes(v)[0] == OPEN_BRACKET;
    case Object(_, _) =>
      assert JsonBytes(v)[0] == OPEN_BRACE;
    case Numeral(n) =>
      assert JsonBytes(v)[0] == if n.minus then MINUS else n.whole[0];
    case _ =>
  }

  // ----- The meaning of a configuration -----

  /** The value of each key. */
  function Meaning(ms: Members): map<seq<Scalar>, JsonValue>
    requires KeysOk(ms)
  {
    match ms
    case NoMembers => map[]
    case Members(m, _, tail) => Meaning(tail)[Decoded(m.key) := m.value]
  }

  /** The members with other keys, in order and with all their bytes. */
  function Others(ms: Members, key: seq<Scalar>): seq<Member>
    requires KeysOk(ms)
  {
    match ms
    case NoMembers => []
    case Members(m, _, tail) => (if Decoded(m.key) == key then [] else [m]) + Others(tail, key)
  }

  // ----- Turning live restore off -----

  function Spelled(cs: seq<Scalar>): Pieces {
    if cs == [] then NoPieces else Pieces(Literal(cs[0]), Spelled(cs[1..]))
  }

  const NEW_MEMBER: Member := Member(Spelled(LIVE_RESTORE), [], [], Bool(false), [])

  function SetFalse(ms: Members): Members
    requires KeysOk(ms)
  {
    match ms
    case NoMembers => NoMembers
    case Members(m, gap, tail) =>
      if Decoded(m.key) == LIVE_RESTORE then Members(m.(value := Bool(false)), gap, tail)
      else Members(m, gap, SetFalse(tail))
  }

  function Append(ms: Members, m: Member): Members {
    match ms
    case NoMembers => Members(m, [], NoMembers)
    case Members(x, gap, tail) => Members(x, gap, Append(tail, m))
  }

  /** The tree with live restore turned off: its value replaced, or a member added at the end. */
  function Disable(d: Document): Document
    requires KeysOk(d.members)
  {
    if Lookup(d.members, LIVE_RESTORE).Some? then d.(members := SetFalse(d.members))
    else d.(members := Append(d.members, NEW_MEMBER))
  }

  /** The temporary configuration, or why there is none. */
  function DisabledConfig(original: Bytes): (r: Result<Bytes, ConfigError>)
    ensures r.Ok? ==> |r.value| <= LIMIT
  {
    match ReadDocument(original)
    case Bad(e) => Err(Malformed(e))
    case Done(d, _) =>
      assert MembersOk(d.members) by { DocumentSound(original); }
      var v := Lookup(d.members, LIVE_RESTORE);
      if v.Some? && !v.value.Bool? then Err(NotABoolean)
      else
        var data := DocumentBytes(Disable(d));
        if |data| > LIMIT then Err(TooLarge) else Ok(data)
  }

  // ----- The edited tree is legal -----

  lemma {:induction false} SpelledOk(cs: seq<Scalar>)
    requires forall i | 0 <= i < |cs| :: Unescaped(cs[i]) && cs[i] < 0x80
    ensures TextOk(Spelled(cs)) && Decoded(Spelled(cs)) == cs && TextBytes(Spelled(cs)) == cs
  {
    if cs != [] {
      SpelledOk(cs[1..]);
      assert cs == [cs[0]] + cs[1..];
    }
  }

  lemma PlainMember(k: Pieces)
    ensures MemberBytes(Member(k, [], [], Bool(false), [])) == [QUOTE] + TextBytes(k) + [QUOTE, COLON] + FALSE
  {
    hide TextBytes;
    var m := Member(k, [], [], Bool(false), []);
    assert Quoted(k) + [COLON] == [QUOTE] + TextBytes(k) + [QUOTE, COLON];
    assert MemberBytes(m) == Quoted(k) + [COLON] + FALSE;
  }

  lemma NewMemberOk()
    ensures MemberOk(NEW_MEMBER) && Decoded(NEW_MEMBER.key) == LIVE_RESTORE && Height(NEW_MEMBER.value) == 1
    ensures MemberBytes(NEW_MEMBER) == [QUOTE] + LIVE_RESTORE + [QUOTE, COLON] + FALSE
  {
    hide TextOk, TextBytes, Decoded, MemberBytes, Spelled;
    SpelledOk(LIVE_RESTORE);
    PlainMember(Spelled(LIVE_RESTORE));
  }

  predicate Ascii(b: seq<int>, s: string) {
    |b| == |s| && forall i | 0 <= i < |b| :: b[i] == s[i] as int
  }

  /** The key, the words and the member that is added are the ones that the source writes. */
  lemma NamesAreSpelled()
    ensures Ascii(LIVE_RESTORE, "live-restore") && Ascii(MemberBytes(NEW_MEMBER), "\"live-restore\":false")
    ensures Ascii(TRUE, "true") && Ascii(FALSE, "false") && Ascii(NULL, "null")
  {
    hide MemberBytes, NEW_MEMBER;
    NewMemberOk();
  }

  lemma {:induction false} SetFalseOk(ms: Members)
    requires MembersOk(ms)
    ensures MembersOk(SetFalse(ms)) && Keys(SetFalse(ms)) == Keys(ms)
    ensures MembersHeight(SetFalse(ms)) <= MembersHeight(ms)
    ensures SetFalse(ms).NoMembers? == ms.NoMembers?
  {
    if ms.Members? {
      SetFalseOk(ms.tail);
    }
  }

  lemma {:induction false} AppendOk(ms: Members, m: Member)
    requires MembersOk(ms) && MemberOk(m) && Decoded(m.key) !in Keys(ms)
    ensures MembersOk(Append(ms, m)) && Keys(Append(ms, m)) == Keys(ms) + {Decoded(m.key)}
    ensures MembersHeight(Append(ms, m)) == Max(MembersHeight(ms), Height(m.value))
  {
    if ms.Members? {
      AppendOk(ms.tail, m);
    }
  }

  lemma {:induction false} LookupIffKey(ms: Members, wanted: seq<Scalar>)
    requires KeysOk(ms)
    ensures Lookup(ms, wanted).Some? <==> wanted in Keys(ms)
  {
    if ms.Members? {
      LookupIffKey(ms.tail, wanted);
    }
  }

  lemma DisableOk(d: Document)
    requires DocumentOk(d)
    ensures DocumentOk(Disable(d))
  {
    hide MembersOk, KeysOk, Lookup, SetFalse, Append, Keys, WsOk, MembersHeight, DocumentOk, MemberOk, NEW_MEMBER,
         LIVE_RESTORE;
    var ms := d.members;
    DocumentMembersOk(d);
    LookupIffKey(ms, LIVE_RESTORE);
    NewMemberOk();
    if Lookup(ms, LIVE_RESTORE).Some? {
      SetFalseOk(ms);
      WithMembersOk(d, SetFalse(ms));
    } else {
      AppendOk(ms, NEW_MEMBER);
      WithMembersOk(d, Append(ms, NEW_MEMBER));
    }
  }

  lemma WithMembersOk(d: Document, ms: Members)
    requires DocumentOk(d) && MembersOk(ms) && MembersHeight(ms) <= DEPTH_LIMIT
    ensures DocumentOk(d.(members := ms))
  {
    hide MembersOk, MembersHeight, WsOk;
  }

  // ----- The byte edit is the tree edit -----

  lemma {:induction false} FindIsLookup(ms: Members, i: nat, wanted: seq<Scalar>)
    requires MembersOk(ms)
    ensures Find(ms, i, wanted).Some? <==> Lookup(ms, wanted).Some?
    ensures Find(ms, i, wanted).Some? ==> Find(ms, i, wanted).value.boolean == BoolOf(Lookup(ms, wanted).value)
  {
    if ms.Members? {
      FindIsLookup(ms.tail, Next(ms, i), wanted);
      LookupIffKey(ms.tail, wanted);
    }
  }

  /** Replacing bytes `a..b` of `t`. */
  function Splice(t: Bytes, a: nat, b: nat, x: Bytes): Bytes
    requires a <= b <= |t|
  {
    t[..a] + x + t[b..]
  }

  lemma SpliceInside(p: Bytes, t: Bytes, q: Bytes, a: nat, b: nat, x: Bytes)
    requires a <= b <= |t|
    ensures Splice(p + t + q, |p| + a, |p| + b, x) == p + Splice(t, a, b, x) + q
  {
    var u := p + t + q;
    assert u[..|p| + a] == p + t[..a];
    assert u[|p| + b..] == t[b..] + q;
  }

  lemma SpliceMember(m: Member)
    ensures var start := ValueStart(m, 0); var end := start + |JsonBytes(m.value)|;
            && end <= |MemberBytes(m)|
            && Splice(MemberBytes(m), start, end, FALSE) == MemberBytes(m.(value := Bool(false)))
  {
    hide Quoted, JsonBytes;
    var p := Quoted(m.key) + m.beforeColon + [COLON] + m.afterColon;
    var v := JsonBytes(m.value);
    SpliceInside(p, v, m.after, 0, |v|, FALSE);
    assert Splice(v, 0, |v|, FALSE) == FALSE;
    BoolBytes();
  }

  lemma BoolBytes()
    ensures JsonBytes(Bool(false)) == FALSE
  {
  }

  /** What follows the head of a list of members. */
  function TailBytes(ms: Members): Bytes
    requires ms.Members?
  {
    if ms.tail.NoMembers? then [] else [COMMA] + ms.gap + MembersBytes(ms.tail)
  }

  lemma SpliceHead(ms: Members)
    requires ms.Members? && KeysOk(ms) && Decoded(ms.head.key) == LIVE_RESTORE
    ensures var start := ValueStart(ms.head, 0); var end := start + |JsonBytes(ms.head.value)|;
            && end <= |MembersBytes(ms)|
            && MembersBytes(SetFalse(ms)) == Splice(MembersBytes(ms), start, end, FALSE)
  {
    hide MemberBytes, JsonBytes, Quoted, ValueStart, Splice;
    var m := ms.head;
    SpliceMember(m);
    var start := ValueStart(m, 0);
    SpliceInside([], MemberBytes(m), TailBytes(ms), start, start + |JsonBytes(m.value)|, FALSE);
    assert [] + MemberBytes(m) + TailBytes(ms) == MembersBytes(ms);
  }

  lemma SpliceTail(ms: Members, a: nat, b: nat)
    requires ms.Members? && KeysOk(ms) && Decoded(ms.head.key) != LIVE_RESTORE
    requires ms.tail.Members? && SetFalse(ms.tail).Members?
    requires a <= b <= |MembersBytes(ms.tail)|
    requires MembersBytes(SetFalse(ms.tail)) == Splice(MembersBytes(ms.tail), a, b, FALSE)
    ensures Next(ms, 0) + b <= |MembersBytes(ms)|
    ensures MembersBytes(SetFalse(ms)) == Splice(MembersBytes(ms), Next(ms, 0) + a, Next(ms, 0) + b, FALSE)
  {
    MembersInTwo(ms);
    MembersInTwo(SetFalse(ms));
    hide MembersBytes, MemberBytes, SetFalse, Splice, KeysOk, Decoded, Quoted, JsonBytes;
    var p := MemberBytes(ms.head) + [COMMA] + ms.gap;
    var t := MembersBytes(ms.tail);
    SpliceInside(p, t, [], a, b, FALSE);
    NothingAfter(p + t);
    NothingAfter(p + Splice(t, a, b, FALSE));
  }

  /** A list of two members or more. */
  lemma MembersInTwo(ms: Members)
    ensures ms.Members? && ms.tail.Members? ==>
      && MembersBytes(ms) == MemberBytes(ms.head) + [COMMA] + ms.gap + MembersBytes(ms.tail)
      && |MemberBytes(ms.head) + [COMMA] + ms.gap| == Next(ms, 0)
  {
    hide MemberBytes;
    if ms.Members? && ms.tail.Members? {
      assert MembersBytes(ms) == MemberBytes(ms.head) + ([COMMA] + ms.gap + MembersBytes(ms.tail));
      hide MembersBytes;
      Regroup(MemberBytes(ms.head), [COMMA], ms.gap, MembersBytes(ms.tail));
    }
  }

  lemma Regroup(a: Bytes, b: Bytes, c: Bytes, d: Bytes)
    ensures a + (b + c + d) == a + b + c + d
  {
  }

  lemma NothingAfter(t: Bytes)
    ensures t + [] == t
  {
  }

  lemma {:induction false} SpliceMembers(ms: Members, i: nat)
    requires MembersOk(ms) && Find(ms, i, LIVE_RESTORE).Some?
    ensures var l := Find(ms, i, LIVE_RESTORE).value;
            && i <= l.start <= l.end <= i + |MembersBytes(ms)|
            && MembersBytes(SetFalse(ms)) == Splice(MembersBytes(ms), l.start - i, l.end - i, FALSE)
  {
    hide MembersBytes, MemberBytes, JsonBytes, Quoted, Splice, MemberOk, WsOk, Decoded;
    FindIsLookup(ms.tail, Next(ms, i), LIVE_RESTORE);
    LookupIffKey(ms.tail, LIVE_RESTORE);
    if Decoded(ms.head.key) == LIVE_RESTORE {
      SpliceHead(ms);
    } else {
      SetFalseOk(ms.tail);
      SpliceMembers(ms.tail, Next(ms, i));
      var l := Find(ms.tail, Next(ms, i), LIVE_RESTORE).value;
      SpliceTail(ms, l.start - Next(ms, i), l.end - Next(ms, i));
    }
  }

  lemma {:induction false} AppendBytes(ms: Members, m: Member)
    ensures MembersBytes(Append(ms, m)) == MembersBytes(ms) + (if ms.Members? then [COMMA] else []) + MemberBytes(m)
    requires MembersOk(ms)
  {
    hide MemberBytes;
    if ms.Members? {
      AppendBytes(ms.tail, m);
    }
  }

  /** Where the members of a document start, and where its closing brace stands. */
  function MembersAt(d: Document): nat {
    |d.lead| + 1 + |d.gap|
  }

  function CloseAt(d: Document): nat {
    MembersAt(d) + |MembersBytes(d.members)|
  }

  lemma DocumentParts(d: Document)
    ensures DocumentBytes(d) == (d.lead + [OPEN_BRACE] + d.gap) + MembersBytes(d.members) + ([CLOSE_BRACE] + d.trail)
  {
    hide MembersBytes;
  }

  /** Overwriting the located value turns live restore off in the tree. */
  lemma ReplacedIsDisabled(d: Document, l: Located)
    requires DocumentOk(d) && Find(d.members, MembersAt(d), LIVE_RESTORE) == Some(l)
    ensures l.start <= l.end <= |DocumentBytes(d)|
    ensures DocumentBytes(Disable(d)) == Splice(DocumentBytes(d), l.start, l.end, FALSE)
  {
    DocumentMembersOk(d);
    hide *;
    FindIsLookup(d.members, MembersAt(d), LIVE_RESTORE);
    SpliceMembers(d.members, MembersAt(d));
    ReplacedBytes(d, l.start, l.end);
  }

  lemma ReplacedBytes(d: Document, start: nat, end: nat)
    requires MembersOk(d.members) && Lookup(d.members, LIVE_RESTORE).Some?
    requires MembersAt(d) <= start <= end <= MembersAt(d) + |MembersBytes(d.members)|
    requires MembersBytes(SetFalse(d.members)) ==
      Splice(MembersBytes(d.members), start - MembersAt(d), end - MembersAt(d), FALSE)
    ensures end <= |DocumentBytes(d)|
    ensures DocumentBytes(Disable(d)) == Splice(DocumentBytes(d), start, end, FALSE)
  {
    hide DocumentBytes, MembersBytes, MembersOk, KeysOk, Lookup, SetFalse, Splice;
    var p := d.lead + [OPEN_BRACE] + d.gap;
    SpliceInside(p, MembersBytes(d.members), [CLOSE_BRACE] + d.trail, start - |p|, end - |p|, FALSE);
    DocumentParts(d);
    DocumentParts(Disable(d));
  }

  lemma SpliceAtEnd(t: Bytes, x: Bytes)
    ensures Splice(t, |t|, |t|, x) == t + x
  {
  }

  lemma InsertedMember(d: Document, m: Member)
    requires MembersOk(d.members)
    ensures var x := (if d.members.Members? then [COMMA] else []) + MemberBytes(m);
            && CloseAt(d) <= |DocumentBytes(d)|
            && DocumentBytes(d.(members := Append(d.members, m))) == Splice(DocumentBytes(d), CloseAt(d), CloseAt(d), x)
  {
    hide DocumentBytes, MembersBytes, MemberBytes, MembersOk, Append, Splice;
    var x := (if d.members.Members? then [COMMA] else []) + MemberBytes(m);
    var p := d.lead + [OPEN_BRACE] + d.gap;
    var t := MembersBytes(d.members);
    AppendBytes(d.members, m);
    SpliceInside(p, t, [CLOSE_BRACE] + d.trail, |t|, |t|, x);
    SpliceAtEnd(t, x);
    DocumentParts(d);
    DocumentParts(d.(members := Append(d.members, m)));
  }

  /** Inserting before the closing brace adds a member at the end of the tree. */
  lemma InsertedIsDisabled(d: Document)
    requires DocumentOk(d) && Lookup(d.members, LIVE_RESTORE).None?
    ensures var x := (if d.members.Members? then [COMMA] else []) + MemberBytes(NEW_MEMBER);
            && CloseAt(d) <= |DocumentBytes(d)|
            && DocumentBytes(Disable(d)) == Splice(DocumentBytes(d), CloseAt(d), CloseAt(d), x)
  {
    hide DocumentBytes, MembersBytes, MemberBytes, Splice, Append, MembersOk;
    InsertedMember(d, NEW_MEMBER);
  }

  // ----- The edit preserves meaning -----

  lemma {:induction false} SetFalseMeaning(ms: Members)
    requires MembersOk(ms) && LIVE_RESTORE in Keys(ms)
    ensures KeysOk(SetFalse(ms)) && Meaning(SetFalse(ms)) == Meaning(ms)[LIVE_RESTORE := Bool(false)]
    ensures Others(SetFalse(ms), LIVE_RESTORE) == Others(ms, LIVE_RESTORE)
    ensures SetFalse(SetFalse(ms)) == SetFalse(ms) && Lookup(SetFalse(ms), LIVE_RESTORE) == Some(Bool(false))
  {
    hide MembersHeight;
    SetFalseOk(ms);
    if Decoded(ms.head.key) != LIVE_RESTORE {
      SetFalseMeaning(ms.tail);
    }
  }

  lemma {:induction false} AppendMeaning(ms: Members, m: Member)
    requires MembersOk(ms) && LIVE_RESTORE !in Keys(ms)
    requires MemberOk(m) && Decoded(m.key) == LIVE_RESTORE && m.value == Bool(false)
    ensures var r := Append(ms, m);
            && KeysOk(r) && Meaning(r) == Meaning(ms)[LIVE_RESTORE := Bool(false)]
            && Others(r, LIVE_RESTORE) == Others(ms, LIVE_RESTORE) == Listed(ms)
            && SetFalse(r) == r && Lookup(r, LIVE_RESTORE) == Some(Bool(false))
  {
    hide MemberOk, Decoded, MembersHeight;
    AppendOk(ms, m);
    if ms.Members? {
      AppendMeaning(ms.tail, m);
    }
  }

  /** All members in order. */
  function Listed(ms: Members): seq<Member> {
    match ms
    case NoMembers => []
    case Members(m, _, tail) => [m] + Listed(tail)
  }

  /**
    The temporary configuration is accepted again; only live restore changes its value,
    every other member keeps its bytes and its place, and editing it again changes nothing.
   */
  lemma DisabledKeepsTheRest(original: Bytes)
    requires DisabledConfig(original).Ok?
    ensures var out := DisabledConfig(original).value;
            && ReadDocument(original).Done? && ReadDocument(out).Done?
            && var d, e := ReadDocument(original).value, ReadDocument(out).value;
               && MembersOk(d.members) && MembersOk(e.members)
               && Meaning(e.members) == Meaning(d.members)[LIVE_RESTORE := Bool(false)]
               && Others(e.members, LIVE_RESTORE) == Others(d.members, LIVE_RESTORE)
               && (e.lead, e.gap, e.trail) == (d.lead, d.gap, d.trail)
               && DisabledConfig(out) == Ok(out)
  {
    hide DocumentBytes, ReadDocument, DocumentOk, MembersOk, KeysOk, Disable, Lookup, Meaning, Others;
    DocumentSound(original);
    var d := ReadDocument(original).value;
    DocumentMembersOk(d);
    DisableMeaning(d);
    DocumentComplete(Disable(d));
  }

  lemma DisableMeaning(d: Document)
    requires DocumentOk(d)
    ensures var e := Disable(d);
            && DocumentOk(e) && MembersOk(e.members)
            && Meaning(e.members) == Meaning(d.members)[LIVE_RESTORE := Bool(false)]
            && Others(e.members, LIVE_RESTORE) == Others(d.members, LIVE_RESTORE)
            && Disable(e) == e && Lookup(e.members, LIVE_RESTORE) == Some(Bool(false))
            && (e.lead, e.gap, e.trail) == (d.lead, d.gap, d.trail)
  {
    hide DocumentOk;
    DocumentMembersOk(d);
    DisableOk(d);
    DocumentMembersOk(Disable(d));
    LookupIffKey(d.members, LIVE_RESTORE);
    if Lookup(d.members, LIVE_RESTORE).Some? {
      SetFalseMeaning(d.members);
    } else {
      NewMemberOk();
      AppendMeaning(d.members, NEW_MEMBER);
    }
  }

  lemma DocumentMembersOk(d: Document)
    requires DocumentOk(d)
    ensures MembersOk(d.members) && MembersHeight(d.members) <= DEPTH_LIMIT
  {
  }

  /** The temporary configuration reads as live restore off. */
  lemma DisabledReadsFalse(original: Bytes)
    requires DisabledConfig(original).Ok?
    ensures BooleanField(DisabledConfig(original).value, LIVE_RESTORE) == Ok(Some(false))
  {
    hide DocumentBytes, ReadDocument, DocumentOk;
    DocumentSound(original);
    var d := ReadDocument(original).value;
    DocumentMembersOk(d);
    DisableMeaning(d);
    DocumentComplete(Disable(d));
  }

  /** A configuration that can be edited has a setting that can be read. */
  lemma SettingIsReadable(original: Bytes)
    requires DisabledConfig(original).Ok?
    ensures BooleanField(original, LIVE_RESTORE).Ok?
  {
    hide DocumentBytes, ReadDocument;
  }

  /** Two configurations with the same temporary copy differ in live restore alone. */
  lemma DisabledConfigsAgree(a: Bytes, b: Bytes)
    requires DisabledConfig(a).Ok? && DisabledConfig(a) == DisabledConfig(b)
    ensures var d, e := ReadDocument(a).value, ReadDocument(b).value;
            && ReadDocument(a).Done? && ReadDocument(b).Done? && MembersOk(d.members) && MembersOk(e.members)
            && Others(d.members, LIVE_RESTORE) == Others(e.members, LIVE_RESTORE)
  {
    hide DocumentBytes, ReadDocument, DisabledConfig;
    DisabledKeepsTheRest(a);
    DisabledKeepsTheRest(b);
  }
}
