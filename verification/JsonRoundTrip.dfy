/**
  Reading and printing JSON texts are inverse: what the reader accepts is the
  printed form of the tree it returns, and every tree of the grammar is read back
  from its printed form.
 */
module JsonRoundTrip {
  import opened Utf8
  import opened JsonGrammar
  import opened JsonParser
  import opened JsonStrings
  import opened JsonNumbers

  // ----- Where the parts of a text are -----

  lemma HoldsBracketed(s: Bytes, i: nat, open: Byte, gap: Bytes, body: Bytes, close: Byte)
    ensures Holds(s, i, [open] + gap + body + [close])
            <==> At(s, i, open) && Holds(s, i + 1, gap) && Holds(s, i + 1 + |gap|, body)
                 && At(s, i + 1 + |gap| + |body|, close)
  {
    hide Holds;
    HoldsAppend(s, i, [open] + gap + body, [close]);
    HoldsAppend(s, i, [open] + gap, body);
    HoldsAppend(s, i, [open], gap);
    HoldsByte(s, i, open);
    HoldsByte(s, i + 1 + |gap| + |body|, close);
  }

  lemma HoldsMember(s: Bytes, i: nat, m: Member)
    ensures var i1 := i + |Quoted(m.key)|;
            var i2 := i1 + |m.beforeColon|;
            var i3 := i2 + 1 + |m.afterColon|;
            var i4 := i3 + |JsonBytes(m.value)|;
            && |MemberBytes(m)| == i4 + |m.after| - i
            && (Holds(s, i, MemberBytes(m)) <==>
                && Holds(s, i, Quoted(m.key)) && Holds(s, i1, m.beforeColon) && At(s, i2, COLON)
                && Holds(s, i2 + 1, m.afterColon) && Holds(s, i3, JsonBytes(m.value)) && Holds(s, i4, m.after))
  {
    hide Quoted, JsonBytes, Holds;
    var a := Quoted(m.key) + m.beforeColon;
    HoldsAppend(s, i, a + [COLON] + m.afterColon + JsonBytes(m.value), m.after);
    HoldsAppend(s, i, a + [COLON] + m.afterColon, JsonBytes(m.value));
    HoldsAppend(s, i, a + [COLON], m.afterColon);
    HoldsAppend(s, i, a, [COLON]);
    HoldsAppend(s, i, Quoted(m.key), m.beforeColon);
    HoldsByte(s, i + |a|, COLON);
  }

  lemma HoldsTail(s: Bytes, i: nat, head: Bytes, gap: Bytes, tail: Bytes)
    ensures Holds(s, i, head + ([COMMA] + gap + tail))
            <==> && Holds(s, i, head) && At(s, i + |head|, COMMA)
                 && Holds(s, i + |head| + 1, gap) && Holds(s, i + |head| + 1 + |gap|, tail)
  {
    hide Holds;
    HoldsAppend(s, i, head, [COMMA] + gap + tail);
    HoldsAppend(s, i + |head|, [COMMA] + gap, tail);
    HoldsAppend(s, i + |head|, [COMMA], gap);
    HoldsByte(s, i + |head|, COMMA);
  }

  /** One member, then either nothing or a comma and more members. */
  lemma HoldsMembers(s: Bytes, i: nat, ms: Members)
    requires ms.Members?
    ensures var i1 := i + |MemberBytes(ms.head)|;
            var i2 := i1 + 1 + |ms.gap|;
            && |MembersBytes(ms)| == (if ms.tail.NoMembers? then i1 else i2 + |MembersBytes(ms.tail)|) - i
            && (Holds(s, i, MembersBytes(ms)) <==>
                && Holds(s, i, MemberBytes(ms.head))
                && (ms.tail.Members? ==>
                    At(s, i1, COMMA) && Holds(s, i1 + 1, ms.gap) && Holds(s, i2, MembersBytes(ms.tail))))
  {
    hide MemberBytes, Holds;
    if ms.tail.NoMembers? {
      assert MembersBytes(ms) == MemberBytes(ms.head);
    } else {
      assert MembersBytes(ms) == MemberBytes(ms.head) + ([COMMA] + ms.gap + MembersBytes(ms.tail));
      HoldsTail(s, i, MemberBytes(ms.head), ms.gap, MembersBytes(ms.tail));
    }
  }

  lemma HoldsElements(s: Bytes, i: nat, es: Elements)
    requires es.Elements?
    ensures var i1 := i + |ElementBytes(es.head)|;
            var i2 := i1 + 1 + |es.gap|;
            && |ElementsBytes(es)| == (if es.tail.NoElements? then i1 else i2 + |ElementsBytes(es.tail)|) - i
            && (Holds(s, i, ElementsBytes(es)) <==>
                && Holds(s, i, ElementBytes(es.head))
                && (es.tail.Elements? ==>
                    At(s, i1, COMMA) && Holds(s, i1 + 1, es.gap) && Holds(s, i2, ElementsBytes(es.tail))))
  {
    hide ElementBytes, Holds;
    if es.tail.NoElements? {
      assert ElementsBytes(es) == ElementBytes(es.head);
    } else {
      assert ElementsBytes(es) == ElementBytes(es.head) + ([COMMA] + es.gap + ElementsBytes(es.tail));
      HoldsTail(s, i, ElementBytes(es.head), es.gap, ElementsBytes(es.tail));
    }
  }

  // ----- Soundness -----

  lemma Gap(s: Bytes, i: nat)
    requires i <= |s|
    ensures var e := WsEnd(s, i); WsOk(s[i..e]) && Holds(s, i, s[i..e])
  {
    WsSlice(s, i);
    HoldsSlice(s, i, WsEnd(s, i));
  }

  lemma {:induction false} ArraySound(s: Bytes, i: nat, depth: nat)
    requires ReadArray(s, i, depth).Done?
    ensures var p := ReadArray(s, i, depth);
            var end := i + |ElementsBytes(p.value)|;
            && ElementsOk(p.value) && Holds(s, i, ElementsBytes(p.value))
            && At(s, end, CLOSE_BRACKET) && p.end == end + 1
            && (depth <= DEPTH_LIMIT + 1 ==> depth + ElementsHeight(p.value) <= DEPTH_LIMIT + 1)
    decreases |s| - i, 4
  {
    hide WsEnd, ReadElements;
    if !At(s, i, CLOSE_BRACKET) {
      ElementsSound(s, i, depth);
    }
  }

  lemma {:induction false} ObjectSound(s: Bytes, i: nat, depth: nat)
    requires ReadObject(s, i, depth).Done?
    ensures var p := ReadObject(s, i, depth);
            var end := i + |MembersBytes(p.value)|;
            && MembersOk(p.value) && Holds(s, i, MembersBytes(p.value))
            && At(s, end, CLOSE_BRACE) && p.end == end + 1
            && (depth <= DEPTH_LIMIT + 1 ==> depth + MembersHeight(p.value) <= DEPTH_LIMIT + 1)
    decreases |s| - i, 4
  {
    hide WsEnd, ReadMembers;
    if !At(s, i, CLOSE_BRACE) {
      MembersSound(s, i, depth, {});
    }
  }

  /** An accepted value is a value of the grammar, and reading it ends exactly at its end. */
  lemma {:induction false} ValueSound(s: Bytes, i: nat, depth: nat)
    requires ReadValue(s, i, depth).Done?
    ensures var p := ReadValue(s, i, depth);
            && JsonOk(p.value) && Holds(s, i, JsonBytes(p.value)) && p.end == i + |JsonBytes(p.value)|
            && depth + Height(p.value) <= DEPTH_LIMIT + 1
    decreases |s| - i, 1
  {
    hide WsEnd, ReadString, ReadNumber, ReadArray, ReadObject, TextOk, NumberOk, Quoted, NumberBytes, Holds, WsOk,
      ElementsBytes, ElementsOk, MembersBytes, MembersOk;
    match ReadValue(s, i, depth).value
    case Text(_) => StringSound(s, i);
    case Numeral(_) => NumberSound(s, i);
    case Bool(_) =>
    case Null =>
    case Array(gap, es) =>
      Gap(s, i + 1);
      ArraySound(s, WsEnd(s, i + 1), depth + 1);
      HoldsBracketed(s, i, OPEN_BRACKET, gap, ElementsBytes(es), CLOSE_BRACKET);
    case Object(gap, ms) =>
      Gap(s, i + 1);
      ObjectSound(s, WsEnd(s, i + 1), depth + 1);
      HoldsBracketed(s, i, OPEN_BRACE, gap, MembersBytes(ms), CLOSE_BRACE);
  }

  lemma {:induction false} ElementSound(s: Bytes, i: nat, depth: nat)
    requires ReadElement(s, i, depth).Done?
    ensures var p := ReadElement(s, i, depth);
            && ElementOk(p.value) && Holds(s, i, ElementBytes(p.value)) && p.end == i + |ElementBytes(p.value)|
            && depth + Height(p.value.value) <= DEPTH_LIMIT + 1
    decreases |s| - i, 2
  {
    hide WsEnd, ReadValue, JsonBytes, JsonOk, WsOk, Height, Holds;
    ValueSound(s, i, depth);
    var p := ReadElement(s, i, depth).value;
    Gap(s, ReadValue(s, i, depth).end);
    HoldsAppend(s, i, JsonBytes(p.value), p.after);
  }

  lemma {:induction false} ElementsSound(s: Bytes, i: nat, depth: nat)
    requires ReadElements(s, i, depth).Done?
    ensures var p := ReadElements(s, i, depth);
            var end := i + |ElementsBytes(p.value)|;
            && ElementsOk(p.value) && Holds(s, i, ElementsBytes(p.value))
            && At(s, end, CLOSE_BRACKET) && p.end == end + 1
            && depth + ElementsHeight(p.value) <= DEPTH_LIMIT + 1
    decreases |s| - i, 3
  {
    hide WsEnd, ReadElement, ElementBytes, ElementsBytes, ElementOk, Height, Holds;
    ElementSound(s, i, depth);
    var end := ReadElement(s, i, depth).end;
    if At(s, end, COMMA) {
      Gap(s, end + 1);
      ElementsSound(s, WsEnd(s, end + 1), depth);
    }
    HoldsElements(s, i, ReadElements(s, i, depth).value);
  }

  lemma {:induction false} MemberSound(s: Bytes, i: nat, depth: nat, seen: set<seq<Scalar>>)
    requires ReadMember(s, i, depth, seen).Done?
    ensures var p := ReadMember(s, i, depth, seen);
            && MemberOk(p.value) && Holds(s, i, MemberBytes(p.value)) && p.end == i + |MemberBytes(p.value)|
            && Decoded(p.value.key) !in seen && depth + Height(p.value.value) <= DEPTH_LIMIT + 1
    decreases |s| - i, 2
  {
    hide WsEnd, ReadValue, ReadString, JsonBytes, MemberBytes, JsonOk, TextOk, WsOk, Height, Holds, Quoted, Denotes,
         Decoded;
    StringSound(s, i);
    var i1 := ReadString(s, i).end;
    Gap(s, i1);
    var i2 := WsEnd(s, i1);
    Gap(s, i2 + 1);
    var i3 := WsEnd(s, i2 + 1);
    ValueSound(s, i3, depth);
    Gap(s, ReadValue(s, i3, depth).end);
    HoldsMember(s, i, ReadMember(s, i, depth, seen).value);
  }

  lemma {:induction false} MembersSound(s: Bytes, i: nat, depth: nat, seen: set<seq<Scalar>>)
    requires ReadMembers(s, i, depth, seen).Done?
    ensures var p := ReadMembers(s, i, depth, seen);
            var end := i + |MembersBytes(p.value)|;
            && MembersOk(p.value) && Holds(s, i, MembersBytes(p.value))
            && At(s, end, CLOSE_BRACE) && p.end == end + 1
            && Keys(p.value) !! seen && depth + MembersHeight(p.value) <= DEPTH_LIMIT + 1
    decreases |s| - i, 3
  {
    hide WsEnd, ReadMember, MemberBytes, MembersBytes, MemberOk, Height, Holds, Decoded;
    MemberSound(s, i, depth, seen);
    var m := ReadMember(s, i, depth, seen);
    if At(s, m.end, COMMA) {
      Gap(s, m.end + 1);
      MembersSound(s, WsEnd(s, m.end + 1), depth, seen + {Decoded(m.value.key)});
    }
    HoldsMembers(s, i, ReadMembers(s, i, depth, seen).value);
  }

  /** What the reader accepts is the printed form of the tree it returns. */
  lemma DocumentSound(s: Bytes)
    requires ReadDocument(s).Done?
    ensures var d := ReadDocument(s).value; DocumentOk(d) && DocumentBytes(d) == s
  {
    hide WsEnd, ReadObject, MembersOk, MembersBytes, MembersHeight, Holds, DocumentBytes, WsOk;
    var d := ReadDocument(s).value;
    Gap(s, 0);
    var i := WsEnd(s, 0);
    Gap(s, i + 1);
    var k := WsEnd(s, i + 1);
    ObjectSound(s, k, 1);
    var end := ReadObject(s, k, 1).end;
    Gap(s, end);
    assert s[..i] == s[0..i] && s[end..] == s[end..|s|];
    HoldsDocument(s, d);
    SliceHeld(s, 0, DocumentBytes(d));
  }

  lemma HoldsDocument(s: Bytes, d: Document)
    ensures var i := |d.lead|;
            var k := i + 1 + |d.gap|;
            var end := k + |MembersBytes(d.members)|;
            && |DocumentBytes(d)| == end + 1 + |d.trail|
            && (Holds(s, 0, DocumentBytes(d)) <==>
                && Holds(s, 0, d.lead) && At(s, i, OPEN_BRACE) && Holds(s, i + 1, d.gap)
                && Holds(s, k, MembersBytes(d.members)) && At(s, end, CLOSE_BRACE) && Holds(s, end + 1, d.trail))
  {
    hide WsEnd, Holds, MembersBytes;
    var b := [OPEN_BRACE] + d.gap + MembersBytes(d.members) + [CLOSE_BRACE];
    assert DocumentBytes(d) == d.lead + b + d.trail;
    HoldsAppend(s, 0, d.lead + b, d.trail);
    HoldsAppend(s, 0, d.lead, b);
    HoldsBracketed(s, |d.lead|, OPEN_BRACE, d.gap, MembersBytes(d.members), CLOSE_BRACE);
  }

  // ----- Completeness -----

  /** A value starts with something other than white space and a closing bracket. */
  lemma ValueStart(s: Bytes, i: nat, v: JsonValue)
    requires JsonOk(v) && Holds(s, i, JsonBytes(v))
    ensures i < |s| && !IsWs(s[i]) && s[i] != CLOSE_BRACKET
  {
    hide WsEnd, TextBytes, MembersBytes, ElementsBytes, ElementsOk, MembersOk, TextOk, FractionBytes, ExponentBytes,
         ExponentOk;
    HoldsAt(s, i, JsonBytes(v), 0);
  }

  /** Between a value and the comma or bracket after it there is only white space. */
  lemma AfterValue(s: Bytes, i: nat, w: Bytes)
    requires WsOk(w) && Holds(s, i, w) && i <= |s|
    requires var e := i + |w|; At(s, e, COMMA) || At(s, e, CLOSE_BRACKET) || At(s, e, CLOSE_BRACE)
    ensures Ends(s, i) && WsEnd(s, i) == i + |w| && s[i..i + |w|] == w
  {
    WsEndUnique(s, i, w);
    SliceHeld(s, i, w);
  }

  lemma SkipGap(s: Bytes, i: nat, w: Bytes)
    requires WsOk(w) && Holds(s, i, w) && i + |w| < |s| && !IsWs(s[i + |w|])
    ensures WsEnd(s, i) == i + |w| && s[i..i + |w|] == w
  {
    WsEndUnique(s, i, w);
    SliceHeld(s, i, w);
  }

  /** The scalars among the values. */
  lemma ScalarComplete(s: Bytes, i: nat, v: JsonValue, depth: nat)
    requires JsonOk(v) && Holds(s, i, JsonBytes(v)) && i <= |s| && Ends(s, i + |JsonBytes(v)|)
    requires depth + Height(v) <= DEPTH_LIMIT + 1 && !v.Array? && !v.Object?
    ensures ReadValue(s, i, depth) == Done(v, i + |JsonBytes(v)|)
  {
    hide WsEnd, ReadString, ReadNumber, ReadArray, ReadObject, TextOk, NumberOk, NumberBytes, Quoted, Ends;
    match v
    case Text(ps) =>
      StringComplete(s, i, ps);
      TextStart(s, i, ps);
    case Numeral(n) =>
      NumberComplete(s, i, n);
      NumberStart(s, i, n);
    case Bool(_) =>
      HoldsAt(s, i, JsonBytes(v), 0);
    case Null =>
      HoldsAt(s, i, JsonBytes(v), 0);
  }

  lemma ArrayShape(s: Bytes, i: nat, gap: Bytes, es: Elements)
    requires JsonOk(Array(gap, es)) && Holds(s, i, JsonBytes(Array(gap, es)))
    ensures At(s, i, OPEN_BRACKET) && Holds(s, i + 1, gap) && Holds(s, i + 1 + |gap|, ElementsBytes(es))
    ensures At(s, i + 1 + |gap| + |ElementsBytes(es)|, CLOSE_BRACKET) && WsOk(gap) && ElementsOk(es)
    ensures |JsonBytes(Array(gap, es))| == |gap| + |ElementsBytes(es)| + 2
    ensures ElementsHeight(es) + 1 <= Height(Array(gap, es))
  {
    hide Holds, ElementsBytes, ElementsOk, WsOk;
    HoldsBracketed(s, i, OPEN_BRACKET, gap, ElementsBytes(es), CLOSE_BRACKET);
  }

  lemma ObjectShape(s: Bytes, i: nat, gap: Bytes, ms: Members)
    requires JsonOk(Object(gap, ms)) && Holds(s, i, JsonBytes(Object(gap, ms)))
    ensures At(s, i, OPEN_BRACE) && Holds(s, i + 1, gap) && Holds(s, i + 1 + |gap|, MembersBytes(ms))
    ensures At(s, i + 1 + |gap| + |MembersBytes(ms)|, CLOSE_BRACE) && WsOk(gap) && MembersOk(ms)
    ensures |JsonBytes(Object(gap, ms))| == |gap| + |MembersBytes(ms)| + 2
    ensures MembersHeight(ms) + 1 <= Height(Object(gap, ms))
  {
    hide Holds, MembersBytes, MembersOk, WsOk;
    HoldsBracketed(s, i, OPEN_BRACE, gap, MembersBytes(ms), CLOSE_BRACE);
  }

  lemma ArrayRead(s: Bytes, i: nat, depth: nat)
    requires depth <= DEPTH_LIMIT && At(s, i, OPEN_BRACKET)
    ensures var k := WsEnd(s, i + 1); var p := ReadArray(s, k, depth + 1);
            p.Done? ==> k <= |s| && ReadValue(s, i, depth) == Done(Array(s[i + 1..k], p.value), p.end)
  {
    hide WsEnd, ReadArray;
  }

  lemma ObjectRead(s: Bytes, i: nat, depth: nat)
    requires depth <= DEPTH_LIMIT && At(s, i, OPEN_BRACE)
    ensures var k := WsEnd(s, i + 1); var p := ReadObject(s, k, depth + 1);
            p.Done? ==> k <= |s| && ReadValue(s, i, depth) == Done(Object(s[i + 1..k], p.value), p.end)
  {
    hide WsEnd, ReadObject;
  }

  /** Every value of the grammar is read back from its printed form, up to its last byte. */
  lemma {:induction false} ValueComplete(s: Bytes, i: nat, v: JsonValue, depth: nat)
    requires JsonOk(v) && Holds(s, i, JsonBytes(v)) && i <= |s| && Ends(s, i + |JsonBytes(v)|)
    requires depth + Height(v) <= DEPTH_LIMIT + 1
    ensures ReadValue(s, i, depth) == Done(v, i + |JsonBytes(v)|)
    decreases v, 1
  {
    hide ReadValue, JsonBytes, JsonOk, Holds, Height, Ends, WsEnd, ReadArray, ReadObject, ElementsBytes, MembersBytes,
      ElementsOk, MembersOk, WsOk, ElementsHeight, MembersHeight;
    if v.Array? {
      var k := i + 1 + |v.gap|;
      ArrayShape(s, i, v.gap, v.elements);
      ArrayComplete(s, k, v.elements, depth + 1);
      SkipGap(s, i + 1, v.gap);
      ArrayRead(s, i, depth);
    } else if v.Object? {
      var k := i + 1 + |v.gap|;
      ObjectShape(s, i, v.gap, v.members);
      ObjectComplete(s, k, v.members, depth + 1);
      SkipGap(s, i + 1, v.gap);
      ObjectRead(s, i, depth);
    } else {
      ScalarComplete(s, i, v, depth);
    }
  }

  lemma TextStart(s: Bytes, i: nat, ps: Pieces)
    requires Holds(s, i, Quoted(ps))
    ensures At(s, i, QUOTE)
  {
    hide WsEnd, TextBytes;
    HoldsAt(s, i, Quoted(ps), 0);
  }

  lemma NumberStart(s: Bytes, i: nat, n: Number)
    requires NumberOk(n) && Holds(s, i, NumberBytes(n))
    ensures At(s, i, MINUS) || DigitAt(s, i)
  {
    hide WsEnd, FractionBytes, ExponentBytes, ExponentOk;
    HoldsAt(s, i, NumberBytes(n), 0);
  }

  lemma {:induction false} ArrayComplete(s: Bytes, i: nat, es: Elements, depth: nat)
    requires ElementsOk(es) && Holds(s, i, ElementsBytes(es)) && At(s, i + |ElementsBytes(es)|, CLOSE_BRACKET)
    requires depth + ElementsHeight(es) <= DEPTH_LIMIT + 1
    ensures ReadArray(s, i, depth) == Done(es, i + |ElementsBytes(es)| + 1) && i < |s| && !IsWs(s[i])
    decreases es, 2
  {
    hide WsEnd, ReadElements, WsOk, Holds;
    if es.Elements? {
      ElementsStart(s, i, es);
      ElementsComplete(s, i, es, depth);
    }
  }

  lemma {:induction false} ObjectComplete(s: Bytes, i: nat, ms: Members, depth: nat)
    requires MembersOk(ms) && Holds(s, i, MembersBytes(ms)) && At(s, i + |MembersBytes(ms)|, CLOSE_BRACE)
    requires depth + MembersHeight(ms) <= DEPTH_LIMIT + 1
    ensures ReadObject(s, i, depth) == Done(ms, i + |MembersBytes(ms)| + 1) && i < |s| && !IsWs(s[i])
    decreases ms, 2
  {
    hide WsEnd, ReadMembers, WsOk, Holds;
    if ms.Members? {
      MembersStart(s, i, ms);
      MembersComplete(s, i, ms, depth, {});
    }
  }

  lemma ElementsStart(s: Bytes, i: nat, es: Elements)
    requires es.Elements? && ElementsOk(es) && Holds(s, i, ElementsBytes(es))
    ensures i < |s| && !IsWs(s[i]) && s[i] != CLOSE_BRACKET
  {
    hide WsEnd, JsonBytes, Holds, ElementsBytes, JsonOk, WsOk;
    HoldsElements(s, i, es);
    HoldsAppend(s, i, JsonBytes(es.head.value), es.head.after);
    ValueStart(s, i, es.head.value);
  }

  lemma MembersStart(s: Bytes, i: nat, ms: Members)
    requires ms.Members? && Holds(s, i, MembersBytes(ms))
    ensures At(s, i, QUOTE)
  {
    hide WsEnd, JsonBytes, Holds, MembersBytes, MemberBytes, Quoted;
    HoldsMembers(s, i, ms);
    HoldsMember(s, i, ms.head);
    TextStart(s, i, ms.head.key);
  }

  lemma {:induction false} ElementComplete(s: Bytes, i: nat, e: Element, depth: nat)
    requires ElementOk(e) && Holds(s, i, ElementBytes(e)) && i <= |s|
    requires var end := i + |ElementBytes(e)|; At(s, end, COMMA) || At(s, end, CLOSE_BRACKET)
    requires depth + Height(e.value) <= DEPTH_LIMIT + 1
    ensures ReadElement(s, i, depth) == Done(e, i + |ElementBytes(e)|)
    decreases e, 2
  {
    hide WsEnd, ReadValue, JsonBytes, JsonOk, WsOk, Height, Holds, Ends;
    HoldsAppend(s, i, JsonBytes(e.value), e.after);
    var i1 := i + |JsonBytes(e.value)|;
    AfterValue(s, i1, e.after);
    ValueComplete(s, i, e.value, depth);
  }

  lemma {:induction false} ElementsComplete(s: Bytes, i: nat, es: Elements, depth: nat)
    requires ElementsOk(es) && es.Elements? && Holds(s, i, ElementsBytes(es)) && i <= |s|
    requires At(s, i + |ElementsBytes(es)|, CLOSE_BRACKET)
    requires depth + ElementsHeight(es) <= DEPTH_LIMIT + 1
    ensures ReadElements(s, i, depth) == Done(es, i + |ElementsBytes(es)| + 1)
    decreases es, 1
  {
    hide WsEnd, ReadElement, ElementBytes, ElementsBytes, ElementOk, WsOk, Height, Holds;
    HoldsElements(s, i, es);
    ElementComplete(s, i, es.head, depth);
    var i1 := i + |ElementBytes(es.head)|;
    if es.tail.Elements? {
      ElementsStart(s, i1 + 1 + |es.gap|, es.tail);
      SkipGap(s, i1 + 1, es.gap);
      ElementsComplete(s, i1 + 1 + |es.gap|, es.tail, depth);
    }
  }

  lemma {:induction false} MemberComplete(s: Bytes, i: nat, m: Member, depth: nat, seen: set<seq<Scalar>>)
    requires MemberOk(m) && Holds(s, i, MemberBytes(m)) && i <= |s| && Decoded(m.key) !in seen
    requires var end := i + |MemberBytes(m)|; At(s, end, COMMA) || At(s, end, CLOSE_BRACE)
    requires depth + Height(m.value) <= DEPTH_LIMIT + 1
    ensures ReadMember(s, i, depth, seen) == Done(m, i + |MemberBytes(m)|)
    decreases m, 2
  {
    hide WsEnd, ReadValue, ReadString, JsonBytes, JsonOk, TextOk, WsOk, Height, Holds, Ends, Quoted, MemberBytes,
         Decoded;
    HoldsMember(s, i, m);
    StringComplete(s, i, m.key);
    var i1 := i + |Quoted(m.key)|;
    var i2 := i1 + |m.beforeColon|;
    SkipGap(s, i1, m.beforeColon);
    var i3 := i2 + 1 + |m.afterColon|;
    ValueStart(s, i3, m.value);
    SkipGap(s, i2 + 1, m.afterColon);
    SliceHeld(s, i3, JsonBytes(m.value));
    AfterValue(s, i3 + |JsonBytes(m.value)|, m.after);
    ValueComplete(s, i3, m.value, depth);
  }

  lemma {:induction false} MembersComplete(s: Bytes, i: nat, ms: Members, depth: nat, seen: set<seq<Scalar>>)
    requires MembersOk(ms) && ms.Members? && Holds(s, i, MembersBytes(ms)) && i <= |s|
    requires At(s, i + |MembersBytes(ms)|, CLOSE_BRACE) && Keys(ms) !! seen
    requires depth + MembersHeight(ms) <= DEPTH_LIMIT + 1
    ensures ReadMembers(s, i, depth, seen) == Done(ms, i + |MembersBytes(ms)| + 1)
    decreases ms, 1
  {
    hide WsEnd, ReadMember, MemberBytes, MembersBytes, MemberOk, WsOk, Height, Holds, Decoded;
    HoldsMembers(s, i, ms);
    MemberComplete(s, i, ms.head, depth, seen);
    var i1 := i + |MemberBytes(ms.head)|;
    if ms.tail.Members? {
      MembersStart(s, i1 + 1 + |ms.gap|, ms.tail);
      SkipGap(s, i1 + 1, ms.gap);
      MembersComplete(s, i1 + 1 + |ms.gap|, ms.tail, depth, seen + {Decoded(ms.head.key)});
    }
  }

  /** Every tree of the grammar is read back from its printed form. */
  lemma DocumentComplete(d: Document)
    requires DocumentOk(d)
    ensures ReadDocument(DocumentBytes(d)) == Done(d, |DocumentBytes(d)|)
  {
    hide WsEnd, ReadObject, MembersOk, MembersBytes, MembersHeight, Holds, DocumentBytes, WsOk;
    var s := DocumentBytes(d);
    HoldsSlice(s, 0, |s|);
    assert s[0..|s|] == s;
    HoldsDocument(s, d);
    var i := |d.lead|;
    var k := i + 1 + |d.gap|;
    SkipGap(s, 0, d.lead);
    ObjectComplete(s, k, d.members, 1);
    SkipGap(s, i + 1, d.gap);
    var end := k + |MembersBytes(d.members)| + 1;
    WsEndUnique(s, end, d.trail);
    SliceHeld(s, end, d.trail);
    assert s[end..] == s[end..|s|] && s[..i] == s[0..i];
  }

  /**
    The reader accepts exactly the grammar: a text is accepted, with this tree, if and
    only if it is the printed form of this tree and the tree is legal.
   */
  lemma AcceptedIffPrinted(s: Bytes, d: Document)
    ensures ReadDocument(s) == Done(d, |s|) <==> DocumentOk(d) && DocumentBytes(d) == s
  {
    hide WsEnd, DocumentOk, DocumentBytes;
    if ReadDocument(s) == Done(d, |s|) {
      DocumentSound(s);
    }
    if DocumentOk(d) && DocumentBytes(d) == s {
      DocumentComplete(d);
    }
  }
}
