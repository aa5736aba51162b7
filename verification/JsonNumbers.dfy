/** Numbers (section 6 of RFC 8259): reading and printing are inverse. */
module JsonNumbers {
  import opened Outcomes
  import opened Utf8
  import opened JsonGrammar
  import opened JsonParser
  import opened JsonStrings

  /** What follows cannot be taken for more of a number. */
  predicate Ends(s: Bytes, i: nat) {
    i < |s| ==> !IsDigit(s[i]) && s[i] != DOT && s[i] != 0x65 && s[i] != 0x45
  }

  lemma {:induction false} DigitsSlice(s: Bytes, i: nat)
    requires i <= |s|
    ensures var d := s[i..DigitsEnd(s, i)]; Holds(s, i, d) && forall k | 0 <= k < |d| :: IsDigit(d[k])
    decreases |s| - i
  {
    var e := DigitsEnd(s, i);
    HoldsSlice(s, i, e);
    if i < e {
      DigitsSlice(s, i + 1);
      assert s[i..e] == [s[i]] + s[i + 1..e];
    }
  }

  lemma {:induction false} DigitsEndUnique(s: Bytes, i: nat, d: Bytes)
    requires i <= |s| && Holds(s, i, d) && forall k | 0 <= k < |d| :: IsDigit(d[k])
    requires !DigitAt(s, i + |d|)
    ensures DigitsEnd(s, i) == i + |d|
    decreases |d|
  {
    if d != [] {
      DigitsEndUnique(s, i + 1, d[1..]);
    }
  }

  lemma WholeSound(s: Bytes, i: nat)
    requires ReadWhole(s, i).Done?
    ensures var p := ReadWhole(s, i); WholeOk(p.value) && Holds(s, i, p.value) && p.end == i + |p.value|
  {
    if !At(s, i, ZERO) {
      DigitsSlice(s, i);
    }
  }

  lemma WholeComplete(s: Bytes, i: nat, d: Bytes)
    requires WholeOk(d) && Holds(s, i, d) && !DigitAt(s, i + |d|)
    ensures ReadWhole(s, i) == Done(d, i + |d|)
  {
    if d[0] == ZERO {
      assert d == [ZERO];
    } else {
      DigitsEndUnique(s, i + 1, d[1..]);
      SliceHeld(s, i, d);
    }
  }

  lemma DigitsComplete(s: Bytes, i: nat, d: Bytes)
    requires i <= |s| && DigitsOk(d) && Holds(s, i, d) && !DigitAt(s, i + |d|)
    ensures ReadDigits(s, i) == Done(d, i + |d|)
  {
    DigitsEndUnique(s, i, d);
    SliceHeld(s, i, d);
  }

  lemma FractionSound(s: Bytes, i: nat)
    requires i <= |s| && ReadFraction(s, i).Done?
    ensures var p := ReadFraction(s, i);
            && (p.value.Some? ==> DigitsOk(p.value.value))
            && Holds(s, i, FractionBytes(p.value)) && p.end == i + |FractionBytes(p.value)|
  {
    if At(s, i, DOT) {
      DigitsSlice(s, i + 1);
      var d := ReadFraction(s, i).value.value;
      assert ([DOT] + d)[1..] == d;
    }
  }

  lemma FractionComplete(s: Bytes, i: nat, f: Option<Bytes>)
    requires i <= |s| && (f.Some? ==> DigitsOk(f.value)) && Holds(s, i, FractionBytes(f))
    requires var e := i + |FractionBytes(f)|; !DigitAt(s, e) && !At(s, e, DOT)
    ensures ReadFraction(s, i) == Done(f, i + |FractionBytes(f)|)
  {
    if f.Some? {
      HoldsAppend(s, i, [DOT], f.value);
      DigitsComplete(s, i + 1, f.value);
    }
  }

  lemma ExponentSound(s: Bytes, i: nat)
    requires i <= |s| && ReadExponent(s, i).Done?
    ensures var p := ReadExponent(s, i);
            && (p.value.Some? ==> ExponentOk(p.value.value))
            && Holds(s, i, ExponentBytes(p.value)) && p.end == i + |ExponentBytes(p.value)|
  {
    if At(s, i, 0x65) || At(s, i, 0x45) {
      var k := SignEnd(s, i + 1);
      var e := ReadExponent(s, i).value.value;
      DigitsSlice(s, k);
      HoldsSlice(s, i + 1, k);
      HoldsAppend(s, i, [e.letter], e.sign);
      HoldsAppend(s, i, [e.letter] + e.sign, e.digits);
    }
  }

  lemma SignComplete(s: Bytes, i: nat, x: Exponent)
    requires ExponentOk(x) && Holds(s, i, x.sign) && Holds(s, i + |x.sign|, x.digits)
    ensures SignEnd(s, i) == i + |x.sign|
  {
    HoldsAt(s, i + |x.sign|, x.digits, 0);
    if x.sign != [] {
      HoldsAt(s, i, x.sign, 0);
    }
  }

  lemma ExponentPresent(s: Bytes, i: nat, x: Exponent)
    requires ExponentOk(x) && At(s, i, x.letter) && !DigitAt(s, i + |ExponentBytes(Some(x))|)
    requires Holds(s, i + 1, x.sign) && Holds(s, i + 1 + |x.sign|, x.digits)
    ensures ReadExponent(s, i) == Done(Some(x), i + |ExponentBytes(Some(x))|)
  {
    SliceHeld(s, i + 1, x.sign);
    SignComplete(s, i + 1, x);
    DigitsComplete(s, i + 1 + |x.sign|, x.digits);
  }

  lemma ExponentComplete(s: Bytes, i: nat, e: Option<Exponent>)
    requires i <= |s| && (e.Some? ==> ExponentOk(e.value)) && Holds(s, i, ExponentBytes(e))
    requires Ends(s, i + |ExponentBytes(e)|)
    ensures ReadExponent(s, i) == Done(e, i + |ExponentBytes(e)|)
  {
    if e.Some? {
      var x := e.value;
      HoldsAppend(s, i, [x.letter] + x.sign, x.digits);
      HoldsAppend(s, i, [x.letter], x.sign);
      ExponentPresent(s, i, x);
    }
  }

  function SignBytes(minus: bool): Bytes {
    if minus then [MINUS] else []
  }

  lemma HoldsNumber(s: Bytes, i: nat, n: Number)
    ensures var i0 := i + |SignBytes(n.minus)|;
            var i1 := i0 + |n.whole|;
            var i2 := i1 + |FractionBytes(n.fraction)|;
            && |NumberBytes(n)| == i2 + |ExponentBytes(n.exponent)| - i
            && (Holds(s, i, NumberBytes(n)) <==>
                && Holds(s, i, SignBytes(n.minus)) && Holds(s, i0, n.whole)
                && Holds(s, i1, FractionBytes(n.fraction)) && Holds(s, i2, ExponentBytes(n.exponent)))
  {
    hide FractionBytes, ExponentBytes, Holds;
    var a := SignBytes(n.minus);
    HoldsAppend(s, i, a + n.whole + FractionBytes(n.fraction), ExponentBytes(n.exponent));
    HoldsAppend(s, i, a + n.whole, FractionBytes(n.fraction));
    HoldsAppend(s, i, a, n.whole);
  }

  lemma NumberSound(s: Bytes, i: nat)
    requires ReadNumber(s, i).Done?
    ensures var p := ReadNumber(s, i);
            NumberOk(p.value) && Holds(s, i, NumberBytes(p.value)) && p.end == i + |NumberBytes(p.value)|
  {
    hide ReadWhole, ReadFraction, ReadExponent, FractionBytes, ExponentBytes, NumberBytes, WholeOk, DigitsOk,
         ExponentOk;
    var n := ReadNumber(s, i).value;
    var i0 := i + |SignBytes(n.minus)|;
    WholeSound(s, i0);
    var i1 := ReadWhole(s, i0).end;
    FractionSound(s, i1);
    ExponentSound(s, ReadFraction(s, i1).end);
    HoldsNumber(s, i, n);
  }

  lemma MinusOrDigit(s: Bytes, i: nat, n: Number)
    requires NumberOk(n) && Holds(s, i, SignBytes(n.minus)) && Holds(s, i + |SignBytes(n.minus)|, n.whole)
    ensures At(s, i, MINUS) == n.minus
  {
    HoldsAt(s, i + |SignBytes(n.minus)|, n.whole, 0);
    if n.minus {
      HoldsAt(s, i, SignBytes(true), 0);
    }
  }

  lemma NumberParts(s: Bytes, i: nat, n: Number, i1: nat, i2: nat, i3: nat)
    requires At(s, i, MINUS) == n.minus
    requires ReadWhole(s, if n.minus then i + 1 else i) == Done(n.whole, i1)
    requires ReadFraction(s, i1) == Done(n.fraction, i2)
    requires ReadExponent(s, i2) == Done(n.exponent, i3)
    ensures ReadNumber(s, i) == Done(n, i3)
  {
    hide ReadWhole, ReadFraction, ReadExponent;
  }

  lemma NumberComplete(s: Bytes, i: nat, n: Number)
    requires NumberOk(n) && Holds(s, i, NumberBytes(n)) && i <= |s| && Ends(s, i + |NumberBytes(n)|)
    ensures ReadNumber(s, i) == Done(n, i + |NumberBytes(n)|)
  {
    hide ReadNumber, ReadWhole, ReadFraction, ReadExponent, NumberBytes, Holds, WholeOk, DigitsOk, ExponentOk, Ends,
      FractionBytes, ExponentBytes, DigitAt;
    HoldsNumber(s, i, n);
    var i0 := i + |SignBytes(n.minus)|;
    var i1 := i0 + |n.whole|;
    var i2 := i1 + |FractionBytes(n.fraction)|;
    SliceHeld(s, i, NumberBytes(n));
    AfterWhole(s, i1, n);
    WholeComplete(s, i0, n.whole);
    FractionComplete(s, i1, n.fraction);
    ExponentComplete(s, i2, n.exponent);
    MinusOrDigit(s, i, n);
    NumberParts(s, i, n, i1, i2, i + |NumberBytes(n)|);
  }

  lemma AfterWhole(s: Bytes, i1: nat, n: Number)
    requires NumberOk(n)
    requires var i2 := i1 + |FractionBytes(n.fraction)|;
             && Holds(s, i1, FractionBytes(n.fraction)) && Holds(s, i2, ExponentBytes(n.exponent))
             && Ends(s, i2 + |ExponentBytes(n.exponent)|)
    ensures !DigitAt(s, i1)
    ensures var i2 := i1 + |FractionBytes(n.fraction)|; !DigitAt(s, i2) && !At(s, i2, DOT)
  {
    if n.exponent.Some? {
      HoldsAt(s, i1 + |FractionBytes(n.fraction)|, ExponentBytes(n.exponent), 0);
    }
    if n.fraction.Some? {
      HoldsAt(s, i1, FractionBytes(n.fraction), 0);
    }
  }
}
