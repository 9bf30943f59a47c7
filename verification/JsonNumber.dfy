/**
  Numbers as section 6 of RFC 8259 writes them, part by part, and the automaton that
  reads them: it accepts exactly these texts.
*/
module JsonNumber {
  import opened Common
  import opened TemplateVocabulary
  import opened JsonText

  /** One digit or more. */
  predicate AreDigits(t: Text) {
    t != [] && forall i | 0 <= i < |t| :: IsDigit(t[i])
  }

  /** `int`: zero alone, or digits that do not start with zero. */
  predicate IsInt(t: Text) {
    t == [0x30] || (AreDigits(t) && t[0] != 0x30)
  }

  /** `[ minus ] int` */
  ghost predicate IsSigned(t: Text) {
    IsInt(t) || (t != [] && t[0] == 0x2D && IsInt(t[1..]))
  }

  /** `[ minus ] int frac` */
  ghost predicate HasFraction(t: Text) {
    exists a: Text, d: Text :: IsSigned(a) && AreDigits(d) && t == a + [0x2E] + d
  }

  ghost predicate IsDecimal(t: Text) {
    IsSigned(t) || HasFraction(t)
  }

  /** `e` or `E`, and a sign if there is one. */
  predicate IsExponentMark(t: Text) {
    1 <= |t| <= 2 && (t[0] == 0x65 || t[0] == 0x45) && (|t| == 2 ==> t[1] == 0x2B || t[1] == 0x2D)
  }

  /** `[ minus ] int [ frac ] exp` */
  ghost predicate HasExponent(t: Text) {
    exists a: Text, m: Text, d: Text :: IsDecimal(a) && IsExponentMark(m) && AreDigits(d) && t == a + m + d
  }

  /** `number = [ minus ] int [ frac ] [ exp ]` */
  ghost predicate IsNumeral(t: Text) {
    IsDecimal(t) || HasExponent(t)
  }

  // --------------------------------------------------------------- one unit more

  lemma PhaseNext(t: Text, c: CodeUnit)
    requires t != []
    ensures PhaseOf(t + [c]) == if PhaseOf(t).None? then None else NextPhase(PhaseOf(t).value, c)
  {
    assert (t + [c])[..|t|] == t;
  }

  lemma Undo(t: Text)
    requires t != []
    ensures t == t[..|t| - 1] + [t[|t| - 1]]
  {
  }

  /** The phase loops over digits. */
  lemma {:induction false} PhaseOfDigits(a: Text, d: Text, p: Phase)
    requires a != [] && AreDigits(d) && PhaseOf(a).Some?
    requires p == Integer || p == Fraction || p == Power
    requires NextPhase(PhaseOf(a).value, d[0]) == Some(p)
    ensures PhaseOf(a + d) == Some(p)
    decreases |d|
  {
    if |d| == 1 {
      assert d == [d[0]];
      PhaseNext(a, d[0]);
    } else {
      var init, last := d[..|d| - 1], d[|d| - 1];
      PhaseOfDigits(a, init, p);
      PhaseNext(a + init, last);
      assert a + d == a + init + [last];
    }
  }

  // ----------------------------------------------------------------- integers

  predicate IsWhole(t: Text) {
    PhaseOf(t) == Some(Zero) || PhaseOf(t) == Some(Integer)
  }

  lemma MinusIs(t: Text)
    ensures PhaseOf(t) == Some(Minus) <==> t == [0x2D]
  {
  }

  lemma MoreDigits(init: Text, c: CodeUnit, t: Text)
    requires t == init + [c] && IsDigit(c) && IsSigned(init) && init != [0x30] && init != [0x2D, 0x30]
    ensures IsSigned(t)
  {
    if init[0] == 0x2D {
      assert t[1..] == init[1..] + [c];
      assert init == [0x2D] + init[1..];
    }
  }

  lemma ToWhole(q: Phase, c: CodeUnit)
    ensures NextPhase(q, c) == Some(Zero) <==> q == Minus && c == 0x30
    ensures NextPhase(q, c) == Some(Integer) <==> IsDigit(c) && (q == Integer || (q == Minus && c != 0x30))
  {
  }

  lemma {:induction false} WholeIsSigned(t: Text)
    requires IsWhole(t)
    ensures IsSigned(t)
    ensures PhaseOf(t) == Some(Zero) <==> t == [0x30] || t == [0x2D, 0x30]
    decreases |t|
  {
    if |t| > 1 {
      var init, c := t[..|t| - 1], t[|t| - 1];
      Undo(t);
      MinusIs(init);
      ToWhole(PhaseOf(init).value, c);
      if IsWhole(init) {
        WholeIsSigned(init);
        MoreDigits(init, c, t);
      } else {
        assert t == [0x2D, c] && t[1..] == [c];
      }
    }
  }

  lemma IntIsWhole(t: Text)
    requires IsInt(t)
    ensures IsWhole(t)
  {
    if |t| > 1 {
      var first, rest := [t[0]], t[1..];
      assert t == first + rest;
      PhaseOfDigits(first, rest, Integer);
    }
  }

  lemma SignedIsWhole(t: Text)
    requires IsSigned(t)
    ensures IsWhole(t)
  {
    if IsInt(t) {
      IntIsWhole(t);
    } else {
      var rest := t[1..];
      assert t == [0x2D] + rest;
      MinusIs([0x2D]);
      if rest == [0x30] { PhaseNext([0x2D], 0x30); } else { PhaseOfDigits([0x2D], rest, Integer); }
    }
  }

  // ---------------------------------------------------------------- fractions

  lemma ToDot(q: Phase, c: CodeUnit)
    ensures NextPhase(q, c) == Some(Dot) <==> c == 0x2E && (q == Zero || q == Integer)
  {
  }

  lemma DotIs(t: Text)
    requires PhaseOf(t) == Some(Dot)
    ensures |t| > 1 && IsWhole(t[..|t| - 1]) && t == t[..|t| - 1] + [0x2E]
  {
    var init, c := t[..|t| - 1], t[|t| - 1];
    Undo(t);
    assert |t| > 1 && PhaseOf(init).Some?;
    ToDot(PhaseOf(init).value, c);
  }

  lemma {:induction false} FractionParts(t: Text) returns (a: Text, d: Text)
    requires PhaseOf(t) == Some(Fraction)
    ensures IsSigned(a) && AreDigits(d) && t == a + [0x2E] + d
    decreases |t|
  {
    var init, c := t[..|t| - 1], t[|t| - 1];
    Undo(t);
    if PhaseOf(init) == Some(Dot) {
      DotIs(init);
      a, d := init[..|init| - 1], [c];
      WholeIsSigned(a);
    } else {
      a, d := FractionParts(init);
      assert init + [c] == a + [0x2E] + (d + [c]);
      d := d + [c];
    }
  }

  lemma PartsAreFraction(a: Text, d: Text)
    requires IsSigned(a) && AreDigits(d)
    ensures PhaseOf(a + [0x2E] + d) == Some(Fraction)
  {
    SignedIsWhole(a);
    PhaseNext(a, 0x2E);
    PhaseOfDigits(a + [0x2E], d, Fraction);
  }

  lemma FractionIs(t: Text)
    ensures PhaseOf(t) == Some(Fraction) <==> HasFraction(t)
  {
    if PhaseOf(t) == Some(Fraction) { var a, d := FractionParts(t); }
    if HasFraction(t) {
      var a: Text, d: Text :| IsSigned(a) && AreDigits(d) && t == a + [0x2E] + d;
      PartsAreFraction(a, d);
    }
  }

  lemma WholeIs(t: Text)
    ensures IsWhole(t) <==> IsSigned(t)
  {
    if IsWhole(t) { WholeIsSigned(t); }
    if IsSigned(t) { SignedIsWhole(t); }
  }

  lemma DecimalIs(t: Text)
    ensures IsWhole(t) || PhaseOf(t) == Some(Fraction) <==> IsDecimal(t)
  {
    WholeIs(t);
    FractionIs(t);
  }

  // ---------------------------------------------------------------- exponents

  lemma FromMark(q: Phase, c: CodeUnit)
    ensures NextPhase(q, c) == Some(Exponent) <==>
      (c == 0x65 || c == 0x45) && (q == Zero || q == Integer || q == Fraction)
    ensures NextPhase(q, c) == Some(Sign) <==> (c == 0x2B || c == 0x2D) && q == Exponent
  {
  }

  lemma ExponentIs(t: Text)
    requires PhaseOf(t) == Some(Exponent)
    ensures |t| > 1 && IsDecimal(t[..|t| - 1]) && (t[|t| - 1] == 0x65 || t[|t| - 1] == 0x45)
  {
    var init := t[..|t| - 1];
    assert |t| > 1 && PhaseOf(init).Some?;
    FromMark(PhaseOf(init).value, t[|t| - 1]);
    DecimalIs(init);
  }

  lemma SignIs(t: Text)
    requires PhaseOf(t) == Some(Sign)
    ensures |t| > 1 && PhaseOf(t[..|t| - 1]) == Some(Exponent) && (t[|t| - 1] == 0x2B || t[|t| - 1] == 0x2D)
  {
    var init := t[..|t| - 1];
    assert |t| > 1 && PhaseOf(init).Some?;
    FromMark(PhaseOf(init).value, t[|t| - 1]);
  }

  lemma MarkIs(t: Text) returns (a: Text, m: Text)
    requires PhaseOf(t) == Some(Exponent) || PhaseOf(t) == Some(Sign)
    ensures IsDecimal(a) && IsExponentMark(m) && t == a + m
  {
    if PhaseOf(t) == Some(Exponent) {
      ExponentIs(t);
      a, m := t[..|t| - 1], [t[|t| - 1]];
    } else {
      SignIs(t);
      var init := t[..|t| - 1];
      ExponentIs(init);
      a, m := init[..|init| - 1], [init[|init| - 1], t[|t| - 1]];
    }
    assert t == a + m;
  }

  lemma {:induction false} ExponentParts(t: Text) returns (a: Text, m: Text, d: Text)
    requires PhaseOf(t) == Some(Power)
    ensures IsDecimal(a) && IsExponentMark(m) && AreDigits(d) && t == a + m + d
    decreases |t|
  {
    var init, c := t[..|t| - 1], t[|t| - 1];
    Undo(t);
    if PhaseOf(init) == Some(Power) {
      a, m, d := ExponentParts(init);
      assert init + [c] == a + m + (d + [c]);
      d := d + [c];
    } else {
      a, m := MarkIs(init);
      d := [c];
    }
  }

  lemma ToExponent(q: Phase, c: CodeUnit)
    requires (q == Zero || q == Integer || q == Fraction) && (c == 0x65 || c == 0x45)
    ensures NextPhase(q, c) == Some(Exponent)
  {
  }

  lemma PartsAreLetter(a: Text, e: CodeUnit)
    requires IsDecimal(a) && (e == 0x65 || e == 0x45)
    ensures a != [] && PhaseOf(a + [e]) == Some(Exponent)
  {
    DecimalIs(a);
    assert a != [];
    ToExponent(PhaseOf(a).value, e);
    PhaseNext(a, e);
  }

  lemma PartsAreMark(a: Text, m: Text)
    requires IsDecimal(a) && IsExponentMark(m)
    ensures a + m != [] && PhaseOf(a + m) == Some(if |m| == 1 then Exponent else Sign)
  {
    PartsAreLetter(a, m[0]);
    if |m| == 1 {
      assert m == [m[0]];
    } else {
      var letter := a + [m[0]];
      PhaseNext(letter, m[1]);
      assert a + m == letter + [m[1]];
    }
  }

  lemma PartsAreExponent(a: Text, m: Text, d: Text)
    requires IsDecimal(a) && IsExponentMark(m) && AreDigits(d)
    ensures PhaseOf(a + m + d) == Some(Power)
  {
    PartsAreMark(a, m);
    PhaseOfDigits(a + m, d, Power);
  }

  /** The automaton accepts exactly the numbers of the grammar. */
  lemma NumberIs(t: Text)
    ensures IsNumber(t) <==> IsNumeral(t)
  {
    DecimalIs(t);
    if PhaseOf(t) == Some(Power) { var a, m, d := ExponentParts(t); }
    if HasExponent(t) {
      var a: Text, m: Text, d: Text :| IsDecimal(a) && IsExponentMark(m) && AreDigits(d) && t == a + m + d;
      PartsAreExponent(a, m, d);
    }
  }
}
