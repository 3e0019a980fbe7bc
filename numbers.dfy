/**
 * The amount check `isfloat`, which asks whether Python's `float()` accepts
 * a token, modelled as a scanner for finite decimal literals. A literal is
 * an optional sign, digits with at most one decimal point and at least one
 * digit, and an optional exponent: `e` or `E`, an optional sign and at
 * least one digit. The scanner collects the pieces it reads, and the
 * number a token denotes is the exact value of those pieces.
 */
module Numbers {
  import opened Options

  predicate IsDigit(c: char) {
    '0' <= c <= '9'
  }

  predicate IsSign(c: char) {
    c == '+' || c == '-'
  }

  predicate IsMarker(c: char) {
    c == 'e' || c == 'E'
  }

  predicate AllDigits(s: string) {
    forall i :: 0 <= i < |s| ==> IsDigit(s[i])
  }

  function DigitValue(c: char): (d: nat)
    requires IsDigit(c)
    ensures d < 10
  {
    c as int - '0' as int
  }

  function Pow10(n: nat): (p: nat)
    ensures p >= 1
  {
    if n == 0 then 1 else 10 * Pow10(n - 1)
  }

  /** `m` times ten to the power `e`, for a possibly negative `e`. */
  function ScaleBy(m: real, e: int): real {
    if e >= 0 then m * Pow10(e) as real else m / Pow10(-e) as real
  }

  /** The digits `s` appended, in order, to the decimal number `acc`. */
  function Accumulate(acc: nat, s: string): nat
    requires AllDigits(s)
    decreases |s|
  {
    if s == [] then acc else Accumulate(acc * 10 + DigitValue(s[0]), s[1..])
  }

  /** The number a digit string denotes; the empty string denotes 0. */
  function DigitsValue(s: string): nat
    requires AllDigits(s)
  {
    Accumulate(0, s)
  }

  datatype Sign = Unsigned | Plus | Minus

  function SignText(g: Sign): string {
    match g
    case Unsigned => ""
    case Plus => "+"
    case Minus => "-"
  }

  /** The pieces of a literal: `sign whole [. frac] [marker exponentSign
      exponent]`, the point written when `point` holds and the exponent
      part absent when `marker` is empty. */
  datatype Literal = Literal(sign: Sign, whole: string, point: bool, frac: string,
                             marker: string, exponentSign: Sign, exponent: string)
  {
    /** The mantissa has digits only, at least one of them, and digits
        after a point only when there is a point. */
    predicate MantissaWellFormed() {
      && AllDigits(whole) && AllDigits(frac)
      && |whole| + |frac| > 0 && (point || frac == [])
    }

    predicate NoExponent() {
      marker == [] && exponentSign == Unsigned && exponent == []
    }

    predicate MarkerRead() {
      |marker| == 1 && IsMarker(marker[0])
    }

    predicate WellFormed() {
      && MantissaWellFormed()
      && (NoExponent() || (MarkerRead() && |exponent| > 0 && AllDigits(exponent)))
    }

    function Mantissa(): string {
      if point then whole + "." + frac else whole
    }

    function Tail(): string {
      marker + SignText(exponentSign) + exponent
    }

    function Text(): string {
      SignText(sign) + Mantissa() + Tail()
    }

    /** The number the literal denotes. */
    function Value(): real
      requires WellFormed()
    {
      var m := DigitsValue(whole) as real + DigitsValue(frac) as real / Pow10(|frac|) as real;
      var e := DigitsValue(exponent) as int;
      var v := ScaleBy(m, if exponentSign == Minus then -e else e);
      if sign == Minus then -v else v
    }
  }

  const Nothing := Literal(Unsigned, [], false, [], [], Unsigned, [])

  /** Where the scanner is in the literal. */
  datatype State =
    | Start       // nothing read
    | Signed      // a sign read
    | Whole       // digits of the whole part read
    | Point       // a point read, with no digit before it
    | Fraction    // a point read, and at least one digit in all
    | Exp         // the exponent marker read
    | ExpSigned   // the exponent's sign read
    | ExpDigits   // digits of the exponent read
    | Dead        // not a literal, whatever follows

  predicate Accepting(q: State) {
    q == Whole || q == Fraction || q == ExpDigits
  }

  /** The scanner's state and the pieces it has read. */
  datatype Scan = Scan(state: State, read: Literal)

  const Init := Scan(Start, Nothing)

  function Step(sc: Scan, c: char): Scan {
    var l := sc.read;
    match sc.state
    case Start =>
      if c == '-' then Scan(Signed, l.(sign := Minus))
      else if c == '+' then Scan(Signed, l.(sign := Plus))
      else if IsDigit(c) then Scan(Whole, l.(whole := l.whole + [c]))
      else if c == '.' then Scan(Point, l.(point := true))
      else Scan(Dead, l)
    case Signed =>
      if IsDigit(c) then Scan(Whole, l.(whole := l.whole + [c]))
      else if c == '.' then Scan(Point, l.(point := true))
      else Scan(Dead, l)
    case Whole =>
      if IsDigit(c) then Scan(Whole, l.(whole := l.whole + [c]))
      else if c == '.' then Scan(Fraction, l.(point := true))
      else if IsMarker(c) then Scan(Exp, l.(marker := [c]))
      else Scan(Dead, l)
    case Point =>
      if IsDigit(c) then Scan(Fraction, l.(frac := l.frac + [c]))
      else Scan(Dead, l)
    case Fraction =>
      if IsDigit(c) then Scan(Fraction, l.(frac := l.frac + [c]))
      else if IsMarker(c) then Scan(Exp, l.(marker := [c]))
      else Scan(Dead, l)
    case Exp =>
      if c == '-' then Scan(ExpSigned, l.(exponentSign := Minus))
      else if c == '+' then Scan(ExpSigned, l.(exponentSign := Plus))
      else if IsDigit(c) then Scan(ExpDigits, l.(exponent := l.exponent + [c]))
      else Scan(Dead, l)
    case ExpSigned =>
      if IsDigit(c) then Scan(ExpDigits, l.(exponent := l.exponent + [c]))
      else Scan(Dead, l)
    case ExpDigits =>
      if IsDigit(c) then Scan(ExpDigits, l.(exponent := l.exponent + [c]))
      else Scan(Dead, l)
    case Dead => sc
  }

  /** The scanner after reading `s`. */
  function Run(sc: Scan, s: string): Scan
    decreases |s|
  {
    if s == [] then sc else Run(Step(sc, s[0]), s[1..])
  }

  /** What the scanner has read in each state: the shape its state names. */
  predicate Consistent(sc: Scan) {
    var l := sc.read;
    match sc.state
    case Start => l == Nothing
    case Signed => l.sign != Unsigned && l.whole == [] && !l.point && l.frac == [] && l.NoExponent()
    case Whole => l.MantissaWellFormed() && !l.point && l.NoExponent()
    case Point => l.whole == [] && l.point && l.frac == [] && l.NoExponent()
    case Fraction => l.MantissaWellFormed() && l.point && l.NoExponent()
    case Exp => l.MantissaWellFormed() && l.MarkerRead() && l.exponentSign == Unsigned && l.exponent == []
    case ExpSigned => l.MantissaWellFormed() && l.MarkerRead() && l.exponentSign != Unsigned && l.exponent == []
    case ExpDigits => l.MantissaWellFormed() && l.MarkerRead() && |l.exponent| > 0 && AllDigits(l.exponent)
    case Dead => true
  }

  /** In an accepting state the scanner has read a whole literal. */
  lemma AcceptingWellFormed(sc: Scan)
    requires Consistent(sc) && Accepting(sc.state)
    ensures sc.read.WellFormed()
  {
  }

  /** The text of what has been read in each state before the exponent. */
  lemma StartReads(sc: Scan, c: char)
    requires sc.state == Start && Consistent(sc) && Step(sc, c).state != Dead
    ensures Consistent(Step(sc, c)) && Step(sc, c).read.Text() == sc.read.Text() + [c]
  {
    assert sc.read.Text() == [];
  }

  lemma SignedReads(sc: Scan, c: char)
    requires sc.state == Signed && Consistent(sc) && Step(sc, c).state != Dead
    ensures Consistent(Step(sc, c)) && Step(sc, c).read.Text() == sc.read.Text() + [c]
  {
    assert sc.read.Text() == SignText(sc.read.sign);
  }

  lemma WholeReads(sc: Scan, c: char)
    requires sc.state == Whole && Consistent(sc) && Step(sc, c).state != Dead
    ensures Consistent(Step(sc, c)) && Step(sc, c).read.Text() == sc.read.Text() + [c]
  {
    var l, l' := sc.read, Step(sc, c).read;
    assert l.Text() == SignText(l.sign) + l.whole;
    if IsDigit(c) {
      assert l'.Text() == SignText(l.sign) + (l.whole + [c]);
    }
  }

  lemma PointReads(sc: Scan, c: char)
    requires sc.state == Point && Consistent(sc) && Step(sc, c).state != Dead
    ensures Consistent(Step(sc, c)) && Step(sc, c).read.Text() == sc.read.Text() + [c]
  {
    var l, l' := sc.read, Step(sc, c).read;
    assert l.Text() == SignText(l.sign) + ".";
    assert l'.Text() == SignText(l.sign) + "." + [c];
  }

  lemma FractionReads(sc: Scan, c: char)
    requires sc.state == Fraction && Consistent(sc) && Step(sc, c).state != Dead
    ensures Consistent(Step(sc, c)) && Step(sc, c).read.Text() == sc.read.Text() + [c]
  {
    var l, l' := sc.read, Step(sc, c).read;
    assert l.Text() == SignText(l.sign) + l.Mantissa();
    if IsDigit(c) {
      assert l'.Mantissa() == l.Mantissa() + [c];
    }
  }

  /** Once the marker is read, characters extend the exponent part. */
  lemma ExponentReads(sc: Scan, c: char)
    requires sc.state == Exp || sc.state == ExpSigned || sc.state == ExpDigits
    requires Consistent(sc) && Step(sc, c).state != Dead
    ensures Consistent(Step(sc, c)) && Step(sc, c).read.Tail() == sc.read.Tail() + [c]
  {
  }

  lemma TextOfExponentStep(sc: Scan, c: char)
    requires sc.state == Exp || sc.state == ExpSigned || sc.state == ExpDigits
    requires Consistent(sc) && Step(sc, c).state != Dead
    ensures Consistent(Step(sc, c)) && Step(sc, c).read.Text() == sc.read.Text() + [c]
  {
    ExponentReads(sc, c);
    var l, l' := sc.read, Step(sc, c).read;
    assert l'.Text() == SignText(l.sign) + l.Mantissa() + (l.Tail() + [c]);
  }

  /** Reading a character the scanner does not refuse appends it to the
      text of what it has read, and keeps that text in its state's shape. */
  lemma StepReads(sc: Scan, c: char)
    requires Consistent(sc) && Step(sc, c).state != Dead
    ensures Consistent(Step(sc, c))
    ensures Step(sc, c).read.Text() == sc.read.Text() + [c]
  {
    match sc.state
    case Start => StartReads(sc, c);
    case Signed => SignedReads(sc, c);
    case Whole => WholeReads(sc, c);
    case Point => PointReads(sc, c);
    case Fraction => FractionReads(sc, c);
    case Exp => TextOfExponentStep(sc, c);
    case ExpSigned => TextOfExponentStep(sc, c);
    case ExpDigits => TextOfExponentStep(sc, c);
    case Dead => assert false;
  }

  lemma {:induction false} DeadStaysDead(sc: Scan, s: string)
    requires sc.state == Dead
    ensures Run(sc, s).state == Dead
    decreases |s|
  {
    if s != [] {
      DeadStaysDead(Step(sc, s[0]), s[1..]);
    }
  }

  /** Unless the scanner refuses `s`, reading it appends `s` to the text of
      what has been read, in the shape of the state reached. */
  lemma {:induction false} RunReads(sc: Scan, s: string)
    requires Consistent(sc)
    ensures Run(sc, s).state != Dead ==> Consistent(Run(sc, s)) && Run(sc, s).read.Text() == sc.read.Text() + s
    decreases |s|
  {
    if s != [] {
      var next := Step(sc, s[0]);
      if next.state == Dead {
        DeadStaysDead(next, s[1..]);
      } else {
        StepReads(sc, s[0]);
        RunReads(next, s[1..]);
        assert sc.read.Text() + [s[0]] + s[1..] == sc.read.Text() + s;
      }
    }
  }

  /** The exact value of a decimal literal, or None when `s` is not one. */
  function ParseDecimal(s: string): (r: Option<real>)
    ensures r.Some? ==> var l := Run(Init, s).read;
                        l.WellFormed() && l.Text() == s && r.value == l.Value()
  {
    var sc := Run(Init, s);
    if Accepting(sc.state) then
      assert Init.read.Text() == [];
      RunReads(Init, s);
      AcceptingWellFormed(sc);
      Some(sc.read.Value())
    else None
  }

  /** Whether the amount token is accepted as a number. */
  predicate IsFloat(s: string) {
    ParseDecimal(s).Some?
  }

  /** Every accepted token is the text of a well-formed literal, the one
      the scanner read, and its number is that literal's value. */
  lemma AcceptedIsLiteral(s: string)
    requires IsFloat(s)
    ensures var l := Run(Init, s).read;
            l.WellFormed() && l.Text() == s && ParseDecimal(s) == Some(l.Value())
  {
    assert Init.read.Text() == [];
    RunReads(Init, s);
    AcceptingWellFormed(Run(Init, s));
  }

  /** Reading two strings one after the other is reading their concatenation. */
  lemma {:induction false} RunAppend(sc: Scan, a: string, b: string)
    ensures Run(sc, a + b) == Run(Run(sc, a), b)
    decreases |a|
  {
    if a == [] {
      assert a + b == b;
    } else {
      assert (a + b)[0] == a[0];
      assert (a + b)[1..] == a[1..] + b;
      RunAppend(Step(sc, a[0]), a[1..], b);
    }
  }

  /** Digits of the whole part are collected as read. */
  lemma {:induction false} RunWhole(sc: Scan, d: string)
    requires AllDigits(d)
    requires sc.state == Whole || (|d| > 0 && (sc.state == Start || sc.state == Signed))
    ensures Run(sc, d) == Scan(Whole, sc.read.(whole := sc.read.whole + d))
    decreases |d|
  {
    if d != [] {
      RunWhole(Step(sc, d[0]), d[1..]);
      assert sc.read.whole + [d[0]] + d[1..] == sc.read.whole + d;
    }
  }

  /** Digits after the point are collected as read. */
  lemma {:induction false} RunFraction(sc: Scan, d: string)
    requires AllDigits(d)
    requires sc.state == Fraction || (|d| > 0 && sc.state == Point)
    ensures Run(sc, d) == Scan(Fraction, sc.read.(frac := sc.read.frac + d))
    decreases |d|
  {
    if d != [] {
      RunFraction(Step(sc, d[0]), d[1..]);
      assert sc.read.frac + [d[0]] + d[1..] == sc.read.frac + d;
    }
  }

  /** Digits of the exponent are collected as read. */
  lemma {:induction false} RunExponent(sc: Scan, d: string)
    requires AllDigits(d)
    requires sc.state == ExpDigits || (|d| > 0 && (sc.state == Exp || sc.state == ExpSigned))
    ensures Run(sc, d) == Scan(ExpDigits, sc.read.(exponent := sc.read.exponent + d))
    decreases |d|
  {
    if d != [] {
      RunExponent(Step(sc, d[0]), d[1..]);
      assert sc.read.exponent + [d[0]] + d[1..] == sc.read.exponent + d;
    }
  }

  /** Reading a sign records it. */
  lemma SignScan(g: Sign)
    ensures Run(Init, SignText(g)) == Scan(if g == Unsigned then Start else Signed, Nothing.(sign := g))
  {
    if g != Unsigned {
      assert SignText(g)[1..] == [];
    }
  }

  /** Reading a literal's mantissa after its sign collects its digits and
      point. */
  lemma MantissaScan(l: Literal)
    requires l.MantissaWellFormed()
    ensures var sc0 := Run(Init, SignText(l.sign));
            var sc := Run(sc0, l.Mantissa());
            && (sc.state == Whole || sc.state == Fraction)
            && sc.read == Nothing.(sign := l.sign, whole := l.whole, point := l.point, frac := l.frac)
  {
    var sc0 := Run(Init, SignText(l.sign));
    SignScan(l.sign);
    if |l.whole| > 0 {
      RunWhole(sc0, l.whole);
      var sw := Run(sc0, l.whole);
      if l.point {
        assert l.Mantissa() == l.whole + ("." + l.frac);
        RunAppend(sc0, l.whole, "." + l.frac);
        RunAppend(sw, ".", l.frac);
        if l.frac != [] {
          RunFraction(Step(sw, '.'), l.frac);
        }
      }
    } else {
      assert l.Mantissa() == "." + l.frac;
      RunAppend(sc0, ".", l.frac);
      RunFraction(Step(sc0, '.'), l.frac);
    }
  }

  /** Reading an exponent's sign after the marker records it. */
  lemma ExponentSignScan(se: Scan, g: Sign)
    requires se.state == Exp && se.read.exponentSign == Unsigned
    ensures Run(se, SignText(g))
         == Scan(if g == Unsigned then Exp else ExpSigned, se.read.(exponentSign := g))
  {
    if g != Unsigned {
      assert SignText(g)[1..] == [];
    }
  }

  /** Reading a literal's exponent part after its mantissa collects the
      marker, the exponent's sign and its digits. */
  lemma TailScan(sc1: Scan, l: Literal)
    requires l.WellFormed()
    requires (sc1.state == Whole || sc1.state == Fraction) && sc1.read.NoExponent()
    ensures var sc := Run(sc1, l.Tail());
            && Accepting(sc.state)
            && sc.read == sc1.read.(marker := l.marker, exponentSign := l.exponentSign, exponent := l.exponent)
  {
    if !l.NoExponent() {
      var se := Step(sc1, l.marker[0]);
      assert Run(sc1, l.marker) == se by {
        assert l.marker[1..] == [];
      }
      assert l.Tail() == l.marker + (SignText(l.exponentSign) + l.exponent);
      RunAppend(sc1, l.marker, SignText(l.exponentSign) + l.exponent);
      RunAppend(se, SignText(l.exponentSign), l.exponent);
      ExponentSignScan(se, l.exponentSign);
      RunExponent(Run(se, SignText(l.exponentSign)), l.exponent);
    } else {
      assert l.Tail() == [];
    }
  }

  /** Every well-formed literal is accepted and evaluates to its value. */
  lemma LiteralRoundTrip(l: Literal)
    requires l.WellFormed()
    ensures ParseDecimal(l.Text()) == Some(l.Value())
  {
    var sc0 := Run(Init, SignText(l.sign));
    assert l.Text() == SignText(l.sign) + (l.Mantissa() + l.Tail());
    RunAppend(Init, SignText(l.sign), l.Mantissa() + l.Tail());
    RunAppend(sc0, l.Mantissa(), l.Tail());
    MantissaScan(l);
    TailScan(Run(sc0, l.Mantissa()), l);
  }

  /** A run of digits is read as the integer it denotes. */
  lemma IntegerToken(d: string)
    requires |d| > 0 && AllDigits(d)
    ensures ParseDecimal(d) == Some(DigitsValue(d) as real)
  {
    var l := Literal(Unsigned, d, false, [], [], Unsigned, []);
    assert l.Text() == d;
    LiteralRoundTrip(l);
  }

  /** A token is accepted exactly when it is the text of a well-formed
      literal. */
  lemma IsFloatIffLiteral(s: string)
    ensures IsFloat(s) <==> exists l: Literal :: l.WellFormed() && l.Text() == s
  {
    if IsFloat(s) {
      AcceptedIsLiteral(s);
    } else if l: Literal :| l.WellFormed() && l.Text() == s {
      LiteralRoundTrip(l);
    }
  }

  /** A character that cannot occur in a decimal literal makes the token
      no number. */
  lemma RejectsForeignChar(s: string, i: nat)
    requires i < |s|
    requires !IsDigit(s[i]) && !IsSign(s[i]) && s[i] != '.' && !IsMarker(s[i])
    ensures !IsFloat(s)
  {
    assert s == s[..i] + s[i..];
    RunAppend(Init, s[..i], s[i..]);
    var sc := Run(Init, s[..i]);
    assert Step(sc, s[i]).state == Dead;
    DeadStaysDead(Step(sc, s[i]), s[i + 1..]);
  }

  /** Without a digit the scanner never leaves the states before one. */
  lemma {:induction false} NoDigitRun(sc: Scan, s: string)
    requires sc.state == Start || sc.state == Signed || sc.state == Point || sc.state == Dead
    requires forall i :: 0 <= i < |s| ==> !IsDigit(s[i])
    ensures var q := Run(sc, s).state; q == Start || q == Signed || q == Point || q == Dead
    decreases |s|
  {
    if s != [] {
      assert !IsDigit(s[0]);
      NoDigitRun(Step(sc, s[0]), s[1..]);
    }
  }

  /** A token without any digit is no number. */
  lemma RejectsNoDigit(s: string)
    requires forall i :: 0 <= i < |s| ==> !IsDigit(s[i])
    ensures !IsFloat(s)
  {
    NoDigitRun(Init, s);
  }
}
