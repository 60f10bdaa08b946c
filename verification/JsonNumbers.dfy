/**
 Numbers through the JSON reader of `src/rjson.c`: which ones it takes, what
 value it reports, and exactly when that is the value of the literal.
 */
module JsonNumbers {
  import opened Decimal
  import opened JsonGrammar
  import opened JsonLookahead
  import opened JsonReader
  import opened JsonReading
  import opened Options

  /** Numbers with an integer part of zero need a fraction. */
  predicate Readable(n: Number) {
    n.whole == "0" ==> n.frac.Some?
  }

  // ----- Values -----

  /** Whole and fraction digits as a real number. */
  function Magnitude(n: Number): real
    requires IsNumber(n)
  {
    Value(n.whole) as real +
    if n.frac.Some? then Value(n.frac.value) as real * Pow10(-|n.frac.value|) else 0.0
  }

  function Sign(neg: bool): real {
    if neg then -1.0 else 1.0
  }

  predicate IsNeg(n: Number) {
    n.signs != ""
  }

  /** The last sign of the exponent counts. */
  predicate ExpIsNeg(e: Exp, otherwise: bool) {
    if e.NoExp? || e.signs == "" then otherwise else e.signs[|e.signs| - 1] == '-'
  }

  function SignedInt(neg: bool, v: nat): int {
    if neg then -(v as int) else v
  }

  function Scaled(n: Number, neg: bool): real
    requires IsNumber(n)
  {
    Sign(IsNeg(n)) * Magnitude(n) * (if n.exp.NoExp? then 1.0 else Pow10(SignedInt(neg, Value(n.exp.digits))))
  }

  /** What the literal denotes. */
  function Exact(n: Number): real
    requires IsNumber(n)
  {
    Scaled(n, ExpIsNeg(n.exp, false))
  }

  /** What the reader reports: without a fraction, an exponent without a sign gets the sign of the number. */
  function Reported(n: Number): real
    requires IsNumber(n)
  {
    Scaled(n, ExpIsNeg(n.exp, IsNeg(n) && n.frac.None?))
  }

  /** A negative integer with an unsigned exponent other than zero. */
  predicate SignSlips(n: Number)
    requires IsNumber(n)
  {
    IsNeg(n) && n.frac.None? && n.exp.Exp? && n.exp.signs == "" && Value(n.exp.digits) > 0
  }

  lemma {:induction false} Pow10Grows(k: nat)
    ensures Pow10(k) >= 1.0 && Pow10(k + 1) > 1.0 && Pow10(-(k as int) - 1) < 1.0
    decreases k
  {
    Pow10Step(k);
    Pow10Step(-(k as int) - 1);
    if k == 0 {
      Pow10Zero();
    } else {
      Pow10Grows(k - 1);
    }
    hide Pow10;
  }

  lemma {:induction false} ValuePositive(s: string)
    requires AllDigits(s) && s != [] && s[0] != '0'
    ensures Value(s) > 0
    decreases |s|
  {
    if |s| > 1 {
      ValuePositive(s[..|s| - 1]);
    }
  }

  /** The reported value is the literal's, except exactly for negative integers with an unsigned exponent. */
  lemma ReportedExactly(n: Number)
    requires IsNumber(n) && Readable(n)
    ensures Reported(n) == Exact(n) <==> !SignSlips(n)
  {
    hide Pow10, Magnitude;
    if SignSlips(n) {
      var v, m := Value(n.exp.digits), Magnitude(n);
      assert m > 0.0 by { MagnitudePositive(n); }
      Pow10Grows(v - 1);
      Different(m, Pow10(v), Pow10(-(v as int)));
    }
  }

  lemma Different(m: real, p: real, q: real)
    requires m > 0.0 && p > q
    ensures -1.0 * m * p != -1.0 * m * q
  {
    assert m * (p - q) > 0.0;
    assert m * (p - q) == m * p - m * q;
  }

  lemma MagnitudePositive(n: Number)
    requires IsNumber(n) && Readable(n) && n.frac.None?
    ensures Magnitude(n) > 0.0
  {
    assert n.whole[0] == '0' ==> n.whole == "0";
    ValuePositive(n.whole);
  }

  /** The literal -1e1 is minus ten and is reported as minus a tenth. */
  lemma SignSlipsOnce()
    ensures
      var n := Number("-", "1", None, Exp('e', "", "1"));
      IsNumber(n) && NumberText(n) == "-1e1" && Exact(n) == -10.0 && Reported(n) == -0.1
  {
    var n := Number("-", "1", None, Exp('e', "", "1"));
    assert Value("1") == 1;
    assert Magnitude(n) == 1.0;
    Pow10Zero();
    Pow10Step(0);
    Pow10Step(-1);
    hide Pow10;
  }

  // ----- Scanning -----

  /** The scanner's data after some more characters, unless one of them is refused. */
  function Scan(d: NumData, t: string): Option<NumData>
    decreases |t|
  {
    if t == [] then Some(d)
    else
      var d' := NumStep(d, t[0]);
      if d'.None? then None else Scan(d'.value, t[1..])
  }

  lemma {:induction false} ScanConcat(d: NumData, a: string, b: string)
    ensures Scan(d, a + b) == if Scan(d, a).None? then None else Scan(Scan(d, a).value, b)
    decreases |a|
  {
    hide NumStep;
    if a == [] {
      assert a + b == b;
    } else {
      assert (a + b)[1..] == a[1..] + b;
      if NumStep(d, a[0]).Some? {
        ScanConcat(NumStep(d, a[0]).value, a[1..], b);
      }
    }
  }

  lemma ScanSnoc(d: NumData, t: string)
    requires t != []
    ensures
      var x := Scan(d, t[..|t| - 1]);
      Scan(d, t) == if x.None? then None else NumStep(x.value, t[|t| - 1])
  {
    hide NumStep;
    var k := |t| - 1;
    assert t == t[..k] + [t[k]];
    ScanConcat(d, t[..k], [t[k]]);
    assert [t[k]][1..] == [];
  }

  lemma {:induction false} ScanSigns(t: string)
    requires forall i | 0 <= i < |t| :: t[i] == '-'
    ensures Scan(NUM_START, t) == Some(NUM_START.(isNeg := t != ""))
    decreases |t|
  {
    if t != [] {
      ScanSigns(t[..|t| - 1]);
      ScanSnoc(NUM_START, t);
    }
  }

  function SignedReal(neg: bool, v: real): real {
    if neg then -v else v
  }

  lemma {:induction false} ScanWhole(d: NumData, t: string)
    requires d.part == IntPart && d.digitPos == 0 && d.num == 0.0 && AllDigits(t) && (t != [] ==> t[0] != '0')
    ensures Scan(d, t) == Some(d.(num := SignedReal(d.isNeg, Value(t) as real), digitPos := |t|))
    decreases |t|
  {
    if t != [] {
      var k := |t| - 1;
      assert k > 0 ==> t[..k][0] == t[0];
      ScanWhole(d, t[..k]);
      ScanSnoc(d, t);
      assert IsDigit(t[k]);
      hide Pow10;
    }
  }

  /** The contribution of the digits after the point. */
  function Fraction(f: string): real
    requires AllDigits(f)
  {
    Value(f) as real * Pow10(-|f|)
  }

  /** The contribution of one digit after the point, with `k` digits before it. */
  function DigitPart(ch: char, k: nat): real
    requires IsDigit(ch)
  {
    DigitValue(ch) as real * Pow10(-(k as int) - 1)
  }

  lemma FractionSnoc(f: string)
    requires AllDigits(f) && f != []
    ensures
      var k := |f| - 1;
      Fraction(f) == Fraction(f[..k]) + DigitPart(f[k], k)
  {
    var k := |f| - 1;
    Pow10Step(-k - 1);
    hide Pow10;
    var v, d, p := Value(f[..k]) as real, DigitValue(f[k]) as real, Pow10(-k - 1);
    assert Value(f) as real == v * 10.0 + d;
    Shifted(v, d, p);
  }

  lemma Shifted(v: real, d: real, p: real)
    ensures (v * 10.0 + d) * p == v * (10.0 * p) + d * p
  {
  }

  lemma FractionNone()
    ensures Fraction("") == 0.0
  {
    hide Pow10;
  }

  lemma SignedPart(neg: bool, ch: char, k: nat)
    requires IsDigit(ch)
    ensures Signed(neg, ch) as real * Pow10(-(k as int) - 1) == SignedReal(neg, DigitPart(ch, k))
  {
    hide Pow10;
    var v, p := DigitValue(ch) as real, Pow10(-(k as int) - 1);
    assert Signed(neg, ch) as real == SignedReal(neg, v);
    Negated(v, p);
  }

  lemma Negated(v: real, p: real)
    ensures (-v) * p == -(v * p)
  {
  }

  lemma FracStep(d: NumData, ch: char)
    requires d.part == FracPart && IsDigit(ch)
    ensures NumStep(d, ch) ==
            Some(d.(num := d.num + SignedReal(d.isNeg, DigitPart(ch, d.digitPos)), digitPos := d.digitPos + 1))
  {
    hide Pow10;
    assert NumStep(d, ch) == Some(AddFracDigit(d, ch));
    hide NumStep;
    SignedPart(d.isNeg, ch, d.digitPos);
    hide DigitPart, Signed;
    var x := AddFracDigit(d, ch);
    assert x.num == d.num + SignedReal(d.isNeg, DigitPart(ch, d.digitPos));
  }

  lemma {:induction false} ScanFraction(d: NumData, f: string)
    requires d.part == FracPart && d.digitPos == 0 && AllDigits(f)
    ensures Scan(d, f) == Some(d.(num := d.num + SignedReal(d.isNeg, Fraction(f)), digitPos := |f|))
    decreases |f|
  {
    hide Pow10, NumStep, Fraction, DigitPart;
    if f == [] {
      FractionNone();
    } else {
      var k := |f| - 1;
      ScanFraction(d, f[..k]);
      ScanSnoc(d, f);
      var d1 := d.(num := d.num + SignedReal(d.isNeg, Fraction(f[..k])), digitPos := k);
      assert Scan(d, f[..k]) == Some(d1);
      FracStep(d1, f[k]);
      FractionSnoc(f);
      hide Scan;
      var x := DigitPart(f[k], k);
      assert d1.num + SignedReal(d.isNeg, x) == d.num + SignedReal(d.isNeg, Fraction(f));
    }
  }

  lemma {:induction false} ScanExpSigns(d: NumData, t: string)
    requires d.part == ExpPart && d.digitPos == 0 && forall i | 0 <= i < |t| :: t[i] == '+' || t[i] == '-'
    ensures Scan(d, t) == Some(d.(isNeg := if t == "" then d.isNeg else t[|t| - 1] == '-'))
    decreases |t|
  {
    if t != [] {
      ScanExpSigns(d, t[..|t| - 1]);
      ScanSnoc(d, t);
    }
  }

  lemma {:induction false} ScanExpDigits(d: NumData, t: string)
    requires d.part == ExpPart && d.digitPos == 0 && d.exp == 0 && AllDigits(t)
    ensures Scan(d, t) == Some(d.(exp := SignedInt(d.isNeg, Value(t)), digitPos := |t|))
    decreases |t|
  {
    if t != [] {
      var k := |t| - 1;
      ScanExpDigits(d, t[..k]);
      ScanSnoc(d, t);
      assert IsDigit(t[k]);
      hide Pow10;
    }
  }

  /** The data after the signs and the integer part. */
  function AfterWhole(n: Number): NumData
    requires IsNumber(n)
  {
    if n.whole == "0" then NUM_START.(isNeg := IsNeg(n), part := LeadingZero)
    else NUM_START.(isNeg := IsNeg(n), num := SignedReal(IsNeg(n), Value(n.whole) as real), digitPos := |n.whole|)
  }

  lemma ScanToWhole(n: Number)
    requires IsNumber(n)
    ensures Scan(NUM_START, n.signs + n.whole) == Some(AfterWhole(n))
  {
    hide Pow10;
    ScanSigns(n.signs);
    var d := NUM_START.(isNeg := IsNeg(n));
    ScanConcat(NUM_START, n.signs, n.whole);
    assert n.whole[0] == '0' ==> n.whole == "0";
    if n.whole == "0" {
      assert "0"[1..] == "" && Scan(d, "0") == Scan(NumStep(d, '0').value, "");
    } else {
      ScanWhole(d, n.whole);
    }
  }

  /** The data after the fraction, if there is one. */
  function AfterFrac(n: Number): NumData
    requires IsNumber(n)
  {
    if n.frac.None? then AfterWhole(n)
    else NumData(SignedReal(IsNeg(n), Magnitude(n)), |n.frac.value|, IsNeg(n), 0, FracPart)
  }

  lemma ScanToFrac(n: Number)
    requires IsNumber(n)
    ensures Scan(AfterWhole(n), FracText(n.frac)) == Some(AfterFrac(n))
  {
    hide Pow10;
    if n.frac.Some? {
      var d, f := AfterWhole(n), n.frac.value;
      var d' := d.(digitPos := 0, part := FracPart);
      assert ("." + f)[1..] == f;
      assert NumStep(d, '.') == Some(d');
      hide NumStep;
      ScanFraction(d', f);
      ZeroWhole(n);
    }
  }

  lemma ZeroWhole(n: Number)
    requires IsNumber(n) && n.frac.Some?
    ensures AfterWhole(n).num + SignedReal(IsNeg(n), Fraction(n.frac.value)) == SignedReal(IsNeg(n), Magnitude(n))
  {
    hide Pow10;
    assert Value("0") == 0;
  }

  /** The sign the digits of the exponent start with. */
  function StartExp(d: NumData): NumData {
    d.(digitPos := 0, part := ExpPart, isNeg := if d.part == IntPart then d.isNeg else false, exp := 0)
  }

  lemma ScanExp(d: NumData, e: Exp)
    requires e.Exp? && (e.mark == 'e' || e.mark == 'E') && AllDigits(e.digits)
    requires forall i | 0 <= i < |e.signs| :: e.signs[i] == '+' || e.signs[i] == '-'
    requires d.exp == 0 && (d.part == IntPart || d.part == FracPart) && d.digitPos > 0
    ensures
      var neg := ExpIsNeg(e, StartExp(d).isNeg);
      Scan(d, ExpText(e)) ==
      Some(StartExp(d).(isNeg := neg, exp := SignedInt(neg, Value(e.digits)), digitPos := |e.digits|))
  {
    hide Pow10;
    var t := e.signs + e.digits;
    assert ExpText(e) == [e.mark] + t;
    assert ([e.mark] + t)[1..] == t;
    assert NumStep(d, e.mark) == Some(StartExp(d));
    hide NumStep;
    ScanConcat(StartExp(d), e.signs, e.digits);
    ScanExpSigns(StartExp(d), e.signs);
    var d1 := Scan(StartExp(d), e.signs).value;
    ScanExpDigits(d1, e.digits);
  }

  lemma ScanExpRefused(d: NumData, e: Exp)
    requires e.Exp? && (e.mark == 'e' || e.mark == 'E') && d.part == LeadingZero
    ensures Scan(d, ExpText(e)) == None
  {
    hide Pow10;
    assert ExpText(e)[0] == e.mark;
  }

  /** The scanner's last data carry the value reported, or no digit if the number is refused. */
  lemma ScanNumber(n: Number)
    requires IsNumber(n)
    ensures
      var x := Scan(NUM_START, NumberText(n));
      if Readable(n) then x.Some? && x.value.digitPos > 0 && NumValue(x.value) == Reported(n)
      else x.None? || x.value.digitPos == 0
  {
    hide Pow10, Scan, Magnitude, FracText, ExpText;
    ScanToWhole(n);
    ScanConcat(NUM_START, n.signs + n.whole, FracText(n.frac));
    ScanToFrac(n);
    ScanConcat(NUM_START, n.signs + n.whole + FracText(n.frac), ExpText(n.exp));
    var d := AfterFrac(n);
    if n.exp.NoExp? {
      assert ExpText(n.exp) == "" && Scan(d, "") == Some(d) by { ScanNone(n.exp, d); }
      if Readable(n) {
        ReportedPlain(n);
      }
    } else if Readable(n) {
      ScanExp(d, n.exp);
      ReportedScaled(n);
    } else {
      ScanExpRefused(d, n.exp);
    }
  }

  lemma ScanNone(e: Exp, d: NumData)
    ensures e.NoExp? ==> ExpText(e) == ""
    ensures Scan(d, "") == Some(d)
  {
  }

  lemma ReportedPlain(n: Number)
    requires IsNumber(n) && Readable(n) && n.exp.NoExp?
    ensures AfterFrac(n).digitPos > 0 && NumValue(AfterFrac(n)) == Reported(n)
  {
    hide Pow10;
  }

  lemma ReportedScaled(n: Number)
    requires IsNumber(n) && Readable(n) && n.exp.Exp?
    ensures
      var d := AfterFrac(n);
      var neg := ExpIsNeg(n.exp, StartExp(d).isNeg);
      && d.exp == 0 && (d.part == IntPart || d.part == FracPart) && d.digitPos > 0
      && d.num * Pow10(SignedInt(neg, Value(n.exp.digits))) == Reported(n)
  {
    hide Pow10;
  }

  // ----- Reading -----

  predicate Inside(t: string) {
    forall i | 0 <= i < |t| :: t[i] != '\0' && !EndsNum(t[i])
  }

  lemma NumberInside(n: Number)
    requires IsNumber(n)
    ensures Inside(NumberText(n))
  {
    assert Inside(n.signs) && Inside(n.whole) && Inside(FracText(n.frac)) && Inside(ExpText(n.exp));
  }

  lemma StepInside(mlen: nat, s: State, d: NumData, ch: char)
    requires s.mode == InNum(d) && s.valExpected && ch != '\0' && !EndsNum(ch)
    ensures
      var x := NumStep(d, ch);
      Core(mlen, s, ch) == if x.Some? then Result(s.(mode := InNum(x.value)), Ok) else Result(s, Syntax)
  {
    hide NumStep;
  }

  lemma {:induction false} ScanReads(mlen: nat, s: State, d: NumData, t: string, rest: string) returns (s': State)
    requires s.mode == InNum(d) && s.valExpected && s.cur.None? && Inside(t)
    ensures
      var x := Scan(d, t);
      if x.Some? then
        && s'.mode == InNum(x.value) && s'.lvls == s.lvls && s'.valExpected && s'.cur.None?
        && Continues(mlen, s, t + rest, [], s', rest)
      else Fails(mlen, s, t + rest)
    decreases |t|
  {
    hide DirectFeed, Core, NumStep, EndsNum, Continues, Fails;
    s' := s;
    if t == [] {
      assert t + rest == rest;
      Stays(mlen, s, rest);
    } else {
      var tail := t[1..] + rest;
      assert t + rest == [t[0]] + tail;
      StepInside(mlen, s, d, t[0]);
      OneStep(mlen, s, t[0], tail);
      var x := NumStep(d, t[0]);
      if x.Some? {
        var s1 := Advance(Core(mlen, s, t[0]));
        s' := ScanReads(mlen, s1, x.value, t[1..], rest);
        if Scan(x.value, t[1..]).Some? {
          Chain(mlen, s, t + rest, [], s1, tail, [], s', rest);
          var none: seq<Event> := [];
          assert none + none == none;
        } else {
          ChainFails(mlen, s, t + rest, [], s1, tail);
        }
      }
    }
  }

  lemma NoDigitFails(mlen: nat, s: State, rest: string)
    requires s.mode.InNum? && s.valExpected && s.mode.data.digitPos == 0 && rest != [] && EndsNum(rest[0])
    ensures Fails(mlen, s, rest)
  {
    hide DirectFeed, NumStep;
    OneStep(mlen, s, rest[0], rest[1..]);
    assert [rest[0]] + rest[1..] == rest;
  }

  lemma NumberStarts(n: Number, rest: string)
    requires IsNumber(n)
    ensures NumberText(n) != [] && (NumberText(n) + rest)[0] == NumberText(n)[0] && IsNumStart(NumberText(n)[0])
  {
    assert NumberText(n)[0] == (n.signs + n.whole)[0];
  }

  /** A number where a value is expected: read with the value `Reported`, or refused. */
  lemma ReadNumber(mlen: nat, s: State, n: Number, rest: string) returns (s': State)
    requires s.mode == Idle && s.valExpected && s.lvls != [] && IsNumber(n)
    requires rest != [] && EndsNum(rest[0])
    ensures
      if Readable(n) then PastVal(s, s') && Continues(mlen, s, NumberText(n) + rest, [Num(Reported(n))], s', rest)
      else Fails(mlen, s, NumberText(n) + rest)
  {
    NumberInside(n);
    NumberStarts(n, rest);
    ScanNumber(n);
    hide DirectFeed, Core, NumberText, Scan, Reported, IsNumber, Readable, NumValue, EndsNum;
    var text := NumberText(n) + rest;
    Enters(mlen, s, InNum(NUM_START), text);
    var s0 := s.(mode := InNum(NUM_START), cur := None);
    var s1 := ScanReads(mlen, s0, NUM_START, NumberText(n), rest);
    s' := s;
    if Scan(NUM_START, NumberText(n)).Some? {
      if Readable(n) {
        NumberEnds(mlen, s1, rest);
        s' := NumReported(s1);
        Chain(mlen, s0, text, [], s1, rest, [Num(Reported(n))], s', rest);
        assert [] + [Num(Reported(n))] == [Num(Reported(n))];
      } else {
        NoDigitFails(mlen, s1, rest);
        ChainFails(mlen, s0, text, [], s1, rest);
      }
    }
  }
}
