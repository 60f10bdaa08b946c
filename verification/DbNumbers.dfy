/**
 What the numbers of `src/rdb.c` mean: for every decimal literal, exactly when
 the reader accepts it, and that the value it then reports is the literal's own.
 */
module DbNumbers {
  import opened DbReader
  import opened Decimal
  import opened Options

  datatype Sign = NoSign | Plus | Minus

  datatype Exponent = Exponent(mark: char, lead: string, sign: Sign, digits: string)

  /**
   A decimal literal: sign, integer digits, fraction, signed exponent. A sign may have
   zeros before it, which the reader passes over.
   */
  datatype Literal = Literal(lead: string, sign: Sign, whole: string, frac: Option<string>, exp: Option<Exponent>)

  predicate AllZeros(s: string) {
    forall i | 0 <= i < |s| :: s[i] == '0'
  }

  predicate IsLead(lead: string, sign: Sign) {
    AllZeros(lead) && (lead != [] ==> sign != NoSign)
  }

  predicate WellFormed(l: Literal) {
    && AllDigits(l.whole) && IsLead(l.lead, l.sign) && (l.exp.Some? ==> IsLead(l.exp.value.lead, l.exp.value.sign))
    && (l.frac.Some? ==> AllDigits(l.frac.value))
    && (l.exp.Some? ==> AllDigits(l.exp.value.digits) && (l.exp.value.mark == 'e' || l.exp.value.mark == 'E'))
    && (l.sign != NoSign || l.whole != [] || l.frac.Some?)
  }

  function SignText(s: Sign): string {
    match s
    case NoSign => ""
    case Plus => "+"
    case Minus => "-"
  }

  function FracText(f: Option<string>): string {
    if f.Some? then "." + f.value else ""
  }

  function ExpText(e: Option<Exponent>): string {
    if e.Some? then [e.value.mark] + e.value.lead + SignText(e.value.sign) + e.value.digits else ""
  }

  function Text(l: Literal): string {
    l.lead + SignText(l.sign) + l.whole + FracText(l.frac) + ExpText(l.exp)
  }

  function FracDigits(l: Literal): string {
    if l.frac.Some? then l.frac.value else ""
  }

  function SignFactor(s: Sign): real {
    if s == Minus then -1.0 else 1.0
  }

  function ExpValue(l: Literal): int
    requires WellFormed(l)
  {
    match l.exp
    case None => 0
    case Some(e) => if e.sign == Minus then -(Value(e.digits) as int) else Value(e.digits)
  }

  /** The literal's mathematical value: all its digits as one integer, shifted by the exponent. */
  function Exact(l: Literal): real
    requires WellFormed(l)
  {
    var digits := l.whole + FracDigits(l);
    SignFactor(l.sign) * (Value(digits) as real * Pow10(ExpValue(l) - |FracDigits(l)|))
  }

  /**
   The literals the reader takes. Beyond having digits where digits are due, a
   signed integer must not be zero and an exponent must not be zero.
   */
  predicate Accepted(l: Literal)
    requires WellFormed(l)
  {
    && (match l.frac
        case None => l.whole != [] && (l.sign == NoSign || Value(l.whole) > 0)
        case Some(f) =>
          var digits := l.lead + l.whole;
          (digits != [] || l.sign == NoSign) && (f != [] || (digits != [] && l.exp.None?)))
    && (l.exp.Some? ==> Value(l.exp.value.digits) > 0)
  }

  /** Digits from the first non-zero one on. */
  function Significant(s: string): nat {
    if s == [] then 0
    else
      var n := Significant(s[..|s| - 1]);
      if n == 0 && s[|s| - 1] == '0' then 0 else n + 1
  }

  lemma {:induction false} SignificantIffPositive(s: string)
    requires AllDigits(s)
    ensures Significant(s) > 0 <==> Value(s) > 0
  {
    if s != [] {
      SignificantIffPositive(s[..|s| - 1]);
    }
  }

  /** Is the reader in the middle of a number with data `d`? */
  function Scanning(s: State, d: NumData): State {
    s.(mode := InNum(d))
  }

  lemma FeedSnoc(mlen: nat, s: State, a: string, c: char, x: Result)
    requires Feed(mlen, s, a).r == Ok && Feed(mlen, s, a).toks == []
    requires x == Step(mlen, Feed(mlen, s, a).st, c)
    ensures Feed(mlen, s, a + [c]) == Outcome(x.next, Delivered(x.tok), x.r)
  {
    hide Step;
    FeedConcat(mlen, s, a, [c]);
    assert [c][1..] == [];
    assert [] + Delivered(x.tok) == Delivered(x.tok) == Delivered(x.tok) + [];
  }

  /** The scanner data after one more digit of the integer part. */
  function WithIntDigit(d: NumData, c: char): NumData
    requires IsDigit(c)
  {
    if d.pos == 0 && c == '0' then d.(gotInt := true)
    else d.(gotInt := true, num := d.num * 10.0 + DigitValue(c) as real, pos := d.pos + 1)
  }

  function WithExpDigit(d: NumData, c: char): NumData
    requires IsDigit(c)
  {
    if d.pos == 0 && c == '0' then d.(gotInt := true)
    else d.(gotInt := true, exp := d.exp * 10 + DigitValue(c), pos := d.pos + 1)
  }

  lemma StepDigit(mlen: nat, s: State, d: NumData, c: char)
    requires IsDigit(c)
    ensures Step(mlen, Scanning(s, d), c) ==
            Result(Scanning(s, match d.part
                               case IntPart => WithIntDigit(d, c)
                               case FracPart => AddFracDigit(d, c)
                               case ExpPart => WithExpDigit(d, c)), Ok, None)
  {
  }

  // ----- The integer part -----

  function AfterInt(d: NumData, ds: string): NumData
    requires AllDigits(ds)
  {
    d.(gotInt := d.gotInt || ds != [], num := Value(ds) as real, pos := Significant(ds))
  }

  lemma IntDigit(d: NumData, a: string, c: char)
    requires AllDigits(a) && IsDigit(c) && d.part == IntPart
    ensures WithIntDigit(AfterInt(d, a), c) == AfterInt(d, a + [c])
  {
    SignificantIffPositive(a);
    SignificantSnoc(a, c);
    ValueSnoc(a, c);
    hide Value, DigitValue, Significant;
    var v, w, g := Value(a), Value(a + [c]), DigitValue(c);
    assert w as real == v as real * 10.0 + g as real;
    if c == '0' {
      ZeroDigit();
    }
  }

  lemma KeepsPart(d: NumData, a: string)
    requires AllDigits(a)
    ensures AfterInt(d, a).part == d.part && AfterExp(d, a).part == d.part
  {
  }

  lemma ZeroDigit()
    ensures DigitValue('0') == 0
  {
  }

  lemma SignificantSnoc(a: string, c: char)
    ensures Significant(a + [c]) == if Significant(a) == 0 && c == '0' then 0 else Significant(a) + 1
  {
    assert (a + [c])[..|a|] == a;
  }

  lemma {:induction false} FeedInt(mlen: nat, s: State, d: NumData, ds: string)
    requires AllDigits(ds) && d.part == IntPart && d.num == 0.0 && d.pos == 0
    ensures Feed(mlen, Scanning(s, d), ds) == Outcome(Scanning(s, AfterInt(d, ds)), [], Ok)
  {
    if ds != [] {
      var a, c := ds[..|ds| - 1], ds[|ds| - 1];
      FeedInt(mlen, s, d, a);
      assert ds == a + [c];
      StepDigit(mlen, s, AfterInt(d, a), c);
      hide Step, Feed, AfterInt, WithIntDigit;
      FeedSnoc(mlen, Scanning(s, d), a, c, Step(mlen, Scanning(s, AfterInt(d, a)), c));
      IntDigit(d, a, c);
      KeepsPart(d, a);
    }
  }

  // ----- The fraction -----

  /** After the digits `f` of the fraction, `whole` being the integer digits before them. */
  function AfterFrac(d: NumData, whole: string, f: string): NumData
    requires AllDigits(whole) && AllDigits(f)
  {
    d.(num := Value(whole + f) as real * Pow10(-(|f| as int)), pos := 1 + |f|, part := FracPart)
  }

  lemma ShiftDigit(v: real, c: real, w: real, p: real, q: real)
    requires q == 10.0 * p && w == v * 10.0 + c
    ensures v * q + c * p == w * p
  {
    assert v * (10.0 * p) == (v * 10.0) * p;
  }

  lemma FracDigitShifts(d: NumData, whole: string, a: string, c: char)
    requires AllDigits(whole) && AllDigits(a) && IsDigit(c)
    ensures AddFracDigit(AfterFrac(d, whole, a), c) == AfterFrac(d, whole, a + [c])
  {
    hide Pow10, Value, DigitValue;
    assert whole + (a + [c]) == (whole + a) + [c];
    ValueSnoc(whole + a, c);
    var v, w, g := Value(whole + a), Value(whole + (a + [c])), DigitValue(c);
    var k := -(|a + [c]| as int);
    Pow10Step(k);
    assert w as real == v as real * 10.0 + g as real;
    ShiftDigit(v as real, g as real, w as real, Pow10(k), Pow10(k + 1));
  }

  lemma {:induction false} FeedFrac(mlen: nat, s: State, d: NumData, whole: string, f: string)
    requires AllDigits(whole) && AllDigits(f)
    requires d.part == FracPart && d.pos == 1 && d.num == Value(whole) as real
    ensures Feed(mlen, Scanning(s, d), f) == Outcome(Scanning(s, AfterFrac(d, whole, f)), [], Ok)
  {
    hide Pow10, Step, Value;
    if f == [] {
      assert whole + f == whole;
      Pow10Zero();
    } else {
      var a, c := f[..|f| - 1], f[|f| - 1];
      FeedFrac(mlen, s, d, whole, a);
      assert f == a + [c];
      StepDigit(mlen, s, AfterFrac(d, whole, a), c);
      hide Feed;
      FeedSnoc(mlen, Scanning(s, d), a, c, Step(mlen, Scanning(s, AfterFrac(d, whole, a)), c));
      FracDigitShifts(d, whole, a, c);
    }
  }

  // ----- The exponent -----

  function AfterExp(d: NumData, ds: string): NumData
    requires AllDigits(ds)
  {
    d.(gotInt := d.gotInt || ds != [], exp := Value(ds), pos := Significant(ds))
  }

  lemma ExpDigit(d: NumData, a: string, c: char)
    requires AllDigits(a) && IsDigit(c) && d.part == ExpPart
    ensures WithExpDigit(AfterExp(d, a), c) == AfterExp(d, a + [c])
  {
    SignificantIffPositive(a);
    SignificantSnoc(a, c);
    ValueSnoc(a, c);
    hide Value, DigitValue, Significant;
    if c == '0' {
      ZeroDigit();
    }
  }

  lemma {:induction false} FeedExpDigits(mlen: nat, s: State, d: NumData, ds: string)
    requires AllDigits(ds) && d.part == ExpPart && d.exp == 0 && d.pos == 0
    ensures Feed(mlen, Scanning(s, d), ds) == Outcome(Scanning(s, AfterExp(d, ds)), [], Ok)
  {
    if ds != [] {
      var a, c := ds[..|ds| - 1], ds[|ds| - 1];
      FeedExpDigits(mlen, s, d, a);
      assert ds == a + [c];
      StepDigit(mlen, s, AfterExp(d, a), c);
      hide Step, Feed, AfterExp, WithExpDigit;
      FeedSnoc(mlen, Scanning(s, d), a, c, Step(mlen, Scanning(s, AfterExp(d, a)), c));
      ExpDigit(d, a, c);
      KeepsPart(d, a);
    }
  }

  // ----- Whole literals -----

  /** Feeding `text` ends in the middle of a number with this data, or fails before any token. */
  ghost predicate Reaches(mlen: nat, s: State, d: NumData, text: string, o: Option<NumData>) {
    var x := Feed(mlen, Scanning(s, d), text);
    match o
    case Some(d') => x == Outcome(Scanning(s, d'), [], Ok)
    case None => x.r == Syntax && x.toks == []
  }

  lemma ReachesThen(mlen: nat, s: State, d: NumData, a: string, o: Option<NumData>, b: string, o': Option<NumData>)
    requires Reaches(mlen, s, d, a, o)
    requires o.Some? ==> Reaches(mlen, s, o.value, b, o')
    ensures Reaches(mlen, s, d, a + b, if o.Some? then o' else None)
  {
    hide Feed;
    FeedConcat(mlen, Scanning(s, d), a, b);
    assert forall t: seq<Token> :: [] + t == t;
  }

  lemma ReachesChar(mlen: nat, s: State, d: NumData, c: char, o: Option<NumData>)
    requires
      var x := Step(mlen, Scanning(s, d), c);
      match o
      case Some(d') => x == Result(Scanning(s, d'), Ok, None)
      case None => x.r == Syntax && x.tok == None
    ensures Reaches(mlen, s, d, [c], o)
  {
    hide Step;
    FeedSnoc(mlen, Scanning(s, d), [], c, Step(mlen, Scanning(s, d), c));
    assert [] + [c] == [c];
  }

  lemma {:induction false} ZerosAreNothing(zs: string)
    requires AllZeros(zs)
    ensures AllDigits(zs) && Value(zs) == 0 && Significant(zs) == 0
  {
    if zs != [] {
      ZerosAreNothing(zs[..|zs| - 1]);
    }
  }

  /** Zeros before a sign leave no trace but that there were digits. */
  function ScanLead(d: NumData, lead: string): NumData {
    d.(gotInt := d.gotInt || lead != [])
  }

  lemma ReachesLead(mlen: nat, s: State, d: NumData, lead: string)
    requires AllZeros(lead) && d.part != FracPart && d.pos == 0 && (if d.part == IntPart then d.num == 0.0 else d.exp == 0)
    ensures Reaches(mlen, s, d, lead, Some(ScanLead(d, lead)))
  {
    ZerosAreNothing(lead);
    hide Feed;
    if d.part == IntPart {
      FeedInt(mlen, s, d, lead);
    } else {
      FeedExpDigits(mlen, s, d, lead);
    }
  }

  /** The sign, where one is still allowed. */
  function ScanSign(d: NumData, sign: Sign): NumData {
    if sign == NoSign then d
    else if d.part == ExpPart then d.(expIsNegative := sign == Minus, gotSign := true)
    else d.(isNegative := sign == Minus, gotSign := true)
  }

  lemma ReachesSign(mlen: nat, s: State, d: NumData, sign: Sign)
    requires d.pos == 0 && !d.gotSign && d.part != FracPart
    ensures Reaches(mlen, s, d, SignText(sign), Some(ScanSign(d, sign)))
  {
    if sign != NoSign {
      ReachesChar(mlen, s, d, SignText(sign)[0], Some(ScanSign(d, sign)));
      assert SignText(sign) == [SignText(sign)[0]];
    }
  }

  function ScanFrac(d: NumData, whole: string, frac: Option<string>): Option<NumData>
    requires AllDigits(whole) && (frac.Some? ==> AllDigits(frac.value))
  {
    if frac.None? then Some(d)
    else if d.gotInt || !d.gotSign then Some(AfterFrac(d, whole, frac.value))
    else None
  }

  lemma StepPoint(mlen: nat, s: State, d: NumData)
    requires d.part == IntPart
    ensures Step(mlen, Scanning(s, d), '.') ==
            if d.gotInt || !d.gotSign then Keep(s, d.(pos := 1, part := FracPart)) else Plain(Scanning(s, d), Syntax)
  {
  }

  lemma ReachesFrac(mlen: nat, s: State, d: NumData, whole: string, frac: Option<string>)
    requires AllDigits(whole) && (frac.Some? ==> AllDigits(frac.value))
    requires d.part == IntPart && d.num == Value(whole) as real
    ensures Reaches(mlen, s, d, FracText(frac), ScanFrac(d, whole, frac))
  {
    if frac.Some? {
      hide Feed, Step, Reaches, AfterFrac;
      var d' := d.(pos := 1, part := FracPart);
      var o := if d.gotInt || !d.gotSign then Some(d') else None;
      StepPoint(mlen, s, d);
      ReachesChar(mlen, s, d, '.', o);
      FeedFrac(mlen, s, d', whole, frac.value);
      ReachesThen(mlen, s, d, ".", o, frac.value, Some(AfterFrac(d', whole, frac.value)));
    }
  }

  predicate ExpAllowed(d: NumData) {
    match d.part
    case IntPart => d.pos > 0 || !d.gotSign
    case FracPart => d.pos >= 2
    case ExpPart => false
  }

  function ScanExp(d: NumData, exp: Option<Exponent>): Option<NumData>
    requires exp.Some? ==> AllDigits(exp.value.digits)
  {
    if exp.None? then Some(d)
    else if ExpAllowed(d) then
      Some(AfterExp(ScanSign(ScanLead(StartExp(d), exp.value.lead), exp.value.sign), exp.value.digits))
    else None
  }

  lemma StepMark(mlen: nat, s: State, d: NumData, mark: char)
    requires d.part != ExpPart && (mark == 'e' || mark == 'E')
    ensures Step(mlen, Scanning(s, d), mark) ==
            if ExpAllowed(d) then Keep(s, StartExp(d)) else Plain(Scanning(s, d), Syntax)
  {
  }

  lemma ReachesExp(mlen: nat, s: State, d: NumData, exp: Option<Exponent>)
    requires d.part != ExpPart
    requires exp.Some? ==> AllDigits(exp.value.digits) && (exp.value.mark == 'e' || exp.value.mark == 'E') && AllZeros(exp.value.lead)
    ensures Reaches(mlen, s, d, ExpText(exp), ScanExp(d, exp))
  {
    if exp.Some? {
      var e := exp.value;
      var o := if ExpAllowed(d) then Some(StartExp(d)) else None;
      hide Feed, Step, Reaches, AfterExp, StartExp;
      StepMark(mlen, s, d, e.mark);
      ReachesChar(mlen, s, d, e.mark, o);
      var d1 := ScanLead(StartExp(d), e.lead);
      var d2 := ScanSign(d1, e.sign);
      StartedExp(d);
      ReachesLead(mlen, s, StartExp(d), e.lead);
      ReachesThen(mlen, s, d, [e.mark], o, e.lead, Some(d1));
      ReachesSign(mlen, s, d1, e.sign);
      ReachesThen(mlen, s, d, [e.mark] + e.lead, if o.Some? then Some(d1) else None, SignText(e.sign), Some(d2));
      FeedExpDigits(mlen, s, d2, e.digits);
      FedReaches(mlen, s, d2, e.digits, AfterExp(d2, e.digits));
      ReachesThen(mlen, s, d, [e.mark] + e.lead + SignText(e.sign), if o.Some? then Some(d2) else None,
                  e.digits, Some(AfterExp(d2, e.digits)));
    }
  }

  lemma StartedExp(d: NumData)
    ensures var d' := StartExp(d); d'.part == ExpPart && d'.pos == 0 && d'.exp == 0 && !d'.gotSign
  {
  }

  lemma FedReaches(mlen: nat, s: State, d: NumData, t: string, d': NumData)
    requires Feed(mlen, Scanning(s, d), t) == Outcome(Scanning(s, d'), [], Ok)
    ensures Reaches(mlen, s, d, t, Some(d'))
  {
  }

  /** The scanner data after a whole literal, unless some character of it is refused. */
  function Scan(l: Literal): Option<NumData>
    requires WellFormed(l)
  {
    var d := AfterInt(ScanSign(ScanLead(NUM_START, l.lead), l.sign), l.whole);
    var o := ScanFrac(d, l.whole, l.frac);
    if o.None? then None else ScanExp(o.value, l.exp)
  }

  lemma ReachesLiteral(mlen: nat, s: State, l: Literal)
    requires WellFormed(l)
    ensures Reaches(mlen, s, NUM_START, Text(l), Scan(l))
  {
    hide Feed, Step;
    var d0 := ScanLead(NUM_START, l.lead);
    var d1 := ScanSign(d0, l.sign);
    var d := AfterInt(d1, l.whole);
    var t0, t1 := l.lead + SignText(l.sign), l.lead + SignText(l.sign) + l.whole;
    ReachesLead(mlen, s, NUM_START, l.lead);
    ReachesSign(mlen, s, d0, l.sign);
    ReachesThen(mlen, s, NUM_START, l.lead, Some(d0), SignText(l.sign), Some(d1));
    FeedInt(mlen, s, d1, l.whole);
    FedReaches(mlen, s, d1, l.whole, d);
    ReachesThen(mlen, s, NUM_START, t0, Some(d1), l.whole, Some(d));
    ReachesFrac(mlen, s, d, l.whole, l.frac);
    var o := ScanFrac(d, l.whole, l.frac);
    ReachesThen(mlen, s, NUM_START, t1, Some(d), FracText(l.frac), o);
    if o.Some? {
      ReachesExp(mlen, s, o.value, l.exp);
    }
    ReachesThen(mlen, s, NUM_START, t1 + FracText(l.frac), o, ExpText(l.exp),
                if o.Some? then ScanExp(o.value, l.exp) else None);
  }

  /** May the number end here? */
  predicate MayEnd(d: NumData) {
    match d.part
    case IntPart => d.pos > 0 || !d.gotSign
    case FracPart => d.pos >= 2 || d.gotInt
    case ExpPart => d.pos > 0
  }

  lemma AcceptedIffScanned(l: Literal)
    requires WellFormed(l)
    ensures Accepted(l) <==> (Scan(l).Some? && MayEnd(Scan(l).value))
  {
    SignificantIffPositive(l.whole);
    if l.exp.Some? {
      SignificantIffPositive(l.exp.value.digits);
    }
  }

  lemma ScannedValue(l: Literal)
    requires WellFormed(l) && Scan(l).Some?
    ensures NumValue(Scan(l).value) == Exact(l)
  {
    hide Pow10, Value;
    var f, e, d := FracDigits(l), ExpValue(l), Scan(l).value;
    var v := Value(l.whole + f) as real;
    if l.frac.None? {
      assert l.whole + f == l.whole;
      Pow10Zero();
    }
    assert d.num == v * Pow10(-(|f| as int));
    Pow10Sum(-(|f| as int), e);
    assert v * Pow10(-(|f| as int)) * Pow10(e) == v * (Pow10(-(|f| as int)) * Pow10(e));
  }

  /** A number begins with the character that makes the idle reader start scanning it. */
  lemma {:induction false} StartsScanning(mlen: nat, s: State, t: string)
    requires s.mode == Idle && ValExpected(s)
    requires t != [] && (IsDigit(t[0]) || t[0] == '-' || t[0] == '+' || t[0] == '.')
    ensures Feed(mlen, s, t) == Feed(mlen, Scanning(StartValue(s, s.mode), NUM_START), t)
  {
    assert Step(mlen, s, t[0]) == Step(mlen, Scanning(StartValue(s, s.mode), NUM_START), t[0]);
    hide Step;
  }

  lemma EndsAtSeparator(mlen: nat, s: State, d: NumData, sep: char)
    requires IsSeparator(sep)
    ensures Step(mlen, Scanning(s, d), sep) ==
            if MayEnd(d) then EndScalar(sep, Num(d)) else Plain(Scanning(s, d), Syntax)
  {
  }

  /**
   Number meaning, for every decimal literal with any number of digits in each
   part: where a value is expected, the literal followed by a separator is read
   as one number exactly if it is `Accepted`, otherwise it is a syntax error
   without any token; and the number reported is the literal's exact value.
   */
  lemma NumberMeaning(mlen: nat, s: State, l: Literal, sep: char)
    requires s.mode == Idle && ValExpected(s)
    requires WellFormed(l) && IsSeparator(sep)
    ensures
      var o := Feed(mlen, s, Text(l) + [sep]);
      if Accepted(l) then
        && o.st == State(Idle, sep == ',', sep != '\n', false, true)
        && o.r == (if sep == '\0' then Fin else Ok)
        && |o.toks| == 1 && o.toks[0].Num? && NumValue(o.toks[0].data) == Exact(l)
      else
        o.r == Syntax && o.toks == []
  {
    hide Feed, Step, NumValue, Exact;
    var s0, t := StartValue(s, s.mode), Text(l);
    StartsScanning(mlen, s, t + [sep]);
    ReachesLiteral(mlen, s0, l);
    AcceptedIffScanned(l);
    if Scan(l).Some? {
      var d := Scan(l).value;
      EndsAtSeparator(mlen, s0, d, sep);
      FeedSnoc(mlen, Scanning(s0, NUM_START), t, sep, Step(mlen, Scanning(s0, d), sep));
      ScannedValue(l);
    } else {
      FeedConcat(mlen, Scanning(s0, NUM_START), t, [sep]);
    }
  }

  /** Numbers that any decimal notation knows and the reader refuses. */
  lemma ZerosRefused(mlen: nat, s: State)
    requires s.mode == Idle && ValExpected(s)
    ensures Feed(mlen, s, "-0\n").r == Syntax && Feed(mlen, s, "1e0\n").r == Syntax
  {
    hide Feed;
    var a := Literal("", Minus, "0", None, None);
    var b := Literal("", NoSign, "1", None, Some(Exponent('e', "", NoSign, "0")));
    assert Text(a) + ['\n'] == "-0\n" && Text(b) + ['\n'] == "1e0\n";
    assert Value("0") == 0;
    NumberMeaning(mlen, s, a, '\n');
    NumberMeaning(mlen, s, b, '\n');
  }
}
