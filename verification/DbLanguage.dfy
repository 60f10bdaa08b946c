/**
 The exact language of the key/value reader of `src/rdb.c`: a reader that takes whole
 words, strings and numbers at a time, and the proof that the streaming reader accepts
 the same texts and delivers the same data.
 */
module DbLanguage {
  import opened Chars
  import opened DbNumbers
  import opened DbReader
  import opened DbRoundTrip
  import opened Decimal
  import opened Options

  predicate NoSeparator(w: string) {
    forall i | 0 <= i < |w| :: !IsSeparator(w[i])
  }

  // ----- Numbers -----

  predicate StartsNumber(c: char) {
    IsDigit(c) || c == '-' || c == '+' || c == '.'
  }

  function SignOf(c: char): Sign {
    if c == '-' then Minus else Plus
  }

  /** A literal of one character. */
  function First(c: char): Literal
    requires StartsNumber(c)
  {
    if IsDigit(c) then Literal("", NoSign, [c], None, None)
    else if c == '.' then Literal("", NoSign, "", Some(""), None)
    else Literal("", SignOf(c), "", None, None)
  }

  predicate IsSign(c: char) {
    c == '-' || c == '+'
  }

  predicate IsMark(c: char) {
    c == 'e' || c == 'E'
  }

  function GrownExp(e: Exponent, c: char): Option<Exponent> {
    if IsDigit(c) then Some(e.(digits := e.digits + [c]))
    else if IsSign(c) && e.sign == NoSign && AllZeros(e.digits) then
      Some(e.(lead := e.digits, sign := SignOf(c), digits := ""))
    else None
  }

  /** The literal with one more character at its end, if that is a literal. */
  function Grown(l: Literal, c: char): Option<Literal> {
    if l.exp.Some? then
      var e := GrownExp(l.exp.value, c);
      if e.Some? then Some(l.(exp := e)) else None
    else if IsMark(c) then Some(l.(exp := Some(Exponent(c, "", NoSign, ""))))
    else if l.frac.Some? then
      if IsDigit(c) then Some(l.(frac := Some(l.frac.value + [c]))) else None
    else if IsDigit(c) then Some(l.(whole := l.whole + [c]))
    else if c == '.' then Some(l.(frac := Some("")))
    else if IsSign(c) && l.sign == NoSign && AllZeros(l.whole) then
      Some(l.(lead := l.whole, sign := SignOf(c), whole := ""))
    else None
  }

  function LiteralOf(w: string): Option<Literal>
    requires w != [] && StartsNumber(w[0])
  {
    if |w| == 1 then Some(First(w[0]))
    else
      var l := LiteralOf(w[..|w| - 1]);
      if l == None then None else Grown(l.value, w[|w| - 1])
  }

  lemma SignTextOf(c: char)
    requires IsSign(c)
    ensures SignText(SignOf(c)) == [c] && SignText(NoSign) == ""
  {
  }

  lemma GrownExpText(e: Exponent, c: char)
    requires AllDigits(e.digits) && IsLead(e.lead, e.sign) && GrownExp(e, c).Some?
    ensures
      var e' := GrownExp(e, c).value;
      && AllDigits(e'.digits) && IsLead(e'.lead, e'.sign) && e'.mark == e.mark
      && ExpText(Some(e')) == ExpText(Some(e)) + [c]
  {
    if IsDigit(c) {
      var a := [e.mark] + e.lead + SignText(e.sign);
      assert a + (e.digits + [c]) == a + e.digits + [c];
    } else {
      SignTextOf(c);
      assert e.lead == "";
      assert [e.mark] + "" + "" + e.digits + [c] == [e.mark] + e.digits + [c] + "";
    }
  }

  lemma GrownText(l: Literal, c: char)
    requires WellFormed(l) && Grown(l, c).Some?
    ensures WellFormed(Grown(l, c).value) && Text(Grown(l, c).value) == Text(l) + [c]
  {
    var l' := Grown(l, c).value;
    var a := l.lead + SignText(l.sign);
    if l.exp.Some? {
      GrownExpText(l.exp.value, c);
      hide ExpText;
      var b := a + l.whole + FracText(l.frac);
      assert b + (ExpText(l.exp) + [c]) == b + ExpText(l.exp) + [c];
    } else if IsMark(c) {
      assert ExpText(l'.exp) == [c];
    } else if l.frac.Some? {
      assert a + l.whole + ("." + (l.frac.value + [c])) + "" == a + l.whole + ("." + l.frac.value) + "" + [c];
    } else if IsDigit(c) {
      assert a + (l.whole + [c]) + "" + "" == a + l.whole + "" + "" + [c];
    } else if c == '.' {
      assert "." + "" == [c];
    } else {
      SignTextOf(c);
      assert l.lead == "";
      assert "" + "" + l.whole + "" + "" + [c] == l.whole + [c] + "" + "" + "";
    }
  }

  lemma FirstText(c: char)
    requires StartsNumber(c)
    ensures WellFormed(First(c)) && Text(First(c)) == [c]
  {
    if IsSign(c) {
      SignTextOf(c);
    }
  }

  lemma {:induction false} InsignificantZeros(s: string)
    requires AllDigits(s)
    ensures Significant(s) == 0 <==> AllZeros(s)
  {
    if s != [] {
      InsignificantZeros(s[..|s| - 1]);
      assert AllZeros(s) <==> AllZeros(s[..|s| - 1]) && s[|s| - 1] == '0';
    }
  }

  /** What the scanner knows after a literal. */
  lemma ScanIs(l: Literal)
    requires WellFormed(l) && Scan(l).Some?
    ensures
      var d := Scan(l).value;
      && (l.exp.Some? ==>
            d.part == ExpPart && (d.pos == 0 <==> AllZeros(l.exp.value.digits)) && d.gotSign == (l.exp.value.sign != NoSign))
      && (l.exp.None? && l.frac.Some? ==> d.part == FracPart)
      && (l.exp.None? && l.frac.None? ==>
            d.part == IntPart && (d.pos == 0 <==> AllZeros(l.whole)) && d.gotSign == (l.sign != NoSign))
  {
    InsignificantZeros(l.whole);
    if l.exp.Some? {
      InsignificantZeros(l.exp.value.digits);
    }
    hide Value, Pow10, Significant, AllZeros;
  }

  lemma RefusedBy(mlen: nat, s: State, d: NumData, c: char)
    requires !IsDigit(c) && !IsSeparator(c) && (d.part != ExpPart ==> !IsMark(c)) && (d.part == IntPart ==> c != '.')
    requires IsSign(c) && d.part != FracPart ==> d.pos != 0 || d.gotSign
    ensures Step(mlen, Scanning(s, d), c) == Plain(Scanning(s, d), Syntax)
  {
    hide Pow10;
  }

  /** A character that makes no literal is refused. */
  lemma Refused(mlen: nat, s: State, l: Literal, c: char)
    requires WellFormed(l) && Scan(l).Some? && Grown(l, c) == None && !IsSeparator(c)
    ensures Step(mlen, Scanning(s, Scan(l).value), c) == Plain(Scanning(s, Scan(l).value), Syntax)
  {
    ScanIs(l);
    hide Scan, Step, AllZeros;
    RefusedBy(mlen, s, Scan(l).value, c);
  }

  lemma SyntaxStays(mlen: nat, s: State, a: string, b: string)
    requires Feed(mlen, s, a).r == Syntax
    ensures Feed(mlen, s, a + b) == Feed(mlen, s, a)
  {
    hide Feed;
    FeedConcat(mlen, s, a, b);
  }

  /** A word is a literal, or some character of it is refused. */
  lemma {:induction false} WordScanned(mlen: nat, s: State, w: string)
    requires w != [] && StartsNumber(w[0]) && NoSeparator(w)
    ensures
      match LiteralOf(w)
      case Some(l) => WellFormed(l) && Text(l) == w
      case None =>
        var o := Feed(mlen, Scanning(s, NUM_START), w);
        o.r == Syntax && o.toks == []
    decreases |w|
  {
    if |w| == 1 {
      FirstText(w[0]);
      assert w == [w[0]];
    } else {
      var a, c := w[..|w| - 1], w[|w| - 1];
      assert w == a + [c];
      WordScanned(mlen, s, a);
      hide Feed, Step;
      if LiteralOf(a) == None {
        SyntaxStays(mlen, Scanning(s, NUM_START), a, [c]);
      } else {
        var l := LiteralOf(a).value;
        hide LiteralOf;
        ReachesLiteral(mlen, s, l);
        if Grown(l, c).Some? {
          GrownText(l, c);
        } else if Scan(l).Some? {
          Refused(mlen, s, l, c);
          FeedSnoc(mlen, Scanning(s, NUM_START), a, c, Step(mlen, Scanning(s, Scan(l).value), c));
        } else {
          SyntaxStays(mlen, Scanning(s, NUM_START), a, [c]);
        }
        hide Scan, Grown;
      }
    }
  }

  /** The value of a word, if it is an accepted literal. */
  function NumberOf(w: string): Option<real>
    requires w != [] && StartsNumber(w[0]) && NoSeparator(w)
  {
    WordScanned(0, INIT, w);
    var l := LiteralOf(w);
    if l.Some? && Accepted(l.value) then Some(Exact(l.value)) else None
  }

  /** Where the reader is after a number or boolean and its separator. */
  function AfterScalar(sep: char): State {
    State(Idle, sep == ',', sep != '\n', false, true)
  }

  lemma NumberRead(mlen: nat, s: State, w: string, sep: char)
    requires s.mode == Idle && ValExpected(s)
    requires w != [] && StartsNumber(w[0]) && NoSeparator(w) && IsSeparator(sep)
    ensures
      var o := Feed(mlen, s, w + [sep]);
      match NumberOf(w)
      case Some(v) =>
        o.st == AfterScalar(sep) && o.r == (if sep == '\0' then Fin else Ok) && |o.toks| == 1 && Meaning(o.toks[0]) == NumD(v)
      case None => o.r == Syntax && o.toks == []
  {
    hide Feed, Step, NumValue, Exact, Text, Accepted;
    var s0 := StartValue(s, s.mode);
    WordScanned(mlen, s0, w);
    WordScanned(0, INIT, w);
    if LiteralOf(w).Some? {
      NumberMeaning(mlen, s, LiteralOf(w).value, sep);
    } else {
      StartsScanning(mlen, s, w + [sep]);
      SyntaxStays(mlen, Scanning(s0, NUM_START), w, [sep]);
    }
  }

  /**
   Numbers, for every string without a separator that starts like one: followed by a
   separator it is read as a number exactly if it is the text of an accepted literal,
   and then with the literal's exact value; otherwise it is a syntax error.
   */
  lemma NumberLanguage(mlen: nat, s: State, w: string, sep: char)
    requires s.mode == Idle && ValExpected(s)
    requires w != [] && StartsNumber(w[0]) && NoSeparator(w) && IsSeparator(sep)
    ensures
      var o := Feed(mlen, s, w + [sep]);
      match NumberOf(w)
      case Some(v) =>
        o.st == AfterScalar(sep) && o.r == (if sep == '\0' then Fin else Ok) && |o.toks| == 1 && Meaning(o.toks[0]) == NumD(v)
      case None => o.r == Syntax && o.toks == []
    ensures NumberOf(w).Some? <==> exists l: Literal :: WellFormed(l) && Text(l) == w && Accepted(l)
  {
    NumberRead(mlen, s, w, sep);
    WordScanned(0, INIT, w);
    hide Feed, NumValue, Exact, LiteralOf, Text, Accepted;
    if l: Literal :| WellFormed(l) && Text(l) == w && Accepted(l) {
      NumberMeaning(mlen, s, l, sep);
    }
  }

  // ----- Booleans -----

  /** A character that starts neither a number nor a string nor anything between values. */
  predicate StartsWord(c: char) {
    !StartsNumber(c) && !IsSeparator(c) && c != ':' && c != '\"' && c != '<'
  }

  /**
   Booleans, for every string without a separator: followed by a separator it is read as
   a boolean exactly if it is a beginning of "true" or "false".
   */
  lemma BoolLanguage(mlen: nat, s: State, w: string, sep: char)
    requires s.mode == Idle && ValExpected(s)
    requires w != [] && StartsWord(w[0]) && NoSeparator(w) && IsSeparator(sep)
    ensures
      var o := Feed(mlen, s, w + [sep]);
      if IsBoolWord(w) then o == Outcome(AfterScalar(sep), [Bool(w <= "true")], if sep == '\0' then Fin else Ok)
      else o.r == Syntax && o.toks == []
  {
    var s0, t := StartValue(s, InBool("")), w + [sep];
    assert Step(mlen, s, t[0]) == NextBool(s0, "", t[0]) == Step(mlen, s0, t[0]);
    assert Feed(mlen, s, t) == Feed(mlen, s0, t) by { hide Step; }
    FeedWord(mlen, s0, "", w);
    assert "" + w == w;
    if |w| <= MAX_WORD {
      var s1 := s0.(mode := InBool(w));
      assert Step(mlen, s1, sep) == NextBool(s1, w, sep);
      hide Step, Feed;
      FeedSnoc(mlen, s0, w, sep, Step(mlen, s1, sep));
    } else {
      hide Feed;
      SyntaxStays(mlen, s0, w, [sep]);
    }
  }

  lemma BeginsTrue()
    ensures IsBoolWord("t")
  {
    assert "true"[..1] == "t";
  }

  lemma MinusFive()
    ensures
      var l := Literal("0", Minus, "5", None, None);
      WellFormed(l) && Accepted(l) && Text(l) == "0-5" && Exact(l) == -5.0
  {
    assert "5" + "" == "5" && Value("5") == 5;
    Pow10Zero();
    hide Pow10;
  }

  /** Scalars that no writer writes: zeros before a sign, and the beginning of a boolean. */
  lemma OddScalars(mlen: nat, s: State)
    requires s.mode == Idle && ValExpected(s)
    ensures
      var a, b := Feed(mlen, s, "0-5\n"), Feed(mlen, s, "t\n");
      a.r == Ok && Meanings(a.toks) == [NumD(-5.0)] && b.r == Ok && Meanings(b.toks) == [BoolD(true)]
  {
    hide Feed, Exact, NumValue, Text, Accepted, WellFormed, IsBoolWord;
    var l := Literal("0", Minus, "5", None, None);
    MinusFive();
    NumberMeaning(mlen, s, l, '\n');
    assert IsBoolWord("t") by { BeginsTrue(); }
    BoolLanguage(mlen, s, "t", '\n');
    assert "0-5" + ['\n'] == "0-5\n" && "t" + ['\n'] == "t\n";
  }

  // ----- Keys -----

  /** How many characters of a key the text begins with. */
  function KeyLen(t: string): (n: nat)
    ensures n <= |t| && (forall i | 0 <= i < n :: IsKeyChar(t[i])) && (n < |t| ==> !IsKeyChar(t[n]))
  {
    if t == [] || !IsKeyChar(t[0]) then 0 else 1 + KeyLen(t[1..])
  }

  predicate EndsKey(c: char) {
    c == ':' || c == ' ' || c == '\t'
  }

  /** A key: its characters, then a colon or a blank, within the buffer. */
  lemma KeyLanguage(mlen: nat, s: State, t: string)
    requires s.mode == Idle && !s.gotKey && t != [] && StartsWord(t[0])
    ensures
      var o, n := Feed(mlen, s, t), KeyLen(t);
      if 0 < n < mlen && n < |t| && EndsKey(t[n]) then
        var y := Feed(mlen, State(Idle, false, true, t[n] != ':', false), t[n + 1..]);
        o == y.(toks := [Key(t[..n])] + y.toks)
      else o.r != Fin
  {
    var n := KeyLen(t);
    var k := t[..n];
    assert Step(mlen, s, t[0]) == NextKey(mlen, KeyState(""), "", t[0]);
    StepInKey(mlen, "", t[0]);
    assert Feed(mlen, s, t) == Feed(mlen, KeyState(""), t) by { hide Step; }
    hide Step;
    FeedKeyChars(mlen, "", k);
    assert "" + k == k && t == k + t[n..];
    hide Feed;
    FeedConcat(mlen, KeyState(""), k, t[n..]);
    if n < |t| && n <= mlen {
      StepInKey(mlen, k, t[n]);
      FeedFirstStep(mlen, KeyState(k), t[n..]);
      assert t[n..][1..] == t[n + 1..];
    } else if n == |t| {
      FeedNone(mlen, KeyState(k));
      assert t[n..] == [];
    }
  }

  lemma FeedNone(mlen: nat, s: State)
    ensures Feed(mlen, s, []).r == Ok
  {
  }

  lemma FeedFirstStep(mlen: nat, s: State, t: string)
    requires t != []
    ensures
      var x := Step(mlen, s, t[0]);
      Feed(mlen, s, t) ==
      if x.r != Ok then Outcome(x.next, Delivered(x.tok), x.r)
      else var y := Feed(mlen, x.next, t[1..]); y.(toks := Delivered(x.tok) + y.toks)
  {
    hide Step;
  }

  // ----- Strings -----

  /** A string and the text behind it; `raw` if its last character is a line break that was not escaped. */
  datatype Found = Found(v: string, raw: bool, rest: string)

  function Put(c: char, raw: bool, f: Option<Found>): Option<Found> {
    if f == None then None else Some(Found([c] + f.value.v, if f.value.v == [] then raw else f.value.raw, f.value.rest))
  }

  /** Characters that may not stand in a string. */
  predicate Forbidden(long: bool, c: char) {
    IsControl(c) && c != '\t' && !(long && c == '\n')
  }

  /** The string that the text begins with, up to its closing delimiter; `esc` if a backslash comes before it. */
  function StringAt(long: bool, t: string, esc: bool): (f: Option<Found>)
    ensures f.Some? ==> |f.value.rest| < |t|
  {
    if t == [] || Forbidden(long, t[0]) then None
    else if !esc && t[0] == (if long then '>' else '\"') then Some(Found("", false, t[1..]))
    else if !esc && t[0] == '\\' then StringAt(long, t[1..], true)
    else
      var c := if esc then Unescape(t[0]) else t[0];
      Put(c, c == '\n' && !esc, StringAt(long, t[1..], false))
  }

  /** An angle-bracketed string may start with blanks and a line break, which are passed over. */
  function SkipBlanks(t: string): (r: string)
    ensures |r| <= |t|
  {
    if t != [] && t[0] == '\n' then t[1..]
    else if t != [] && (t[0] == ' ' || t[0] == '\t') then SkipBlanks(t[1..])
    else t
  }

  /** The state behind a string. */
  function AfterString(s: State): State {
    s.(mode := Idle, expectColon := false, gotKey := true, gotFirstVal := true)
  }

  /** Is the last of the characters decoded a line break that was not escaped? */
  predicate EndsRaw(buf: string, keep: bool, f: Found) {
    if f.v == [] then buf != [] && buf[|buf| - 1] == '\n' && !keep else f.raw
  }

  /** What a string delivers: in the long form not a last line break that was not escaped. */
  function Delivers(long: bool, buf: string, keep: bool, f: Found): string {
    var text := buf + f.v;
    if long && EndsRaw(buf, keep, f) && text != [] then text[..|text| - 1] else text
  }

  /** The string was found and fits with its NUL: it is delivered and the reader goes on behind it. */
  ghost predicate StringRead(mlen: nat, o: Outcome, s: State, long: bool, buf: string, keep: bool, f: Option<Found>) {
    if f.Some? && |Delivers(long, buf, keep, f.value)| < mlen then
      var y := Feed(mlen, AfterString(s), f.value.rest);
      o == y.(toks := [Str(Delivers(long, buf, keep, f.value))] + y.toks)
    else o.r != Fin
  }

  predicate InString(s: State, long: bool, buf: string, esc: bool, keep: bool) {
    s.mode == if long then InLong(buf, esc, false, keep) else InStr(buf, esc)
  }

  function StringMode(long: bool, buf: string, esc: bool, keep: bool): Mode {
    if long then InLong(buf, esc, false, keep) else InStr(buf, esc)
  }

  lemma StringStep(mlen: nat, s: State, long: bool, buf: string, esc: bool, keep: bool, ch: char)
    requires InString(s, long, buf, esc, keep) && |buf| <= mlen
    ensures
      var x := Step(mlen, s, ch);
      if Forbidden(long, ch) then x.r == Syntax && x.tok == None
      else if !esc && ch == (if long then '>' else '\"') then
        var text := Delivers(long, buf, keep, Found("", false, ""));
        x == if |text| < mlen then Result(AfterString(s), Ok, Some(Str(text))) else Plain(s, Syntax)
      else if !esc && ch == '\\' then x == Plain(s.(mode := StringMode(long, buf, true, keep)), Ok)
      else
        var c := if esc then Unescape(ch) else ch;
        if |buf| == mlen then x.r == Syntax && x.tok == None
        else x == Plain(s.(mode := StringMode(long, buf + [c], false, esc && c == '\n')), Ok)
  {
    assert buf + "" == buf;
    if long {
      assert Step(mlen, s, ch) == NextLong(mlen, s, buf, esc, false, keep, ch);
    } else {
      assert Step(mlen, s, ch) == NextStr(mlen, s, buf, esc, ch);
    }
    hide Step;
  }

  lemma DeliversMore(long: bool, buf: string, keep: bool, c: char, esc: bool, f: Option<Found>)
    requires f.Some?
    ensures
      var f' := Put(c, c == '\n' && !esc, f).value;
      Delivers(long, buf + [c], esc && c == '\n', f.value) == Delivers(long, buf, keep, f') && f'.rest == f.value.rest
  {
    assert buf + [c] + f.value.v == buf + ([c] + f.value.v);
  }

  lemma TooLong(long: bool, buf: string, keep: bool, f: Found, mlen: nat)
    requires |buf| >= mlen && f.v != []
    ensures |Delivers(long, buf, keep, f)| >= mlen
  {
  }

  lemma {:induction false} StringLanguage(mlen: nat, s: State, long: bool, buf: string, esc: bool, keep: bool, t: string)
    requires InString(s, long, buf, esc, keep) && |buf| <= mlen
    ensures StringRead(mlen, Feed(mlen, s, t), s, long, buf, keep, StringAt(long, t, esc))
    decreases |t|, 0
  {
    if t == [] {
      FeedNone(mlen, s);
    } else {
      hide Step, Delivers, InString;
      StringStep(mlen, s, long, buf, esc, keep, t[0]);
      FeedFirstStep(mlen, s, t);
      hide Feed;
      if Forbidden(long, t[0]) || (!esc && t[0] == (if long then '>' else '\"')) {
        SameDelivery(long, buf, keep, t[1..]);
      } else if !esc && t[0] == '\\' {
        StringGoesOn(mlen, s, long, buf, true, keep, t[1..]);
        hide StringRead;
      } else {
        var c := if esc then Unescape(t[0]) else t[0];
        var f := StringAt(long, t[1..], false);
        hide StringAt;
        if |buf| < mlen {
          StringGoesOn(mlen, s, long, buf + [c], false, esc && c == '\n', t[1..]);
          PutRead(mlen, Feed(mlen, s, t), s, long, buf, keep, c, esc, f);
          hide StringRead;
        } else if f.Some? {
          TooLong(long, buf, keep, Put(c, c == '\n' && !esc, f).value, mlen);
        }
        assert StringRead(mlen, Feed(mlen, s, t), s, long, buf, keep, Put(c, c == '\n' && !esc, f));
        Unfolds(long, t, esc);
      }
    }
  }

  lemma Unfolds(long: bool, t: string, esc: bool)
    requires t != [] && !Forbidden(long, t[0]) && (esc || (t[0] != (if long then '>' else '\"') && t[0] != '\\'))
    ensures
      var c := if esc then Unescape(t[0]) else t[0];
      StringAt(long, t, esc) == Put(c, c == '\n' && !esc, StringAt(long, t[1..], false))
  {
  }

  lemma PutRead(mlen: nat, o: Outcome, s: State, long: bool, buf: string, keep: bool, c: char, esc: bool, f: Option<Found>)
    ensures
      StringRead(mlen, o, s, long, buf + [c], esc && c == '\n', f) <==>
      StringRead(mlen, o, s, long, buf, keep, Put(c, c == '\n' && !esc, f))
  {
    hide Feed, Delivers;
    if f.Some? {
      DeliversMore(long, buf, keep, c, esc, f);
    }
  }

  lemma SameDelivery(long: bool, buf: string, keep: bool, rest: string)
    ensures Delivers(long, buf, keep, Found("", false, rest)) == Delivers(long, buf, keep, Found("", false, ""))
  {
  }

  /** The rest of a string, after a character that has delivered nothing. */
  lemma {:induction false} StringGoesOn(mlen: nat, s: State, long: bool, buf: string, esc: bool, keep: bool, t: string)
    requires |buf| <= mlen
    ensures
      var o := Feed(mlen, s.(mode := StringMode(long, buf, esc, keep)), t);
      StringRead(mlen, o, s, long, buf, keep, StringAt(long, t, esc)) && o.(toks := [] + o.toks) == o
    decreases |t|, 1
  {
    var s1 := s.(mode := StringMode(long, buf, esc, keep));
    StringLanguage(mlen, s1, long, buf, esc, keep, t);
    assert AfterString(s1) == AfterString(s);
    hide Feed;
    assert [] + Feed(mlen, s1, t).toks == Feed(mlen, s1, t).toks;
  }

  lemma SkippingStep(mlen: nat, s: State, keep: bool, ch: char)
    requires s.mode == InLong("", false, true, keep)
    ensures
      var x, y := Step(mlen, s, ch), Step(mlen, s.(mode := InLong("", false, false, keep)), ch);
      if ch == ' ' || ch == '\t' || ch == '\n' then x == Plain(s.(mode := InLong("", false, ch != '\n', true)), Ok)
      else if x.r == Ok then x == y
      else x.r == y.r == Syntax
  {
  }

  /** The first character that is not passed over. */
  lemma LongBegins(mlen: nat, s: State, keep: bool, t: string)
    requires s.mode == InLong("", false, true, keep) && t != [] && t[0] != ' ' && t[0] != '\t' && t[0] != '\n'
    ensures StringRead(mlen, Feed(mlen, s, t), s, true, "", false, StringAt(true, t, false))
  {
    var s1 := s.(mode := InLong("", false, false, keep));
    SkippingStep(mlen, s, keep, t[0]);
    hide Step;
    FeedFirstStep(mlen, s, t);
    FeedFirstStep(mlen, s1, t);
    hide Feed, StringAt, StringRead;
    StringGoesOn(mlen, s, true, "", false, keep, t);
    KeepsNothing(mlen, Feed(mlen, s1, t), s, keep, StringAt(true, t, false));
    SyntaxTok(mlen, s, t[0]);
    SyntaxTok(mlen, s1, t[0]);
    StringReadAs(mlen, Feed(mlen, s1, t), Feed(mlen, s, t), s, StringAt(true, t, false));
  }

  lemma SyntaxTok(mlen: nat, s: State, c: char)
    requires s.mode.InLong?
    ensures Step(mlen, s, c).r == Syntax ==> Step(mlen, s, c).tok == None
  {
  }

  /** An angle-bracketed string from its opening bracket on. */
  lemma {:induction false} LongLanguage(mlen: nat, s: State, keep: bool, t: string)
    requires s.mode == InLong("", false, true, keep)
    ensures StringRead(mlen, Feed(mlen, s, t), s, true, "", false, StringAt(true, SkipBlanks(t), false))
    decreases |t|
  {
    if t == [] {
      FeedNone(mlen, s);
    } else if t[0] != ' ' && t[0] != '\t' && t[0] != '\n' {
      hide Feed, StringAt;
      LongBegins(mlen, s, keep, t);
    } else {
      SkippingStep(mlen, s, keep, t[0]);
      hide Step, StringAt;
      FeedFirstStep(mlen, s, t);
      hide Feed;
      if t[0] == '\n' {
        hide StringRead;
        StringGoesOn(mlen, s, true, "", false, true, t[1..]);
        KeepsNothing(mlen, Feed(mlen, s, t), s, true, StringAt(true, t[1..], false));
      } else {
        var s1 := s.(mode := InLong("", false, true, true));
        LongLanguage(mlen, s1, true, t[1..]);
        assert AfterString(s1) == AfterString(s);
        assert [] + Feed(mlen, s1, t[1..]).toks == Feed(mlen, s1, t[1..]).toks;
      }
    }
  }

  /** With nothing decoded yet it does not matter what came before. */
  lemma KeepsNothing(mlen: nat, o: Outcome, s: State, keep: bool, f: Option<Found>)
    ensures StringRead(mlen, o, s, true, "", keep, f) <==> StringRead(mlen, o, s, true, "", false, f)
  {
    hide Feed;
  }

  lemma StringReadAs(mlen: nat, o: Outcome, o': Outcome, s: State, f: Option<Found>)
    requires StringRead(mlen, o, s, true, "", false, f) && (o == o' || (o.r == o'.r == Syntax && o.toks == o'.toks == []))
    ensures StringRead(mlen, o', s, true, "", false, f)
  {
    hide Feed;
  }

  // ----- Whole texts -----

  /** How many characters the text has before its first separator. */
  function WordLen(t: string): (n: nat)
    ensures n <= |t| && NoSeparator(t[..n]) && (n < |t| ==> IsSeparator(t[n]))
  {
    if t == [] || IsSeparator(t[0]) then 0
    else
      var n := WordLen(t[1..]);
      assert t[..n + 1] == [t[0]] + t[1..][..n];
      1 + n
  }

  function Then(d: Datum, ds: Option<seq<Datum>>): Option<seq<Datum>> {
    if ds == None then None else Some([d] + ds.value)
  }

  /** The data of a text from a place between tokens up to its NUL, or nothing if it is not in the language. */
  function Data(mlen: nat, s: State, t: string): Option<seq<Datum>>
    decreases |t|
  {
    if t == [] then None
    else if t[0] == '\0' then Some([])
    else if t[0] == ' ' || t[0] == '\t' then Data(mlen, s, t[1..])
    else if t[0] == '\n' then Data(mlen, s.(isInArr := false, gotKey := false, gotFirstVal := false), t[1..])
    else if t[0] == ',' then Data(mlen, s.(isInArr := true), t[1..])
    else if t[0] == ':' then if s.expectColon then Data(mlen, s.(expectColon := false), t[1..]) else None
    else if StartsWord(t[0]) && !s.gotKey then KeyData(mlen, t)
    else if !ValExpected(s) then None
    else if t[0] == '\"' then StringData(mlen, s, false, StringAt(false, t[1..], false), t)
    else if t[0] == '<' then StringData(mlen, s, true, StringAt(true, SkipBlanks(t[1..]), false), t)
    else ScalarData(mlen, t)
  }

  function KeyData(mlen: nat, t: string): Option<seq<Datum>>
    decreases |t|, 0
  {
    var n := KeyLen(t);
    if 0 < n < mlen && n < |t| && EndsKey(t[n]) then
      Then(KeyD(t[..n]), Data(mlen, State(Idle, false, true, t[n] != ':', false), t[n + 1..]))
    else None
  }

  function StringData(mlen: nat, s: State, long: bool, f: Option<Found>, t: string): Option<seq<Datum>>
    requires f.Some? ==> |f.value.rest| < |t|
    decreases |t|, 0
  {
    if f.Some? && |Delivers(long, "", false, f.value)| < mlen then
      Then(StrD(Delivers(long, "", false, f.value)), Data(mlen, AfterString(s).(mode := Idle), f.value.rest))
    else None
  }

  /** A number or a boolean, and the separator that ends it. */
  function ScalarData(mlen: nat, t: string): Option<seq<Datum>>
    requires t != [] && !IsSeparator(t[0])
    decreases |t|, 0
  {
    var n := WordLen(t);
    var v := ScalarOf(t[..n]);
    if n == |t| || v == None then None
    else if t[n] == '\0' then Some([v.value])
    else Then(v.value, Data(mlen, AfterScalar(t[n]), t[n + 1..]))
  }

  function ScalarOf(w: string): Option<Datum>
    requires w != [] && NoSeparator(w)
  {
    if StartsNumber(w[0]) then
      var v := NumberOf(w);
      if v == None then None else Some(NumD(v.value))
    else if IsBoolWord(w) then Some(BoolD(w <= "true"))
    else None
  }

  /** The streaming reader has come to the NUL with just these data, or has not come to it. */
  predicate Agrees(o: Outcome, ds: Option<seq<Datum>>) {
    if o.r == Fin then ds == Some(Meanings(o.toks)) else ds == None
  }

  lemma AgreesThen(o: Outcome, tok: Token, y: Outcome, ds: Option<seq<Datum>>)
    requires o == y.(toks := [tok] + y.toks) && Agrees(y, ds)
    ensures Agrees(o, Then(Meaning(tok), ds))
  {
    hide NumValue;
    assert Meanings([tok] + y.toks) == [Meaning(tok)] + Meanings(y.toks);
  }

  /** What the idle reader does with a character that is no token by itself. */
  lemma IdleStep(mlen: nat, s: State, c: char)
    requires s.mode == Idle
    ensures
      var x := Step(mlen, s, c);
      if c == '\0' then x.r == Fin && x.tok == None
      else if c == ' ' || c == '\t' then x == Plain(s, Ok)
      else if c == '\n' then x == Plain(s.(isInArr := false, gotKey := false, gotFirstVal := false), Ok)
      else if c == ',' then x == Plain(s.(isInArr := true), Ok)
      else if c == ':' then x == if s.expectColon then Plain(s.(expectColon := false), Ok) else Plain(s, Syntax)
      else if StartsWord(c) && !s.gotKey then true
      else if !ValExpected(s) then x == Plain(s, Syntax)
      else if c == '\"' then x == Plain(StartValue(s, InStr("", false)), Ok)
      else if c == '<' then x == Plain(StartValue(s, InLong("", false, true, false)), Ok)
      else true
  {
    hide NextNum, NextKey, NextBool;
  }

  lemma FeedQuiet(mlen: nat, s: State, t: string, s': State)
    requires t != [] && Step(mlen, s, t[0]) == Plain(s', Ok)
    ensures Feed(mlen, s, t) == Feed(mlen, s', t[1..])
  {
    hide Step;
    assert [] + Feed(mlen, s', t[1..]).toks == Feed(mlen, s', t[1..]).toks;
  }

  lemma FeedStops(mlen: nat, s: State, t: string, r: Next)
    requires t != [] && Step(mlen, s, t[0]).r == r != Ok && Step(mlen, s, t[0]).tok == None
    ensures Agrees(Feed(mlen, s, t), if r == Fin then Some([]) else None)
  {
    hide Step;
    assert Meanings([]) == [];
  }

  lemma {:induction false} KeyAgrees(mlen: nat, s: State, t: string)
    requires s.mode == Idle && !s.gotKey && t != [] && StartsWord(t[0])
    ensures Agrees(Feed(mlen, s, t), KeyData(mlen, t))
    decreases |t|, 0
  {
    KeyLanguage(mlen, s, t);
    hide Feed, Data;
    var n := KeyLen(t);
    if 0 < n < mlen && n < |t| && EndsKey(t[n]) {
      var s', t' := State(Idle, false, true, t[n] != ':', false), t[n + 1..];
      ExactLanguage(mlen, s', t');
      AgreesThen(Feed(mlen, s, t), Key(t[..n]), Feed(mlen, s', t'), Data(mlen, s', t'));
    }
  }

  lemma {:induction false} StringAgrees(mlen: nat, s: State, o: Outcome, long: bool, f: Option<Found>, t: string)
    requires StringRead(mlen, o, s, long, "", false, f) && (f.Some? ==> |f.value.rest| < |t|)
    ensures Agrees(o, StringData(mlen, s, long, f, t))
    decreases |t|, 0
  {
    hide Feed, Data, Delivers;
    if f.Some? && |Delivers(long, "", false, f.value)| < mlen {
      var s', t' := AfterString(s), f.value.rest;
      ExactLanguage(mlen, s', t');
      AgreesThen(o, Str(Delivers(long, "", false, f.value)), Feed(mlen, s', t'), Data(mlen, s', t'));
    }
  }

  /** A number or boolean, whatever follows its separator. */
  lemma ScalarFeeds(mlen: nat, s: State, w: string, sep: char)
    requires s.mode == Idle && ValExpected(s) && w != [] && NoSeparator(w) && IsSeparator(sep)
    requires StartsNumber(w[0]) || (StartsWord(w[0]) && s.gotKey)
    ensures
      var o := Feed(mlen, s, w + [sep]);
      match ScalarOf(w)
      case Some(v) =>
        o.st == AfterScalar(sep) && o.r == (if sep == '\0' then Fin else Ok) && |o.toks| == 1 && Meaning(o.toks[0]) == v
      case None => o.r == Syntax
  {
    if StartsNumber(w[0]) {
      NumberLanguage(mlen, s, w, sep);
    } else {
      BoolLanguage(mlen, s, w, sep);
    }
    hide Feed, NumberOf, NumValue;
  }

  lemma {:induction false} ScalarAgrees(mlen: nat, s: State, t: string)
    requires s.mode == Idle && ValExpected(s) && t != []
    requires StartsNumber(t[0]) || (StartsWord(t[0]) && s.gotKey)
    ensures Agrees(Feed(mlen, s, t), ScalarData(mlen, t))
    decreases |t|, 0
  {
    var n := WordLen(t);
    hide Feed, Data, NumValue;
    if n < |t| {
      var w, sep, rest := t[..n], t[n], t[n + 1..];
      assert t == w + [sep] + rest;
      ScalarFeeds(mlen, s, w, sep);
      FeedConcat(mlen, s, w + [sep], rest);
      var x := Feed(mlen, s, w + [sep]);
      if ScalarOf(w).Some? {
        var y := Feed(mlen, AfterScalar(sep), rest);
        assert x.toks == [x.toks[0]] && Meanings(x.toks) == [Meaning(x.toks[0])];
        if sep == '\0' {
          return;
        }
        ExactLanguage(mlen, AfterScalar(sep), rest);
        AgreesThen(Feed(mlen, s, t), x.toks[0], y, Data(mlen, AfterScalar(sep), rest));
      }
    } else {
      Unended(mlen, s, t);
    }
  }

  lemma FinAtNul(mlen: nat, s: State, c: char)
    requires Step(mlen, s, c).r == Fin
    ensures c == '\0'
  {
  }

  lemma {:induction false} Unended(mlen: nat, s: State, t: string)
    requires NoSeparator(t)
    ensures Feed(mlen, s, t).r != Fin
    decreases |t|
  {
    hide Step;
    if t != [] {
      var x := Step(mlen, s, t[0]);
      if x.r == Fin {
        FinAtNul(mlen, s, t[0]);
      } else if x.r == Ok {
        Unended(mlen, x.next, t[1..]);
      }
    }
  }

  /**
   The exact language of the reader, over every text and from every place between
   tokens: the streaming reader comes to the NUL if and only if the text has data, and
   then it has delivered exactly these, in order.
   */
  lemma {:induction false} ExactLanguage(mlen: nat, s: State, t: string)
    requires s.mode == Idle
    ensures Agrees(Feed(mlen, s, t), Data(mlen, s, t))
    decreases |t|, 1
  {
    if t == [] {
      FeedNone(mlen, s);
    } else {
      var c, rest := t[0], t[1..];
      IdleStep(mlen, s, c);
      hide Step, Feed, Agrees, KeyData, StringData, ScalarData;
      if c == '\0' {
        FeedStops(mlen, s, t, Fin);
      } else if c == ' ' || c == '\t' {
        FeedQuiet(mlen, s, t, s);
        ExactLanguage(mlen, s, rest);
      } else if c == '\n' || c == ',' {
        var s' := Step(mlen, s, c).next;
        FeedQuiet(mlen, s, t, s');
        ExactLanguage(mlen, s', rest);
      } else if c == ':' {
        if s.expectColon {
          FeedQuiet(mlen, s, t, s.(expectColon := false));
          ExactLanguage(mlen, s.(expectColon := false), rest);
        } else {
          FeedStops(mlen, s, t, Syntax);
        }
      } else if StartsWord(c) && !s.gotKey {
        KeyAgrees(mlen, s, t);
      } else if !ValExpected(s) {
        FeedStops(mlen, s, t, Syntax);
      } else if c == '\"' {
        var s' := StartValue(s, InStr("", false));
        FeedQuiet(mlen, s, t, s');
        StringLanguage(mlen, s', false, "", false, false, rest);
        StringAgrees(mlen, s', Feed(mlen, s, t), false, StringAt(false, rest, false), t);
        StringDataSame(mlen, s, s', false, StringAt(false, rest, false), t);
      } else if c == '<' {
        var s' := StartValue(s, InLong("", false, true, false));
        FeedQuiet(mlen, s, t, s');
        LongLanguage(mlen, s', false, rest);
        StringAgrees(mlen, s', Feed(mlen, s, t), true, StringAt(true, SkipBlanks(rest), false), t);
        StringDataSame(mlen, s, s', true, StringAt(true, SkipBlanks(rest), false), t);
      } else {
        ScalarAgrees(mlen, s, t);
      }
    }
  }

  lemma StringDataSame(mlen: nat, s: State, s': State, long: bool, f: Option<Found>, t: string)
    requires AfterString(s) == AfterString(s') && (f.Some? ==> |f.value.rest| < |t|)
    ensures StringData(mlen, s, long, f, t) == StringData(mlen, s', long, f, t)
  {
    hide Data;
  }
}
