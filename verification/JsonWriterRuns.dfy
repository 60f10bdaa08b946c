/**
 Whole runs of the JSON writer: what a call does when the buffer does not run
 out, what every call keeps, and that indenting changes nothing but blanks.
 */
module JsonWriterRuns {
  import opened Chars
  import opened Decimal
  import opened JsonLevels
  import opened JsonWriter
  import opened Options

  // ----- Calls without overflow -----

  function Spaces(levels: nat): string {
    if levels == 0 then "" else INDENT + Spaces(levels - 1)
  }

  function CommaText(pretty: bool, c: Ctx): string {
    if !c.needComma then "" else if pretty then ",\n" else ","
  }

  function IndentText(pretty: bool, c: Ctx): string {
    if pretty && c.st != WantVal then Spaces(|c.lvls|) else ""
  }

  function HeadText(pretty: bool, c: Ctx): string {
    CommaText(pretty, c) + (if pretty && c.isFirst then "\n" else "") + IndentText(pretty, c)
  }

  function ColonText(pretty: bool): string {
    if pretty then ": " else ":"
  }

  /** The line break and indentation before a closing bracket. */
  function TailText(pretty: bool, c: Ctx): string
    requires c.lvls != []
  {
    if pretty && !c.isFirst then "\n" + IndentText(pretty, c.(lvls := Pop(c.lvls))) else ""
  }

  /** What a call does with an unbounded buffer. */
  function Free(pretty: bool, c: Ctx, call: Call): Result {
    match call
    case Str(s) => FreeStr(pretty, c, s)
    case Int(n) => FreeLiteral(pretty, c, OfInt(n))
    case Bool(b) => FreeLiteral(pretty, c, if b then "true" else "false")
    case Null => FreeLiteral(pretty, c, "null")
    case ObjStart => FreeOpen(pretty, c, ObjLvl)
    case ObjEnd => FreeClose(pretty, c, ObjLvl)
    case ArrStart => FreeOpen(pretty, c, ArrLvl)
    case ArrEnd => FreeClose(pretty, c, ArrLvl)
  }

  function FreeStr(pretty: bool, c: Ctx, s: string): Result {
    var c1 := c.(text := c.text + HeadText(pretty, c) + Quote(s), isFirst := false);
    match c.st
    case WantVal => Result(c1.(st := WantKey, needComma := true), Ok)
    case NoSt => Result(c1.(needComma := true), Ok)
    case WantKey =>
      if Top(c.lvls) != Some(ObjLvl) then Result(c1.(needComma := false), Panic)
      else Result(c1.(text := c1.text + ColonText(pretty), st := WantVal, needComma := false), Ok)
  }

  function FreeLiteral(pretty: bool, c: Ctx, s: string): Result {
    if c.st == WantKey then Result(c, Syntax)
    else
      Result(c.(text := c.text + HeadText(pretty, c) + s, isFirst := false, needComma := true,
                st := if c.st == WantVal then WantKey else c.st), Ok)
  }

  function FreeOpen(pretty: bool, c: Ctx, lvl: Lvl): Result {
    if c.st == WantKey then Result(c, Syntax)
    else
      var c1 := c.(text := c.text + HeadText(pretty, c) + (if lvl == ObjLvl then "{" else "["), needComma := false);
      if |c.lvls| == MAX_DEPTH then Result(c1, Panic)
      else
        Result(c1.(lvls := c.lvls + [lvl], st := if lvl == ObjLvl then WantKey else NoSt, isFirst := true), Ok)
  }

  function FreeClose(pretty: bool, c: Ctx, lvl: Lvl): Result {
    if Top(c.lvls) != Some(lvl) || (lvl == ObjLvl && c.st == WantVal) then Result(c, Syntax)
    else
      var c1 := AfterClose(c.(lvls := Pop(c.lvls)), lvl);
      Result(c1.(text := c.text + TailText(pretty, c) + (if lvl == ObjLvl then "}" else "]")), Ok)
  }

  // ----- The buffered writer does the same until it overflows -----

  lemma {:induction false} IndentFree(u: Setup, c: Ctx, levels: nat)
    ensures
      var x := Indent(u, c, levels);
      (x.res == Ok || x.res == Overflow) && (x.res == Ok ==> x.c == c.(text := c.text + Spaces(levels)))
    ensures levels == 0 || |c.text| + |INDENT| * levels + 1 <= u.mlen <==> Indent(u, c, levels).res == Ok
    decreases levels
  {
    if levels == 0 {
      assert c.text + "" == c.text;
    } else if |c.text| + |INDENT| + 1 <= u.mlen {
      IndentFree(u, c.(text := c.text + INDENT), levels - 1);
      assert c.text + INDENT + Spaces(levels - 1) == c.text + (INDENT + Spaces(levels - 1));
    }
  }

  lemma MaybeCommaFree(u: Setup, c: Ctx)
    ensures
      var x := MaybeComma(u, c);
      && (x.res == Ok || x.res == Overflow)
      && (x.res == Ok ==> x.c == c.(text := c.text + CommaText(u.pretty, c), needComma := false))
  {
    assert c.text + "" == c.text;
    AddAllFits(u, c, if u.pretty then ",\n" else ",");
    hide AddAll;
  }

  lemma HeadFree(u: Setup, c: Ctx)
    ensures
      var x := Head(u, c);
      && (x.res == Ok || x.res == Overflow)
      && (x.res == Ok ==> x.c == c.(text := c.text + HeadText(u.pretty, c), needComma := false))
  {
    hide MaybeComma, Indent, Spaces, CommaText;
    MaybeCommaFree(u, c);
    var x := MaybeComma(u, c);
    if x.res == Ok {
      var y := if u.pretty && x.c.isFirst then AddCh(u, x.c, '\n') else x;
      IndentFree(u, y.c, |c.lvls|);
      var nl := if u.pretty && c.isFirst then "\n" else "";
      assert y.res == Ok ==> y.c.text == c.text + CommaText(u.pretty, c) + nl;
      assert c.text + CommaText(u.pretty, c) + nl + IndentText(u.pretty, c) == c.text + HeadText(u.pretty, c);
    }
  }

  lemma StrStepFree(u: Setup, c: Ctx, s: string)
    requires StrStep(u, c, s).res != Overflow
    ensures StrStep(u, c, s) == FreeStr(u.pretty, c, s)
  {
    hide Head, AddAll, HeadText, Quote;
    HeadFree(u, c);
    var x := Head(u, c);
    AddAllFits(u, x.c.(isFirst := false), Quote(s));
    var y := AddAll(u, x.c.(isFirst := false), Quote(s));
    AddAllFits(u, y.c.(needComma := false), ColonText(u.pretty));
  }

  lemma LiteralStepFree(u: Setup, c: Ctx, s: string)
    requires LiteralStep(u, c, s).res != Overflow
    ensures LiteralStep(u, c, s) == FreeLiteral(u.pretty, c, s)
  {
    hide Head, AddAll, HeadText;
    HeadFree(u, c);
    AddAllFits(u, Head(u, c).c.(isFirst := false, needComma := true), s);
  }

  lemma OpenStepFree(u: Setup, c: Ctx, lvl: Lvl)
    requires OpenStep(u, c, lvl).res != Overflow
    ensures OpenStep(u, c, lvl) == FreeOpen(u.pretty, c, lvl)
  {
    hide Head, HeadText;
    HeadFree(u, c);
  }

  lemma CloseStepFree(u: Setup, c: Ctx, lvl: Lvl)
    requires CloseStep(u, c, lvl).res != Overflow
    ensures CloseStep(u, c, lvl) == FreeClose(u.pretty, c, lvl)
  {
    hide Indent, Spaces;
    if Top(c.lvls) == Some(lvl) {
      var c1 := c.(lvls := Pop(c.lvls));
      IndentFree(u, c1.(text := c1.text + "\n"), |c1.lvls|);
      assert c.text + "" == c.text;
      assert c.text + "\n" + IndentText(u.pretty, c1) == c.text + ("\n" + IndentText(u.pretty, c1));
    }
  }

  /** A call that does not overflow does what it would with an unbounded buffer. */
  lemma StepFree(u: Setup, c: Ctx, call: Call)
    requires Step(u, c, call).res != Overflow
    ensures Step(u, c, call) == Free(u.pretty, c, call)
  {
    hide StrStep, LiteralStep, OpenStep, CloseStep, FreeStr, FreeLiteral, FreeOpen, FreeClose;
    match call
    case Str(s) => StrStepFree(u, c, s);
    case Int(n) => LiteralStepFree(u, c, OfInt(n));
    case Bool(b) => LiteralStepFree(u, c, if b then "true" else "false");
    case Null => LiteralStepFree(u, c, "null");
    case ObjStart => OpenStepFree(u, c, ObjLvl);
    case ObjEnd => CloseStepFree(u, c, ObjLvl);
    case ArrStart => OpenStepFree(u, c, ArrLvl);
    case ArrEnd => CloseStepFree(u, c, ArrLvl);
  }

  // ----- A call overflows only if its text does not fit -----

  lemma {:induction false} SpacesLength(n: nat)
    ensures |Spaces(n)| == |INDENT| * n
  {
    if n > 0 {
      SpacesLength(n - 1);
    }
  }

  lemma CommaFits(u: Setup, c: Ctx)
    requires |c.text| + |CommaText(u.pretty, c)| < u.mlen
    ensures MaybeComma(u, c) == Result(c.(text := c.text + CommaText(u.pretty, c), needComma := false), Ok)
  {
    assert c.text + "" == c.text;
    AddAllFits(u, c, if u.pretty then ",\n" else ",");
    hide AddAll;
  }

  lemma HeadFits(u: Setup, c: Ctx)
    requires |c.text| + |HeadText(u.pretty, c)| < u.mlen
    ensures Head(u, c) == Result(c.(text := c.text + HeadText(u.pretty, c), needComma := false), Ok)
  {
    hide MaybeComma, Indent, Spaces, CommaText;
    CommaFits(u, c);
    var x := MaybeComma(u, c);
    var y := if u.pretty && x.c.isFirst then AddCh(u, x.c, '\n') else x;
    SpacesLength(|c.lvls|);
    IndentFree(u, y.c, |c.lvls|);
    HeadFree(u, c);
  }

  lemma LiteralFits(u: Setup, c: Ctx, s: string)
    requires |FreeLiteral(u.pretty, c, s).c.text| < u.mlen
    ensures LiteralStep(u, c, s) == FreeLiteral(u.pretty, c, s)
  {
    hide AddAll, HeadText, Head;
    if c.st != WantKey {
      HeadFits(u, c);
      AddAllFits(u, Head(u, c).c.(isFirst := false, needComma := true), s);
    }
  }

  lemma StrFits(u: Setup, c: Ctx, s: string)
    requires |FreeStr(u.pretty, c, s).c.text| < u.mlen
    ensures StrStep(u, c, s) == FreeStr(u.pretty, c, s)
  {
    hide AddAll, HeadText, Head, Quote;
    HeadFits(u, c);
    var x := Head(u, c).c.(isFirst := false);
    AddAllFits(u, x, Quote(s));
    AddAllFits(u, x.(text := x.text + Quote(s), needComma := false), ColonText(u.pretty));
  }

  lemma OpenFits(u: Setup, c: Ctx, lvl: Lvl)
    requires |FreeOpen(u.pretty, c, lvl).c.text| < u.mlen
    ensures OpenStep(u, c, lvl) == FreeOpen(u.pretty, c, lvl)
  {
    hide HeadText, Head;
    if c.st != WantKey {
      HeadFits(u, c);
    }
  }

  lemma CloseFits(u: Setup, c: Ctx, lvl: Lvl)
    requires |FreeClose(u.pretty, c, lvl).c.text| < u.mlen
    ensures CloseStep(u, c, lvl) == FreeClose(u.pretty, c, lvl)
  {
    hide Indent, Spaces;
    if Top(c.lvls) == Some(lvl) {
      var c1 := c.(lvls := Pop(c.lvls));
      SpacesLength(|c1.lvls|);
      IndentFree(u, c1.(text := c1.text + "\n"), |c1.lvls|);
      if CloseStep(u, c, lvl).res != Overflow {
        CloseStepFree(u, c, lvl);
      }
    }
  }

  lemma StepFits(u: Setup, c: Ctx, call: Call)
    requires |Free(u.pretty, c, call).c.text| < u.mlen
    ensures Step(u, c, call) == Free(u.pretty, c, call)
  {
    hide StrStep, FreeStr, LiteralStep, FreeLiteral, OpenStep, FreeOpen, CloseStep, FreeClose;
    match call {
      case Str(s) => StrFits(u, c, s);
      case Int(n) => LiteralFits(u, c, OfInt(n));
      case Bool(b) => LiteralFits(u, c, if b then "true" else "false");
      case Null => LiteralFits(u, c, "null");
      case ObjStart => OpenFits(u, c, ObjLvl);
      case ArrStart => OpenFits(u, c, ArrLvl);
      case ObjEnd => CloseFits(u, c, ObjLvl);
      case ArrEnd => CloseFits(u, c, ArrLvl);
    }
  }

  // ----- Keys and values -----

  /** Keys and values alternate exactly inside objects. */
  predicate Inv(c: Ctx) {
    && |c.lvls| <= MAX_DEPTH
    && (c.st != NoSt <==> Top(c.lvls) == Some(ObjLvl))
  }

  // ----- Indentation -----

  /** Removes blanks outside string literals. */
  datatype Stripper = Stripper(out: string, inStr: bool, esc: bool)

  function StripStep(x: Stripper, ch: char): Stripper {
    if x.inStr then
      var y := x.(out := x.out + [ch]);
      if x.esc then y.(esc := false)
      else if ch == '\\' then y.(esc := true)
      else if ch == '\"' then y.(inStr := false)
      else y
    else if IsWhitespace(ch) then x
    else x.(out := x.out + [ch], inStr := ch == '\"')
  }

  function StripFrom(x: Stripper, text: string): Stripper
    decreases |text|
  {
    if text == [] then x else StripFrom(StripStep(x, text[0]), text[1..])
  }

  function Outside(out: string): Stripper {
    Stripper(out, false, false)
  }

  /** The text without the blanks outside its string literals. */
  function Strip(text: string): string {
    StripFrom(Outside(""), text).out
  }

  lemma {:induction false} StripConcat(x: Stripper, a: string, b: string)
    ensures StripFrom(x, a + b) == StripFrom(StripFrom(x, a), b)
    decreases |a|
  {
    if a == [] {
      assert a + b == b;
    } else {
      assert (a + b)[1..] == a[1..] + b;
      StripConcat(StripStep(x, a[0]), a[1..], b);
    }
  }

  lemma {:induction false} StripBlanks(out: string, w: string)
    requires forall i | 0 <= i < |w| :: IsWhitespace(w[i])
    ensures StripFrom(Outside(out), w) == Outside(out)
    decreases |w|
  {
    if w != [] {
      StripBlanks(out, w[1..]);
    }
  }

  /** Text without blanks or quotes is kept as it is. */
  lemma {:induction false} StripPlain(out: string, t: string)
    requires forall i | 0 <= i < |t| :: !IsWhitespace(t[i]) && t[i] != '\"'
    ensures StripFrom(Outside(out), t) == Outside(out + t)
    decreases |t|
  {
    if t == [] {
      assert out + t == out;
    } else {
      StripPlain(out + [t[0]], t[1..]);
      assert out + [t[0]] + t[1..] == out + t;
    }
  }

  lemma StripEscapeChar(out: string, c: char)
    ensures StripFrom(Stripper(out, true, false), EscapeChar(c)) == Stripper(out + EscapeChar(c), true, false)
  {
    var e, x := EscapeChar(c), Stripper(out, true, false);
    var y := StripStep(x, e[0]);
    if |e| == 1 {
      assert e == [e[0]] && e[1..] == [];
    } else {
      assert e[1..] == [e[1]] && e[1..][1..] == [];
      assert StripFrom(y, e[1..]) == StripStep(y, e[1]);
      assert out + [e[0]] + [e[1]] == out + e;
    }
  }

  lemma {:induction false} StripEscaped(out: string, s: string)
    ensures StripFrom(Stripper(out, true, false), Escape(s)) == Stripper(out + Escape(s), true, false)
    decreases |s|
  {
    hide EscapeChar, StripStep;
    if s == [] {
      assert out + "" == out;
    } else {
      hide StripFrom;
      var e := EscapeChar(s[0]);
      var x := Stripper(out, true, false);
      StripConcat(x, e, Escape(s[1..]));
      StripEscapeChar(out, s[0]);
      StripEscaped(out + e, s[1..]);
      assert out + e + Escape(s[1..]) == out + (e + Escape(s[1..]));
    }
  }

  lemma StripQuoted(out: string, s: string)
    ensures StripFrom(Outside(out), Quote(s)) == Outside(out + Quote(s))
  {
    var inner := out + "\"";
    StripConcat(Outside(out), "\"", Escape(s) + "\"");
    StripConcat(Stripper(inner, true, false), Escape(s), "\"");
    StripEscaped(inner, s);
    hide Escape;
    assert Quote(s) == "\"" + (Escape(s) + "\"");
    assert StripFrom(Outside(out), "\"") == Stripper(inner, true, false) by { assert "\""[1..] == ""; }
    assert StripFrom(Stripper(inner + Escape(s), true, false), "\"") == Outside(inner + Escape(s) + "\"") by {
      assert "\""[1..] == "";
    }
    assert inner + Escape(s) + "\"" == out + Quote(s);
  }

  /** The pretty and the compact writer after the same calls. */
  ghost predicate Twins(p: Ctx, c: Ctx) {
    && p == c.(text := p.text)
    && StripFrom(Outside(""), p.text) == Outside(c.text)
  }

  /** `a` becomes `b` when blanks are removed. */
  ghost predicate StripsTo(a: string, b: string) {
    forall out :: StripFrom(Outside(out), a) == Outside(out + b)
  }

  lemma StripsConcat(a: string, b: string, a': string, b': string)
    requires StripsTo(a, b) && StripsTo(a', b')
    ensures StripsTo(a + a', b + b')
  {
    forall out
      ensures StripFrom(Outside(out), a + a') == Outside(out + (b + b'))
    {
      StripConcat(Outside(out), a, a');
      assert out + b + b' == out + (b + b');
    }
  }

  lemma PlainStrips(t: string)
    requires forall i | 0 <= i < |t| :: !IsWhitespace(t[i]) && t[i] != '\"'
    ensures StripsTo(t, t)
  {
    forall out {
      StripPlain(out, t);
    }
  }

  lemma BlanksStrip(w: string)
    requires forall i | 0 <= i < |w| :: IsWhitespace(w[i])
    ensures StripsTo(w, "")
  {
    forall out
      ensures StripFrom(Outside(out), w) == Outside(out + "")
    {
      StripBlanks(out, w);
      assert out + "" == out;
    }
  }

  lemma QuoteStrips(s: string)
    ensures StripsTo(Quote(s), Quote(s))
  {
    hide Quote;
    forall out {
      StripQuoted(out, s);
    }
  }

  lemma {:induction false} SpacesBlank(n: nat)
    ensures forall i | 0 <= i < |Spaces(n)| :: IsWhitespace(Spaces(n)[i])
  {
    if n > 0 {
      SpacesBlank(n - 1);
    }
  }

  lemma HeadStrips(p: Ctx, c: Ctx)
    requires p == c.(text := p.text)
    ensures StripsTo(HeadText(true, p), HeadText(false, c))
  {
    var nl := if p.isFirst then "\n" else "";
    SpacesBlank(|p.lvls|);
    BlanksStrip(nl + IndentText(true, p));
    if p.needComma {
      PlainStrips(",");
      BlanksStrip("\n");
      StripsConcat(",", ",", "\n", "");
      assert "," + "\n" == ",\n" && "," + "" == ",";
    } else {
      BlanksStrip("");
    }
    hide IndentText, StripsTo;
    StripsConcat(CommaText(true, p), CommaText(false, c), nl + IndentText(true, p), "");
    assert HeadText(true, p) == CommaText(true, p) + (nl + IndentText(true, p));
    assert HeadText(false, c) == CommaText(false, c) + "" by { NoIndent(c); }
  }

  lemma NoIndent(c: Ctx)
    ensures IndentText(false, c) == ""
  {
  }

  /** Both texts grow by pieces that differ only in blanks. */
  lemma TwinsGrow(p: Ctx, c: Ctx, a: string, b: string)
    requires Twins(p, c) && StripsTo(a, b)
    ensures StripFrom(Outside(""), p.text + a) == Outside(c.text + b)
  {
    StripConcat(Outside(""), p.text, a);
  }

  /** A piece of text put by both, after the common head. */
  lemma TwinsPut(p: Ctx, c: Ctx, t: string, t': string)
    requires Twins(p, c) && StripsTo(t, t')
    ensures StripFrom(Outside(""), p.text + HeadText(true, p) + t) == Outside(c.text + HeadText(false, c) + t')
  {
    HeadStrips(p, c);
    hide HeadText, StripsTo;
    StripsConcat(HeadText(true, p), HeadText(false, c), t, t');
    TwinsGrow(p, c, HeadText(true, p) + t, HeadText(false, c) + t');
    assert p.text + (HeadText(true, p) + t) == p.text + HeadText(true, p) + t;
    assert c.text + (HeadText(false, c) + t') == c.text + HeadText(false, c) + t';
  }

  lemma TwinsStr(p: Ctx, c: Ctx, s: string)
    requires Twins(p, c)
    ensures FreeStr(true, p, s).res == FreeStr(false, c, s).res && Twins(FreeStr(true, p, s).c, FreeStr(false, c, s).c)
  {
    hide Quote, HeadText, StripFrom;
    QuoteStrips(s);
    ColonStrips();
    hide StripsTo, ColonText;
    TwinsPut(p, c, Quote(s), Quote(s));
    StripsConcat(Quote(s), Quote(s), ColonText(true), ColonText(false));
    TwinsPut(p, c, Quote(s) + ColonText(true), Quote(s) + ColonText(false));
    assert p.text + HeadText(true, p) + (Quote(s) + ColonText(true)) == p.text + HeadText(true, p) + Quote(s) + ColonText(true);
    assert c.text + HeadText(false, c) + (Quote(s) + ColonText(false)) == c.text + HeadText(false, c) + Quote(s) + ColonText(false);
  }

  lemma ColonStrips()
    ensures StripsTo(ColonText(true), ColonText(false))
  {
    PlainStrips(":");
    BlanksStrip(" ");
    StripsConcat(":", ":", " ", "");
    assert ":" + " " == ": " && ":" + "" == ":";
  }

  lemma TwinsLiteral(p: Ctx, c: Ctx, s: string)
    requires Twins(p, c) && forall i | 0 <= i < |s| :: !IsWhitespace(s[i]) && s[i] != '\"'
    ensures FreeLiteral(true, p, s).res == FreeLiteral(false, c, s).res
    ensures Twins(FreeLiteral(true, p, s).c, FreeLiteral(false, c, s).c)
  {
    PlainStrips(s);
    hide HeadText, StripsTo;
    TwinsPut(p, c, s, s);
  }

  lemma TwinsOpen(p: Ctx, c: Ctx, lvl: Lvl)
    requires Twins(p, c)
    ensures FreeOpen(true, p, lvl).res == FreeOpen(false, c, lvl).res
    ensures Twins(FreeOpen(true, p, lvl).c, FreeOpen(false, c, lvl).c)
  {
    PlainStrips("{");
    PlainStrips("[");
    hide HeadText, StripsTo;
    TwinsPut(p, c, "{", "{");
    TwinsPut(p, c, "[", "[");
  }

  lemma TwinsClose(p: Ctx, c: Ctx, lvl: Lvl)
    requires Twins(p, c)
    ensures FreeClose(true, p, lvl).res == FreeClose(false, c, lvl).res
    ensures Twins(FreeClose(true, p, lvl).c, FreeClose(false, c, lvl).c)
  {
    if FreeClose(true, p, lvl).res == Ok {
      TailStrips(p, c, if lvl == ObjLvl then "}" else "]");
      hide TailText, StripFrom;
    }
  }

  lemma TailStrips(p: Ctx, c: Ctx, t: string)
    requires Twins(p, c) && p.lvls != [] && (t == "}" || t == "]")
    ensures StripFrom(Outside(""), p.text + TailText(true, p) + t) == Outside(c.text + TailText(false, c) + t)
  {
    SpacesBlank(|p.lvls| - 1);
    BlanksStrip(TailText(true, p));
    PlainStrips(t);
    assert TailText(false, c) == "";
    hide StripsTo, TailText;
    StripsConcat(TailText(true, p), "", t, t);
    TwinsGrow(p, c, TailText(true, p) + t, "" + t);
    hide StripFrom;
    assert p.text + (TailText(true, p) + t) == p.text + TailText(true, p) + t;
    assert c.text + ("" + t) == c.text + "" + t;
  }

  lemma NumeralPlain(n: int)
    ensures forall i | 0 <= i < |OfInt(n)| :: !IsWhitespace(OfInt(n)[i]) && OfInt(n)[i] != '\"'
  {
  }

  lemma TwinsStep(p: Ctx, c: Ctx, call: Call)
    requires Twins(p, c)
    ensures Free(true, p, call).res == Free(false, c, call).res && Twins(Free(true, p, call).c, Free(false, c, call).c)
  {
    hide Twins, FreeStr, FreeLiteral, FreeOpen, FreeClose;
    match call
    case Str(s) => TwinsStr(p, c, s);
    case Int(n) => NumeralPlain(n); TwinsLiteral(p, c, OfInt(n));
    case Bool(b) => TwinsLiteral(p, c, if b then "true" else "false");
    case Null => TwinsLiteral(p, c, "null");
    case ObjStart => TwinsOpen(p, c, ObjLvl);
    case ObjEnd => TwinsClose(p, c, ObjLvl);
    case ArrStart => TwinsOpen(p, c, ArrLvl);
    case ArrEnd => TwinsClose(p, c, ArrLvl);
  }

  // ----- Runs -----

  /** The writer's state and the results of a sequence of calls, legal or not. */
  function Run(u: Setup, calls: seq<Call>): (Ctx, seq<Res>) {
    if calls == [] then (INIT, [])
    else
      var (c, rs) := Run(u, calls[..|calls| - 1]);
      var x := Step(u, c, calls[|calls| - 1]);
      (x.c, rs + [x.res])
  }

  /**
   Pretty and compact output mean the same: take any sequence of calls, legal or
   not, that overflows neither a pretty nor a compact writer. Both give the same
   result for every call, and the pretty text without the blanks outside its
   string literals is exactly the compact text.
   */
  lemma {:induction false} PrettyMeansCompact(plen: nat, clen: nat, calls: seq<Call>)
    requires Overflow !in Run(Setup(plen, true), calls).1 && Overflow !in Run(Setup(clen, false), calls).1
    ensures
      var ((p, prs), (c, crs)) := (Run(Setup(plen, true), calls), Run(Setup(clen, false), calls));
      && prs == crs
      && Strip(p.text) == c.text
      && Twins(p, c)
  {
    if calls != [] {
      var before, call := calls[..|calls| - 1], calls[|calls| - 1];
      var (p, prs) := Run(Setup(plen, true), before);
      var (c, crs) := Run(Setup(clen, false), before);
      var x, y := Step(Setup(plen, true), p, call), Step(Setup(clen, false), c, call);
      hide Step, Free;
      assert Run(Setup(plen, true), calls) == (x.c, prs + [x.res]);
      assert Run(Setup(clen, false), calls) == (y.c, crs + [y.res]);
      assert x.res in prs + [x.res] && y.res in crs + [y.res];
      PrettyMeansCompact(plen, clen, before);
      StepFree(Setup(plen, true), p, call);
      StepFree(Setup(clen, false), c, call);
      TwinsStep(p, c, call);
    }
  }
}
