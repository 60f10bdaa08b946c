/**
 The JSON writer of `src/wjson.c`. `Step` says what one call does to the text
 and the flags, on success and when the buffer runs out half-way; the class
 `Writer` does it character by character in a fixed buffer.
 */
module JsonWriter {
  import opened Decimal
  import opened JsonLevels
  import opened Options

  datatype Res = Ok | Syntax | Overflow | Panic

  datatype St = NoSt | WantKey | WantVal

  const INDENT := "    "

  /** The C type `long long`. */
  type LongLong = n: int | -0x8000_0000_0000_0000 <= n < 0x8000_0000_0000_0000

  datatype Call =
    | Str(s: string)
    | Int(n: LongLong)
    | Bool(b: bool)
    | Null
    | ObjStart
    | ObjEnd
    | ArrStart
    | ArrEnd

  datatype Ctx = Ctx(text: string, lvls: seq<Lvl>, st: St, needComma: bool, isFirst: bool)

  const INIT := Ctx("", [], NoSt, false, false)

  /** How the writer was set up: its buffer size and whether it indents. */
  datatype Setup = Setup(mlen: nat, pretty: bool)

  datatype Result = Result(c: Ctx, res: Res)

  function EscapeChar(c: char): (e: string)
    ensures 1 <= |e| <= 2
  {
    match c
    case '\U{8}' => "\\b"
    case '\U{C}' => "\\f"
    case '\n' => "\\n"
    case '\r' => "\\r"
    case '\t' => "\\t"
    case '\"' => "\\\""
    case '\\' => "\\\\"
    case _ => [c]
  }

  function Escape(s: string): string {
    if s == [] then "" else EscapeChar(s[0]) + Escape(s[1..])
  }

  function Quote(s: string): string {
    "\"" + Escape(s) + "\""
  }

  // ----- Putting characters -----

  /** The buffer always keeps its last character free. */
  function AddCh(u: Setup, c: Ctx, ch: char): Result {
    if |c.text| + 2 > u.mlen then Result(c, Overflow) else Result(c.(text := c.text + [ch]), Ok)
  }

  function AddAll(u: Setup, c: Ctx, s: string): Result
    decreases |s|
  {
    if s == [] then Result(c, Ok)
    else
      var x := AddCh(u, c, s[0]);
      if x.res != Ok then x else AddAll(u, x.c, s[1..])
  }

  function MaybeComma(u: Setup, c: Ctx): Result {
    if !c.needComma then Result(c, Ok)
    else
      var x := AddAll(u, c, if u.pretty then ",\n" else ",");
      if x.res != Ok then x else Result(x.c.(needComma := false), Ok)
  }

  /** Indentation is put four characters at a time. */
  function Indent(u: Setup, c: Ctx, levels: nat): Result
    decreases levels
  {
    if levels == 0 then Result(c, Ok)
    else if |c.text| + |INDENT| + 1 > u.mlen then Result(c, Overflow)
    else Indent(u, c.(text := c.text + INDENT), levels - 1)
  }

  function MaybeIndent(u: Setup, c: Ctx): Result {
    if u.pretty && c.st != WantVal then Indent(u, c, |c.lvls|) else Result(c, Ok)
  }

  /** The separator, line break and indentation before anything but a closing bracket. */
  function Head(u: Setup, c: Ctx): Result {
    var x := MaybeComma(u, c);
    if x.res != Ok then x
    else
      var y := if u.pretty && x.c.isFirst then AddCh(u, x.c, '\n') else x;
      if y.res != Ok then y else MaybeIndent(u, y.c)
  }

  // ----- Calls -----

  function StrStep(u: Setup, c: Ctx, s: string): Result {
    var x := Head(u, c);
    if x.res != Ok then x
    else
      var y := AddAll(u, x.c.(isFirst := false), Quote(s));
      if y.res != Ok then y else AfterStr(u, y.c)
  }

  /** A string is a value, or a key that a colon follows. */
  function AfterStr(u: Setup, c: Ctx): Result {
    match c.st
    case WantVal => Result(c.(st := WantKey, needComma := true), Ok)
    case NoSt => Result(c.(needComma := true), Ok)
    case WantKey =>
      var c1 := c.(needComma := false);
      if Top(c.lvls) != Some(ObjLvl) then Result(c1, Panic)
      else
        var x := AddAll(u, c1, if u.pretty then ": " else ":");
        if x.res != Ok then x else Result(x.c.(st := WantVal), Ok)
  }

  function LiteralStep(u: Setup, c: Ctx, s: string): Result {
    if c.st == WantKey then Result(c, Syntax)
    else
      var x := Head(u, c);
      if x.res != Ok then x
      else
        var y := AddAll(u, x.c.(isFirst := false, needComma := true), s);
        if y.res != Ok then y
        else Result(y.c.(st := if y.c.st == WantVal then WantKey else y.c.st), Ok)
  }

  function OpenStep(u: Setup, c: Ctx, lvl: Lvl): Result {
    if c.st == WantKey then Result(c, Syntax)
    else
      var x := Head(u, c);
      if x.res != Ok then x
      else
        var y := AddCh(u, x.c, if lvl == ObjLvl then '{' else '[');
        if y.res != Ok then y
        else if |y.c.lvls| == MAX_DEPTH then Result(y.c, Panic)
        else
          Result(y.c.(lvls := y.c.lvls + [lvl],
                      st := if lvl == ObjLvl then WantKey else NoSt,
                      needComma := false,
                      isFirst := true),
                 Ok)
  }

  /** The flags once a bracket of kind `lvl` is closed. An array inside an object asks for no comma. */
  function AfterClose(c: Ctx, lvl: Lvl): Ctx {
    var inObj := Top(c.lvls) == Some(ObjLvl);
    if lvl == ObjLvl then c.(isFirst := false, st := if inObj then WantKey else NoSt, needComma := true)
    else if inObj then c.(isFirst := false, st := WantKey, needComma := false)
    else if Top(c.lvls) == Some(ArrLvl) then c.(isFirst := false, needComma := true)
    else c.(isFirst := false)
  }

  function CloseStep(u: Setup, c: Ctx, lvl: Lvl): Result {
    if Top(c.lvls) != Some(lvl) || (lvl == ObjLvl && c.st == WantVal) then Result(c, Syntax)
    else
      var c1 := c.(lvls := Pop(c.lvls));
      var x := if u.pretty && !c.isFirst then AddCh(u, c1, '\n') else Result(c1, Ok);
      if x.res != Ok then x
      else
        var y := if u.pretty && !c.isFirst then MaybeIndent(u, x.c) else x;
        if y.res != Ok then y else AddCh(u, AfterClose(y.c, lvl), if lvl == ObjLvl then '}' else ']')
  }

  function Step(u: Setup, c: Ctx, call: Call): Result {
    match call
    case Str(s) => StrStep(u, c, s)
    case Int(n) => LiteralStep(u, c, OfInt(n))
    case Bool(b) => LiteralStep(u, c, if b then "true" else "false")
    case Null => LiteralStep(u, c, "null")
    case ObjStart => OpenStep(u, c, ObjLvl)
    case ObjEnd => CloseStep(u, c, ObjLvl)
    case ArrStart => OpenStep(u, c, ArrLvl)
    case ArrEnd => CloseStep(u, c, ArrLvl)
  }

  lemma {:induction false} AddAllFits(u: Setup, c: Ctx, s: string)
    ensures s == [] || |c.text| + |s| + 1 <= u.mlen <==> AddAll(u, c, s).res == Ok
    ensures AddAll(u, c, s).res == Ok ==> AddAll(u, c, s).c == c.(text := c.text + s)
    ensures AddAll(u, c, s).res == Ok || AddAll(u, c, s).res == Overflow
    decreases |s|
  {
    if s == [] {
      assert c.text + s == c.text;
    } else if AddCh(u, c, s[0]).res == Ok {
      AddAllFits(u, AddCh(u, c, s[0]).c, s[1..]);
      assert c.text + [s[0]] + s[1..] == c.text + s;
    }
  }

  lemma {:induction false} AddAllConcat(u: Setup, c: Ctx, a: string, b: string)
    ensures
      var x := AddAll(u, c, a);
      AddAll(u, c, a + b) == if x.res != Ok then x else AddAll(u, x.c, b)
    decreases |a|
  {
    if a == [] {
      assert a + b == b;
    } else {
      assert (a + b)[1..] == a[1..] + b;
      if AddCh(u, c, a[0]).res == Ok {
        AddAllConcat(u, AddCh(u, c, a[0]).c, a[1..], b);
      }
    }
  }
}
