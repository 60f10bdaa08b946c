/**
 The JSON writer of `src/wjson.c` when its buffer runs out half-way: which calls
 break the order of keys and values, and that even then the panic about a key
 outside an object is never reached.
 */
module JsonWriterFaults {
  import opened Decimal
  import opened JsonLevels
  import opened JsonWriter
  import opened JsonWriterRuns
  import opened Options

  /** How many characters still fit; the last one of the buffer stays free. */
  function Left(u: Setup, c: Ctx): int {
    u.mlen - 1 - |c.text|
  }

  // ----- What a call leaves behind -----

  /** Only the text has changed, and it has only grown. */
  predicate Grown(c: Ctx, c': Ctx) {
    c' == c.(text := c'.text) && |c.text| <= |c'.text|
  }

  lemma {:induction false} AddAllGrows(u: Setup, c: Ctx, s: string)
    ensures
      var x := AddAll(u, c, s);
      Grown(c, x.c) && (x.res == Ok ==> |x.c.text| == |c.text| + |s| && (s != [] ==> Left(u, x.c) >= 0))
    decreases |s|
  {
    if s != [] && AddCh(u, c, s[0]).res == Ok {
      AddAllGrows(u, AddCh(u, c, s[0]).c, s[1..]);
    }
  }

  lemma {:induction false} IndentGrows(u: Setup, c: Ctx, levels: nat)
    ensures
      var x := Indent(u, c, levels);
      && Grown(c, x.c)
      && (x.res == Ok <==> levels == 0 || |INDENT| * levels <= Left(u, c))
      && (x.res == Ok ==> |x.c.text| == |c.text| + |INDENT| * levels)
      && (x.res != Ok ==> x.res == Overflow && Left(u, x.c) < |INDENT|)
    decreases levels
  {
    if levels > 0 && |c.text| + |INDENT| + 1 <= u.mlen {
      IndentGrows(u, c.(text := c.text + INDENT), levels - 1);
    }
  }

  /** The head of a call takes its separator and its indentation from the room left. */
  lemma HeadGrows(u: Setup, c: Ctx)
    ensures
      var x := Head(u, c);
      && x.c == c.(text := x.c.text, needComma := x.c.needComma) && |c.text| <= |x.c.text|
      && (x.res == Ok || x.res == Overflow)
      && (x.res == Ok && u.pretty && c.st != WantVal && c.lvls != [] ==> Left(u, c) >= |INDENT|)
  {
    hide AddAll, Indent;
    AddAllGrows(u, c, if u.pretty then ",\n" else ",");
    AddAllFits(u, c, if u.pretty then ",\n" else ",");
    var x := MaybeComma(u, c);
    if x.res == Ok {
      var y := if u.pretty && x.c.isFirst then AddCh(u, x.c, '\n') else x;
      IndentGrows(u, y.c, |c.lvls|);
    }
  }

  // ----- The invariant of every run -----

  /**
   What is left of the invariant once a closing call has run out of room in its
   indentation: so little room that no string fits any more.
   */
  predicate Spent(u: Setup, c: Ctx) {
    u.pretty && !c.isFirst && c.st != WantVal && Left(u, c) <= if c.lvls == [] then 1 else 3
  }

  predicate RunInv(u: Setup, c: Ctx) {
    |c.lvls| <= MAX_DEPTH && (Inv(c) || Spent(u, c))
  }

  function Opens(call: Call): Option<Lvl> {
    match call
    case ObjStart => Some(ObjLvl)
    case ArrStart => Some(ArrLvl)
    case _ => None
  }

  function Closes(call: Call): Option<Lvl> {
    match call
    case ObjEnd => Some(ObjLvl)
    case ArrEnd => Some(ArrLvl)
    case _ => None
  }

  /** A call keeps the invariant, changes nothing on a syntax error and panics only at the 25th level. */
  predicate Kept(u: Setup, c: Ctx, call: Call, x: Result) {
    && RunInv(u, x.c)
    && (x.res == Syntax ==> x.c == c)
    && (x.res == Panic ==> Opens(call).Some? && |c.lvls| == MAX_DEPTH)
  }

  lemma StrKept(u: Setup, c: Ctx, s: string)
    requires RunInv(u, c)
    ensures Kept(u, c, Str(s), StrStep(u, c, s)) && (Inv(c) ==> Inv(StrStep(u, c, s).c))
  {
    hide Head, AddAll;
    HeadGrows(u, c);
    assert |Quote(s)| >= 2;
    hide Quote;
    var x := Head(u, c);
    if x.res == Ok {
      var c1 := x.c.(isFirst := false);
      AddAllGrows(u, c1, Quote(s));
      AddAllFits(u, c1, Quote(s));
      var y := AddAll(u, c1, Quote(s));
      AddAllGrows(u, y.c.(needComma := false), if u.pretty then ": " else ":");
      AddAllFits(u, y.c.(needComma := false), if u.pretty then ": " else ":");
    }
  }

  lemma LiteralKept(u: Setup, c: Ctx, call: Call, s: string)
    requires RunInv(u, c)
    ensures Kept(u, c, call, LiteralStep(u, c, s)) && (Inv(c) ==> Inv(LiteralStep(u, c, s).c))
  {
    hide Head, AddAll;
    HeadGrows(u, c);
    var c1 := Head(u, c).c.(isFirst := false, needComma := true);
    AddAllGrows(u, c1, s);
    AddAllFits(u, c1, s);
  }

  lemma OpenKept(u: Setup, c: Ctx, call: Call, lvl: Lvl)
    requires RunInv(u, c) && Opens(call) == Some(lvl)
    ensures Kept(u, c, call, OpenStep(u, c, lvl)) && (Inv(c) ==> Inv(OpenStep(u, c, lvl).c))
  {
    hide Head;
    HeadGrows(u, c);
  }

  /** Does the line break and indentation of a closing call run out of room? */
  predicate TailRunsOut(u: Setup, c: Ctx, lvl: Lvl) {
    && Top(c.lvls) == Some(lvl) && !(lvl == ObjLvl && c.st == WantVal)
    && u.pretty && !c.isFirst && 1 + |INDENT| * (|c.lvls| - 1) > Left(u, c)
  }

  lemma CloseLeaves(u: Setup, c: Ctx, lvl: Lvl)
    requires c.st != WantVal && Top(c.lvls) == Some(lvl)
    ensures
      var x, c1 := CloseStep(u, c, lvl), c.(lvls := Pop(c.lvls));
      if TailRunsOut(u, c, lvl) then
        u.pretty && !c.isFirst && x.res == Overflow && Grown(c1, x.c) && Left(u, x.c) <= (if c1.lvls == [] then 0 else 3)
      else
        && Grown(AfterClose(c1, lvl), x.c) && (x.res == Ok || x.res == Overflow)
        && (u.pretty && !c.isFirst ==> Left(u, x.c) <= Left(u, c) - 1)
        && (x.res == Ok && u.pretty && !c.isFirst ==> Left(u, x.c) <= Left(u, c) - 2)
        && (x.res == Overflow ==> Left(u, x.c) <= 0)
  {
    hide Indent;
    var c1 := c.(lvls := Pop(c.lvls));
    IndentGrows(u, c1.(text := c1.text + "\n"), |c1.lvls|);
  }

  /** The kind of bracket closed and the kind around it want different states. */
  predicate Mixed(c: Ctx, lvl: Lvl) {
    c.lvls != [] && (Top(Pop(c.lvls)) == Some(ObjLvl)) != (lvl == ObjLvl)
  }

  lemma CloseKept(u: Setup, c: Ctx, call: Call, lvl: Lvl)
    requires RunInv(u, c) && Closes(call) == Some(lvl)
    ensures Kept(u, c, call, CloseStep(u, c, lvl))
    ensures Inv(c) ==> (!Inv(CloseStep(u, c, lvl).c) <==> TailRunsOut(u, c, lvl) && Mixed(c, lvl))
  {
    hide CloseStep, TailRunsOut;
    if Top(c.lvls) == Some(lvl) && !(lvl == ObjLvl && c.st == WantVal) {
      assert c.st != WantVal;
      CloseLeaves(u, c, lvl);
      assert Pop(c.lvls) == [] || Pop(c.lvls)[|Pop(c.lvls)| - 1] == ObjLvl || Pop(c.lvls)[|Pop(c.lvls)| - 1] == ArrLvl;
    } else {
      CloseRefused(u, c, lvl);
    }
  }

  lemma CloseRefused(u: Setup, c: Ctx, lvl: Lvl)
    requires Top(c.lvls) != Some(lvl) || (lvl == ObjLvl && c.st == WantVal)
    ensures CloseStep(u, c, lvl) == Result(c, Syntax) && !TailRunsOut(u, c, lvl)
  {
  }

  /** When a call breaks the order of keys and values, decided before the call. */
  predicate Breaks(u: Setup, c: Ctx, call: Call) {
    Closes(call).Some? && TailRunsOut(u, c, Closes(call).value) && Mixed(c, Closes(call).value)
  }

  lemma StepKept(u: Setup, c: Ctx, call: Call)
    requires RunInv(u, c)
    ensures Kept(u, c, call, Step(u, c, call))
    ensures Inv(c) ==> (!Inv(Step(u, c, call).c) <==> Breaks(u, c, call))
  {
    hide StrStep, LiteralStep, OpenStep, CloseStep, Kept, Inv, RunInv;
    match call {
      case Str(s) => StrKept(u, c, s);
      case Int(n) => LiteralKept(u, c, call, OfInt(n));
      case Bool(b) => LiteralKept(u, c, call, if b then "true" else "false");
      case Null => LiteralKept(u, c, call, "null");
      case ObjStart => OpenKept(u, c, call, ObjLvl);
      case ArrStart => OpenKept(u, c, call, ArrLvl);
      case ObjEnd => CloseKept(u, c, call, ObjLvl);
      case ArrEnd => CloseKept(u, c, call, ArrLvl);
    }
  }

  lemma {:induction false} RunKept(u: Setup, calls: seq<Call>)
    ensures RunInv(u, Run(u, calls).0) && |Run(u, calls).1| == |calls|
    decreases |calls|
  {
    hide Step, RunInv;
    if calls == [] {
      assert RunInv(u, INIT) by { InitKept(u); }
    } else {
      RunKept(u, calls[..|calls| - 1]);
      StepKept(u, Run(u, calls[..|calls| - 1]).0, calls[|calls| - 1]);
    }
  }

  lemma InitKept(u: Setup)
    ensures RunInv(u, INIT)
  {
  }

  lemma {:induction false} RunPrefix(u: Setup, calls: seq<Call>, i: nat)
    requires i < |calls|
    ensures |Run(u, calls).1| == |calls| && Run(u, calls).1[i] == Step(u, Run(u, calls[..i]).0, calls[i]).res
    decreases |calls|
  {
    hide Step, RunInv;
    RunKept(u, calls);
    var k := |calls| - 1;
    RunKept(u, calls[..k]);
    if i < k {
      RunPrefix(u, calls[..k], i);
      assert calls[..k][..i] == calls[..i];
    }
  }

  /**
   Over every sequence of calls into a buffer of any size, overflows included: a
   call that answers with a syntax error changes nothing, and a call panics only
   to open a bracket where 24 are open. The panic about a key outside an object is
   dead code.
   */
  lemma OnlyDepthPanics(u: Setup, calls: seq<Call>, i: nat)
    requires i < |calls|
    ensures
      var c := Run(u, calls[..i]).0;
      var x := Step(u, c, calls[i]);
      && |Run(u, calls).1| == |calls| && Run(u, calls).1[i] == x.res
      && (x.res == Syntax ==> x.c == c)
      && (x.res == Panic ==> Opens(calls[i]).Some? && |c.lvls| == MAX_DEPTH)
  {
    hide Step, RunInv, Run;
    RunPrefix(u, calls, i);
    RunKept(u, calls[..i]);
    StepKept(u, Run(u, calls[..i]).0, calls[i]);
  }

  /**
   Exactly when a call breaks the order of keys and values: a pretty closing call
   whose line break and indentation do not fit, on a bracket of another kind than
   the one around it.
   */
  lemma BreaksExactly(u: Setup, c: Ctx, call: Call)
    requires Inv(c)
    ensures !Inv(Step(u, c, call).c) <==> Breaks(u, c, call)
  {
    hide Step, Breaks;
    StepKept(u, c, call);
  }

  const TIGHT := Setup(29, true)

  lemma TightStart()
    ensures Run(TIGHT, [ArrStart, ObjStart]) == (Ctx("[\n    {", [ArrLvl, ObjLvl], WantKey, false, true), [Ok, Ok])
  {
    var c1, c2 := Ctx("[", [ArrLvl], NoSt, false, true), Ctx("[\n    {", [ArrLvl, ObjLvl], WantKey, false, true);
    assert Spaces(1) == "    " && Spaces(0) == "";
    assert Free(true, INIT, ArrStart) == Result(c1, Ok);
    assert Free(true, c1, ObjStart) == Result(c2, Ok);
    StepFits(TIGHT, INIT, ArrStart);
    StepFits(TIGHT, c1, ObjStart);
    hide Step, Free;
    assert [ArrStart, ObjStart][..1] == [ArrStart] && [ArrStart][..0] == [];
    assert Run(TIGHT, [ArrStart]) == (c1, [] + [Ok]);
    assert Run(TIGHT, [ArrStart, ObjStart]) == (c2, [] + [Ok] + [Ok]);
    assert [] + [Ok] + [Ok] == [Ok, Ok];
  }

  lemma TightMember()
    ensures
      var calls := [ArrStart, ObjStart, Str(""), Null];
      var c := Run(TIGHT, calls).0;
      Run(TIGHT, calls).1 == [Ok, Ok, Ok, Ok] && |c.text| == 24 && c == Ctx(c.text, [ArrLvl, ObjLvl], WantKey, true, false)
  {
    var calls := [ArrStart, ObjStart, Str(""), Null];
    var c2 := Ctx("[\n    {", [ArrLvl, ObjLvl], WantKey, false, true);
    SpacesLength(2);
    assert |Quote("")| == 2;
    var x := Free(true, c2, Str(""));
    assert |x.c.text| == 20 && x == Result(Ctx(x.c.text, [ArrLvl, ObjLvl], WantVal, false, false), Ok) by { hide Quote, Spaces; }
    var y := Free(true, x.c, Null);
    assert |y.c.text| == 24 && y == Result(Ctx(y.c.text, [ArrLvl, ObjLvl], WantKey, true, false), Ok);
    StepFits(TIGHT, c2, Str(""));
    StepFits(TIGHT, x.c, Null);
    TightStart();
    hide Step, Free;
    assert calls[..3][..2] == [ArrStart, ObjStart];
    assert Run(TIGHT, calls[..3]) == (x.c, [Ok, Ok] + [Ok]);
    assert Run(TIGHT, calls) == (y.c, [Ok, Ok] + [Ok] + [Ok]);
  }

  /** The order can break: closing an object inside an array with no room for the indentation. */
  lemma OrderBroken()
    ensures
      var (c, rs) := Run(TIGHT, [ArrStart, ObjStart, Str(""), Null, ObjEnd]);
      rs == [Ok, Ok, Ok, Ok, Overflow] && c.lvls == [ArrLvl] && c.st == WantKey && !Inv(c)
  {
    var calls := [ArrStart, ObjStart, Str(""), Null, ObjEnd];
    TightMember();
    assert calls[..4] == [ArrStart, ObjStart, Str(""), Null];
    var c := Run(TIGHT, calls[..4]).0;
    CloseLeaves(TIGHT, c, ObjLvl);
    assert Pop(c.lvls) == [ArrLvl] && Step(TIGHT, c, ObjEnd) == CloseStep(TIGHT, c, ObjLvl);
    hide CloseStep, Step;
    assert Run(TIGHT, calls) == (Step(TIGHT, c, ObjEnd).c, [Ok, Ok, Ok, Ok] + [Overflow]);
  }
}
