/**
 Documents, the writer calls that produce them, and the text the compact writer
 of `src/wjson.c` leaves for them.
 */
module JsonTree {
  import opened Decimal
  import opened JsonLevels
  import opened JsonWriter
  import opened JsonWriterRuns
  import opened Options

  datatype Tree =
    | StrTree(s: string)
    | IntTree(n: LongLong)
    | BoolTree(b: bool)
    | NullTree
    | ObjTree(fs: Fields)
    | ArrTree(es: Items)

  datatype Fields = NoFields | Field(key: string, v: Tree, rest: Fields)

  datatype Items = NoItems | Item(v: Tree, rest: Items)

  /** The calls that write a tree, in document order. */
  function Calls(v: Tree): seq<Call> {
    match v
    case StrTree(s) => [Str(s)]
    case IntTree(n) => [Int(n)]
    case BoolTree(b) => [Bool(b)]
    case NullTree => [Null]
    case ObjTree(fs) => [ObjStart] + FieldCalls(fs) + [ObjEnd]
    case ArrTree(es) => [ArrStart] + ItemCalls(es) + [ArrEnd]
  }

  function FieldCalls(fs: Fields): seq<Call> {
    match fs
    case NoFields => []
    case Field(key, v, rest) => [Str(key)] + Calls(v) + FieldCalls(rest)
  }

  function ItemCalls(es: Items): seq<Call> {
    match es
    case NoItems => []
    case Item(v, rest) => Calls(v) + ItemCalls(rest)
  }

  function Comma(need: bool): string {
    if need then "," else ""
  }

  function Text(v: Tree): string {
    match v
    case StrTree(s) => Quote(s)
    case IntTree(n) => OfInt(n)
    case BoolTree(b) => if b then "true" else "false"
    case NullTree => "null"
    case ObjTree(fs) => "{" + FieldsText(fs, false) + "}"
    case ArrTree(es) => "[" + ItemsText(es, false) + "]"
  }

  /** A member after an array gets no comma: that is what the writer does. */
  function FieldsText(fs: Fields, comma: bool): string {
    match fs
    case NoFields => ""
    case Field(key, v, rest) => Comma(comma) + Quote(key) + ":" + Text(v) + FieldsText(rest, !v.ArrTree?)
  }

  function ItemsText(es: Items, comma: bool): string {
    match es
    case NoItems => ""
    case Item(v, rest) => Comma(comma) + Text(v) + ItemsText(rest, true)
  }

  function Max(a: nat, b: nat): nat {
    if a < b then b else a
  }

  /** How many brackets are open at once. */
  function Depth(v: Tree): nat {
    match v
    case ObjTree(fs) => 1 + FieldsDepth(fs)
    case ArrTree(es) => 1 + ItemsDepth(es)
    case _ => 0
  }

  function FieldsDepth(fs: Fields): nat {
    match fs
    case NoFields => 0
    case Field(_, v, rest) => Max(Depth(v), FieldsDepth(rest))
  }

  function ItemsDepth(es: Items): nat {
    match es
    case NoItems => 0
    case Item(v, rest) => Max(Depth(v), ItemsDepth(rest))
  }

  // ----- The unbounded compact writer on a tree -----

  /** Calls until one of them is refused. */
  function Exec(c: Ctx, calls: seq<Call>): Result
    decreases |calls|
  {
    if calls == [] then Result(c, Ok)
    else
      var x := Free(false, c, calls[0]);
      if x.res != Ok then x else Exec(x.c, calls[1..])
  }

  lemma {:induction false} ExecConcat(c: Ctx, a: seq<Call>, b: seq<Call>)
    ensures
      var x := Exec(c, a);
      Exec(c, a + b) == if x.res != Ok then x else Exec(x.c, b)
    decreases |a|
  {
    hide Free;
    if a == [] {
      assert a + b == b;
    } else {
      assert (a + b)[1..] == a[1..] + b;
      if Free(false, c, a[0]).res == Ok {
        ExecConcat(Free(false, c, a[0]).c, a[1..], b);
      }
    }
  }

  lemma ExecOne(c: Ctx, call: Call)
    ensures Exec(c, [call]) == Free(false, c, call)
  {
    hide Free;
    assert [call][1..] == [];
  }

  /** May a value be written here? */
  predicate AtValue(c: Ctx, v: Tree) {
    match c.st
    case WantKey => false
    case WantVal => Top(c.lvls) == Some(ObjLvl) && !c.needComma
    case NoSt => Top(c.lvls) != Some(ObjLvl) && (c.lvls == [] ==> v.ObjTree?)
  }

  /** The writer after a value. */
  function AfterValue(c: Ctx, v: Tree): Ctx {
    c.(text := c.text + Comma(c.needComma) + Text(v),
       isFirst := false,
       st := if c.st == WantVal then WantKey else NoSt,
       needComma := c.st != WantVal || !v.ArrTree?)
  }

  lemma CompactHead(c: Ctx)
    ensures HeadText(false, c) == Comma(c.needComma)
  {
  }

  /** Calls that all succeed can be set apart from the rest. */
  lemma ExecThen(c: Ctx, a: seq<Call>, c1: Ctx, b: seq<Call>)
    requires Exec(c, a) == Result(c1, Ok)
    ensures Exec(c, a + b) == Exec(c1, b)
  {
    hide Exec;
    ExecConcat(c, a, b);
  }

  lemma {:induction false} WriteValue(c: Ctx, v: Tree)
    requires AtValue(c, v) && |c.lvls| + Depth(v) <= MAX_DEPTH
    ensures Exec(c, Calls(v)) == Result(AfterValue(c, v), Ok)
    decreases v, 1
  {
    match v {
      case ObjTree(fs) => WriteObj(c, fs);
      case ArrTree(es) => WriteArr(c, es);
      case _ => WriteScalar(c, v);
    }
  }

  lemma WriteScalar(c: Ctx, v: Tree)
    requires AtValue(c, v) && !v.ObjTree? && !v.ArrTree?
    ensures Exec(c, Calls(v)) == Result(AfterValue(c, v), Ok)
  {
    CompactHead(c);
    ExecOne(c, Calls(v)[0]);
    hide Quote, HeadText, Exec, OfInt;
  }

  /** The writer right after an opening bracket. */
  function Opened(c: Ctx, lvl: Lvl): Ctx {
    Ctx(c.text + Comma(c.needComma) + (if lvl == ObjLvl then "{" else "["),
        c.lvls + [lvl], if lvl == ObjLvl then WantKey else NoSt, false, true)
  }

  lemma OpenCompact(c: Ctx, lvl: Lvl)
    requires c.st != WantKey && |c.lvls| < MAX_DEPTH
    ensures Exec(c, [if lvl == ObjLvl then ObjStart else ArrStart]) == Result(Opened(c, lvl), Ok)
  {
    CompactHead(c);
    ExecOne(c, if lvl == ObjLvl then ObjStart else ArrStart);
    hide HeadText, Exec;
  }

  /** The writer after the bracket opened in `c` has been closed. */
  function Closed(c: Ctx, text: string, lvl: Lvl): Ctx {
    c.(text := text + (if lvl == ObjLvl then "}" else "]"),
       isFirst := false,
       st := if c.st == WantVal then WantKey else NoSt,
       needComma := c.st != WantVal || lvl == ObjLvl)
  }

  lemma CloseCompact(x: Ctx, c: Ctx, lvl: Lvl)
    requires x.lvls == c.lvls + [lvl] && x.st == (if lvl == ObjLvl then WantKey else NoSt)
    requires c.st != WantKey && (c.st == WantVal <==> Top(c.lvls) == Some(ObjLvl)) && (c.lvls == [] ==> lvl == ObjLvl)
    ensures Exec(x, [if lvl == ObjLvl then ObjEnd else ArrEnd]) == Result(Closed(c, x.text, lvl), Ok)
  {
    ExecOne(x, if lvl == ObjLvl then ObjEnd else ArrEnd);
    hide Exec;
    assert Top(x.lvls) == Some(lvl) && Pop(x.lvls) == c.lvls;
    assert x.text + "" == x.text;
    assert c.lvls == [] || c.lvls[|c.lvls| - 1] == ObjLvl || c.lvls[|c.lvls| - 1] == ArrLvl;
  }

  lemma BracketsJoin(before: string, comma: string, open: string, inner: string, close: string)
    ensures before + comma + open + inner + close == before + comma + (open + inner + close)
  {
  }

  lemma {:induction false} WriteObj(c: Ctx, fs: Fields)
    requires AtValue(c, ObjTree(fs)) && |c.lvls| + 1 + FieldsDepth(fs) <= MAX_DEPTH
    ensures Exec(c, Calls(ObjTree(fs))) == Result(AfterValue(c, ObjTree(fs)), Ok)
    decreases ObjTree(fs), 0
  {
    hide Exec;
    hide Free;
    var c1 := Opened(c, ObjLvl);
    OpenCompact(c, ObjLvl);
    WriteFields(c1, fs);
    var x := Exec(c1, FieldCalls(fs)).c;
    hide FieldCalls, FieldsText;
    CloseCompact(x, c, ObjLvl);
    ExecThen(c1, FieldCalls(fs), x, [ObjEnd]);
    ExecThen(c, [ObjStart], c1, FieldCalls(fs) + [ObjEnd]);
    assert [ObjStart] + (FieldCalls(fs) + [ObjEnd]) == [ObjStart] + FieldCalls(fs) + [ObjEnd];
    BracketsJoin(c.text, Comma(c.needComma), "{", FieldsText(fs, false), "}");
  }

  lemma {:induction false} WriteArr(c: Ctx, es: Items)
    requires AtValue(c, ArrTree(es)) && |c.lvls| + 1 + ItemsDepth(es) <= MAX_DEPTH
    ensures Exec(c, Calls(ArrTree(es))) == Result(AfterValue(c, ArrTree(es)), Ok)
    decreases ArrTree(es), 0
  {
    hide Exec;
    hide Free;
    var c1 := Opened(c, ArrLvl);
    OpenCompact(c, ArrLvl);
    WriteItems(c1, es);
    var x := Exec(c1, ItemCalls(es)).c;
    hide ItemCalls, ItemsText;
    CloseCompact(x, c, ArrLvl);
    ExecThen(c1, ItemCalls(es), x, [ArrEnd]);
    ExecThen(c, [ArrStart], c1, ItemCalls(es) + [ArrEnd]);
    assert [ArrStart] + (ItemCalls(es) + [ArrEnd]) == [ArrStart] + ItemCalls(es) + [ArrEnd];
    BracketsJoin(c.text, Comma(c.needComma), "[", ItemsText(es, false), "]");
  }

  /** The writer after a key. */
  function Keyed(c: Ctx, key: string): Ctx {
    c.(text := c.text + Comma(c.needComma) + Quote(key) + ":", isFirst := false, st := WantVal, needComma := false)
  }

  lemma KeyCompact(c: Ctx, key: string)
    requires c.st == WantKey && Top(c.lvls) == Some(ObjLvl)
    ensures Exec(c, [Str(key)]) == Result(Keyed(c, key), Ok)
  {
    CompactHead(c);
    ExecOne(c, Str(key));
    hide HeadText, Quote, Exec;
  }

  lemma FieldJoins(before: string, comma: string, key: string, v: string, rest: string)
    ensures before + comma + key + ":" + "" + v + rest == before + (comma + key + ":" + v + rest)
  {
  }

  lemma {:induction false} WriteFields(c: Ctx, fs: Fields)
    requires c.st == WantKey && Top(c.lvls) == Some(ObjLvl) && |c.lvls| + FieldsDepth(fs) <= MAX_DEPTH
    ensures
      var x := Exec(c, FieldCalls(fs));
      x.res == Ok && x.c.text == c.text + FieldsText(fs, c.needComma) && x.c.lvls == c.lvls && x.c.st == WantKey
    decreases fs
  {
    if fs.NoFields? {
      assert c.text + "" == c.text;
    } else {
      hide Exec, Free, Quote, Calls, Text;
      var c1 := Keyed(c, fs.key);
      var c2 := AfterValue(c1, fs.v);
      assert Exec(c, FieldCalls(fs)) == Exec(c2, FieldCalls(fs.rest)) by {
        assert FieldCalls(fs) == [Str(fs.key)] + (Calls(fs.v) + FieldCalls(fs.rest));
        KeyCompact(c, fs.key);
        WriteValue(c1, fs.v);
        ExecThen(c1, Calls(fs.v), c2, FieldCalls(fs.rest));
        ExecThen(c, [Str(fs.key)], c1, Calls(fs.v) + FieldCalls(fs.rest));
      }
      assert c2.text + FieldsText(fs.rest, c2.needComma) == c.text + FieldsText(fs, c.needComma) by {
        FieldJoins(c.text, Comma(c.needComma), Quote(fs.key), Text(fs.v), FieldsText(fs.rest, c2.needComma));
      }
      hide FieldsText, FieldCalls;
      WriteFields(c2, fs.rest);
    }
  }

  lemma ItemJoins(before: string, comma: string, v: string, rest: string)
    ensures before + comma + v + rest == before + (comma + v + rest)
  {
  }

  lemma {:induction false} WriteItems(c: Ctx, es: Items)
    requires c.st == NoSt && Top(c.lvls) == Some(ArrLvl) && |c.lvls| + ItemsDepth(es) <= MAX_DEPTH
    ensures
      var x := Exec(c, ItemCalls(es));
      x.res == Ok && x.c.text == c.text + ItemsText(es, c.needComma) && x.c.lvls == c.lvls && x.c.st == NoSt
    decreases es
  {
    if es.NoItems? {
      assert c.text + "" == c.text;
    } else {
      hide Exec, Free, Calls, Text;
      var c1 := AfterValue(c, es.v);
      assert Exec(c, ItemCalls(es)) == Exec(c1, ItemCalls(es.rest)) by {
        WriteValue(c, es.v);
        ExecThen(c, Calls(es.v), c1, ItemCalls(es.rest));
      }
      assert c1.text + ItemsText(es.rest, true) == c.text + ItemsText(es, c.needComma) by {
        ItemJoins(c.text, Comma(c.needComma), Text(es.v), ItemsText(es.rest, true));
      }
      hide ItemsText, ItemCalls;
      WriteItems(c1, es.rest);
    }
  }

  // ----- The bounded compact writer on a tree -----

  predicate AllOk(rs: seq<Res>) {
    forall i | 0 <= i < |rs| :: rs[i] == Ok
  }

  /** The text of a call that succeeds leaves room for one more character. */
  lemma StepRoom(u: Setup, c: Ctx, call: Call)
    requires Step(u, c, call).res == Ok
    ensures |Step(u, c, call).c.text| < u.mlen
  {
    hide Head, AddAll;
    match call {
      case Str(s) =>
        assert |Quote(s)| > 0;
        hide Quote;
        var x := Head(u, c).c.(isFirst := false);
        AddAllFits(u, x, Quote(s));
        AddAllFits(u, AddAll(u, x, Quote(s)).c.(needComma := false), if u.pretty then ": " else ":");
      case Int(n) => AddAllFits(u, Head(u, c).c.(isFirst := false, needComma := true), OfInt(n));
      case Bool(b) => AddAllFits(u, Head(u, c).c.(isFirst := false, needComma := true), if b then "true" else "false");
      case Null => AddAllFits(u, Head(u, c).c.(isFirst := false, needComma := true), "null");
      case _ =>
    }
  }

  lemma FreeGrows(c: Ctx, call: Call)
    ensures |c.text| <= |Free(false, c, call).c.text|
  {
    hide HeadText, Quote, OfInt;
  }

  /** One compact call succeeds exactly if the unbounded one does and its text leaves one character. */
  lemma BoundedStep(mlen: nat, c: Ctx, call: Call)
    ensures
      var x, y := Step(Setup(mlen, false), c, call), Free(false, c, call);
      && (x.res == Ok <==> y.res == Ok && |y.c.text| < mlen)
      && (x.res == Ok ==> x.c == y.c)
  {
    hide Step, Free;
    var u := Setup(mlen, false);
    if |Free(false, c, call).c.text| < mlen {
      StepFits(u, c, call);
    } else if Step(u, c, call).res == Ok {
      StepRoom(u, c, call);
      StepFree(u, c, call);
    }
  }

  lemma AllOkSnoc(rs: seq<Res>, r: Res)
    ensures AllOk(rs + [r]) <==> AllOk(rs) && r == Ok
  {
    var all := rs + [r];
    if AllOk(all) {
      assert all[|rs|] == r;
      forall i | 0 <= i < |rs|
        ensures rs[i] == Ok
      {
        assert all[i] == rs[i];
      }
    }
  }

  lemma RunLast(u: Setup, before: seq<Call>, call: Call)
    ensures
      var (c, rs) := Run(u, before);
      Run(u, before + [call]) == (Step(u, c, call).c, rs + [Step(u, c, call).res])
  {
    hide Step;
    assert (before + [call])[..|before|] == before;
  }

  lemma ExecLast(before: seq<Call>, call: Call)
    ensures
      var e := Exec(INIT, before);
      Exec(INIT, before + [call]) == if e.res != Ok then e else Free(false, e.c, call)
  {
    ExecConcat(INIT, before, [call]);
    hide Exec, Free;
    if Exec(INIT, before).res == Ok {
      ExecOne(Exec(INIT, before).c, call);
    }
  }

  /**
   A bounded compact writer follows the unbounded one as long as the text leaves
   it one character, and otherwise refuses some call.
   */
  lemma {:induction false} BoundedRun(mlen: nat, calls: seq<Call>)
    ensures
      var (c, rs) := Run(Setup(mlen, false), calls);
      var e := Exec(INIT, calls);
      && (AllOk(rs) <==> e.res == Ok && (calls == [] || |e.c.text| < mlen))
      && (AllOk(rs) ==> c == e.c)
    decreases |calls|
  {
    if calls != [] {
      hide Exec, Free, Step, Run, AllOk;
      var u, before, call := Setup(mlen, false), calls[..|calls| - 1], calls[|calls| - 1];
      assert calls == before + [call];
      BoundedRun(mlen, before);
      var (c, rs) := Run(u, before);
      RunLast(u, before, call);
      ExecLast(before, call);
      AllOkSnoc(rs, Step(u, c, call).res);
      var e := Exec(INIT, before).c;
      BoundedStep(mlen, e, call);
      FreeGrows(e, call);
      if before == [] {
        assert e == INIT && c == INIT && AllOk(rs) by { EmptyRun(u); }
      }
    }
  }

  lemma EmptyRun(u: Setup)
    ensures Run(u, []) == (INIT, []) && AllOk([]) && Exec(INIT, []) == Result(INIT, Ok)
  {
  }

  // ----- Documents that are too deep -----

  lemma {:induction false} DeepValue(c: Ctx, v: Tree)
    requires AtValue(c, v) && |c.lvls| <= MAX_DEPTH < |c.lvls| + Depth(v)
    ensures Exec(c, Calls(v)).res == Panic
    decreases v
  {
    hide Exec;
    if v.ObjTree? {
      assert Calls(v) == [ObjStart] + (FieldCalls(v.fs) + [ObjEnd]);
      if |c.lvls| < MAX_DEPTH {
        DeepFields(Opened(c, ObjLvl), v.fs);
      }
      DeepInside(c, ObjLvl, FieldCalls(v.fs), [ObjEnd]);
    } else {
      assert Calls(v) == [ArrStart] + (ItemCalls(v.es) + [ArrEnd]);
      if |c.lvls| < MAX_DEPTH {
        DeepItems(Opened(c, ArrLvl), v.es);
      }
      DeepInside(c, ArrLvl, ItemCalls(v.es), [ArrEnd]);
    }
  }

  /** A bracket that cannot be opened, or that holds something too deep. */
  lemma DeepInside(c: Ctx, lvl: Lvl, inner: seq<Call>, stop: seq<Call>)
    requires c.st != WantKey && |c.lvls| <= MAX_DEPTH
    requires |c.lvls| < MAX_DEPTH ==> Exec(Opened(c, lvl), inner).res == Panic
    ensures Exec(c, [if lvl == ObjLvl then ObjStart else ArrStart] + (inner + stop)).res == Panic
  {
    var start := if lvl == ObjLvl then ObjStart else ArrStart;
    hide Exec;
    ExecConcat(c, [start], inner + stop);
    if |c.lvls| == MAX_DEPTH {
      ExecOne(c, start);
      hide HeadText;
    } else {
      OpenCompact(c, lvl);
      ExecConcat(Opened(c, lvl), inner, stop);
      hide Opened;
    }
  }

  lemma {:induction false} DeepFields(c: Ctx, fs: Fields)
    requires c.st == WantKey && Top(c.lvls) == Some(ObjLvl)
    requires |c.lvls| <= MAX_DEPTH < |c.lvls| + FieldsDepth(fs)
    ensures Exec(c, FieldCalls(fs)).res == Panic
    decreases fs
  {
    var c1 := Keyed(c, fs.key);
    assert FieldCalls(fs) == [Str(fs.key)] + (Calls(fs.v) + FieldCalls(fs.rest));
    hide Exec, Free, Quote, Calls, Text;
    KeyCompact(c, fs.key);
    ExecThen(c, [Str(fs.key)], c1, Calls(fs.v) + FieldCalls(fs.rest));
    ExecConcat(c1, Calls(fs.v), FieldCalls(fs.rest));
    if |c.lvls| + Depth(fs.v) > MAX_DEPTH {
      DeepValue(c1, fs.v);
    } else {
      WriteValue(c1, fs.v);
      DeepFields(AfterValue(c1, fs.v), fs.rest);
    }
  }

  lemma {:induction false} DeepItems(c: Ctx, es: Items)
    requires c.st == NoSt && Top(c.lvls) == Some(ArrLvl)
    requires |c.lvls| <= MAX_DEPTH < |c.lvls| + ItemsDepth(es)
    ensures Exec(c, ItemCalls(es)).res == Panic
    decreases es
  {
    hide Exec, Free, Calls, Text;
    ExecConcat(c, Calls(es.v), ItemCalls(es.rest));
    if |c.lvls| + Depth(es.v) > MAX_DEPTH {
      DeepValue(c, es.v);
    } else {
      WriteValue(c, es.v);
      DeepItems(AfterValue(c, es.v), es.rest);
    }
  }

  /**
   Writing a document: every call succeeds exactly when the document is no
   deeper than 24 brackets and its text leaves the buffer one character, and
   then the buffer holds exactly that text.
   */
  lemma WritesTree(mlen: nat, fs: Fields)
    ensures
      var (c, rs) := Run(Setup(mlen, false), Calls(ObjTree(fs)));
      && (AllOk(rs) <==> Depth(ObjTree(fs)) <= MAX_DEPTH && |Text(ObjTree(fs))| < mlen)
      && (AllOk(rs) ==> c.text == Text(ObjTree(fs)) && c.lvls == [])
  {
    assert Calls(ObjTree(fs)) != [];
    hide Exec, Run, Text, Calls;
    BoundedRun(mlen, Calls(ObjTree(fs)));
    if Depth(ObjTree(fs)) <= MAX_DEPTH {
      WriteValue(INIT, ObjTree(fs));
      assert "" + Comma(false) + Text(ObjTree(fs)) == Text(ObjTree(fs));
    } else {
      DeepValue(INIT, ObjTree(fs));
    }
  }
}
