/**
 The writer object of `src/wjson.c`: the output buffer, the level stack and the
 flags are updated step by step, exactly as module `JsonWriter` says.
 */
module JsonWriterObject {
  import opened JsonLevels
  import opened JsonWriter
  import opened Options

  class Writer {
    const pretty: bool
    const str: array<char>
    const lvls: array<Lvl>
    var len: nat
    var lvlsLen: nat
    var st: St
    var needComma: bool
    var isFirst: bool

    ghost predicate Valid()
      reads this
    {
      len <= str.Length && lvls.Length == MAX_DEPTH && lvlsLen <= MAX_DEPTH
    }

    ghost function Current(): Ctx
      requires Valid()
      reads this, str, lvls
    {
      Ctx(str[..len], lvls[..lvlsLen], st, needComma, isFirst)
    }

    ghost function How(): Setup
      reads this
    {
      Setup(str.Length, pretty)
    }

    constructor (str: array<char>, pretty: bool)
      modifies str
      ensures this.str == str && this.pretty == pretty && fresh(lvls)
      ensures Valid() && Current() == INIT
    {
      this.str := str;
      this.pretty := pretty;
      lvls := new Lvl[MAX_DEPTH];
      len, lvlsLen, st, needComma, isFirst := 0, 0, NoSt, false, false;
      new;
      if str.Length >= 1 {
        str[0] := '\0';
      }
      if str.Length >= 2 {
        str[str.Length - 1] := '\0';
      }
    }

    /** `lvl_`: the innermost open level. */
    function Level(): (l: Option<Lvl>)
      requires lvls.Length == MAX_DEPTH && lvlsLen <= MAX_DEPTH
      reads this, lvls
      ensures l == Top(lvls[..lvlsLen])
    {
      if lvlsLen == 0 then None else Some(lvls[lvlsLen - 1])
    }

    method AddCh(ch: char) returns (r: Res)
      requires Valid()
      modifies this`len, str
      ensures Valid()
      ensures Result(Current(), r) == JsonWriter.AddCh(How(), old(Current()), ch)
    {
      if len + 2 > str.Length {
        return Overflow;
      }
      str[len] := ch;
      len := len + 1;
      assert str[..len] == old(str[..len]) + [ch];
      r := Ok;
    }

    /** Character after character, until one does not fit. */
    method AddAll(s: string) returns (r: Res)
      requires Valid()
      modifies this`len, str
      ensures Valid()
      ensures Result(Current(), r) == JsonWriter.AddAll(How(), old(Current()), s)
    {
      for i := 0 to |s|
        invariant Valid()
        invariant JsonWriter.AddAll(How(), old(Current()), s) == JsonWriter.AddAll(How(), Current(), s[i..])
      {
        r := AddCh(s[i]);
        if r != Ok {
          return;
        }
        assert s[i..][1..] == s[i + 1..];
      }
      r := Ok;
    }

    method MaybeComma() returns (r: Res)
      requires Valid()
      modifies this`len, this`needComma, str
      ensures Valid()
      ensures Result(Current(), r) == JsonWriter.MaybeComma(How(), old(Current()))
    {
      r := Ok;
      if needComma {
        r := AddAll(if pretty then ",\n" else ",");
        if r != Ok {
          return;
        }
        needComma := false;
      }
    }

    method MaybeIndent() returns (r: Res)
      requires Valid()
      modifies this`len, str
      ensures Valid()
      ensures Result(Current(), r) == JsonWriter.MaybeIndent(How(), old(Current()))
    {
      if pretty && st != WantVal {
        for i := 0 to lvlsLen
          invariant Valid()
          invariant Indent(How(), old(Current()), lvlsLen) == Indent(How(), Current(), lvlsLen - i)
        {
          if len + |INDENT| + 1 > str.Length {
            return Overflow;
          }
          ghost var line := Current();
          for j := 0 to |INDENT|
            invariant len == |line.text| + j && len + |INDENT| - j + 1 <= str.Length
            invariant str[..len] == line.text + INDENT[..j]
          {
            str[len] := ' ';
            len := len + 1;
            assert str[..len] == line.text + INDENT[..j] + [' '];
          }
          assert INDENT[..|INDENT|] == INDENT;
        }
      }
      r := Ok;
    }

    /** What every call but a closing one starts with. */
    method Head() returns (r: Res)
      requires Valid()
      modifies this`len, this`needComma, str
      ensures Valid()
      ensures Result(Current(), r) == JsonWriter.Head(How(), old(Current()))
    {
      hide JsonWriter.MaybeComma, JsonWriter.MaybeIndent;
      r := MaybeComma();
      if r == Ok && pretty && isFirst {
        r := AddCh('\n');
      }
      if r == Ok {
        r := MaybeIndent();
      }
    }

    /** The quoted string; the loop of `wjson_str`. */
    method AddQuoted(s: string) returns (r: Res)
      requires Valid()
      modifies this`len, str
      ensures Valid()
      ensures Result(Current(), r) == JsonWriter.AddAll(How(), old(Current()), Quote(s))
    {
      ghost var c := Current();
      hide JsonWriter.AddAll;
      AddAllConcat(How(), c, "\"", Escape(s) + "\"");
      assert Quote(s) == "\"" + (Escape(s) + "\"");
      r := AddAll("\"");
      if r != Ok {
        return;
      }
      for i := 0 to |s|
        invariant Valid()
        invariant JsonWriter.AddAll(How(), c, Quote(s)) ==
                  JsonWriter.AddAll(How(), Current(), Escape(s[i..]) + "\"")
      {
        assert s[i..][1..] == s[i + 1..];
        assert Escape(s[i..]) + "\"" == EscapeChar(s[i]) + (Escape(s[i + 1..]) + "\"");
        AddAllConcat(How(), Current(), EscapeChar(s[i]), Escape(s[i + 1..]) + "\"");
        r := AddAll(EscapeChar(s[i]));
        if r != Ok {
          return;
        }
      }
      assert Escape(s[|s|..]) + "\"" == "\"";
      r := AddAll("\"");
    }

    method AddString(s: string) returns (r: Res)
      requires Valid()
      modifies this, str
      ensures Valid()
      ensures Result(Current(), r) == StrStep(How(), old(Current()), s)
    {
      hide JsonWriter.Head, JsonWriter.AddAll, Quote;
      r := Head();
      if r != Ok {
        return;
      }
      isFirst := false;
      r := AddQuoted(s);
      if r == Ok {
        r := EndString();
      }
    }

    method EndString() returns (r: Res)
      requires Valid()
      modifies this, str
      ensures Valid()
      ensures Result(Current(), r) == AfterStr(How(), old(Current()))
    {
      r := Ok;
      if st == WantVal {
        st, needComma := WantKey, true;
      } else if st == WantKey {
        needComma := false;
        if Level() != Some(ObjLvl) {
          return Panic;
        }
        r := AddAll(if pretty then ": " else ":");
        if r == Ok {
          st := WantVal;
        }
      } else {
        needComma := true;
      }
    }

    /** `add_literal_`: numbers, booleans and null. */
    method AddLiteral(s: string) returns (r: Res)
      requires Valid()
      modifies this, str
      ensures Valid()
      ensures Result(Current(), r) == LiteralStep(How(), old(Current()), s)
    {
      hide JsonWriter.Head, JsonWriter.AddAll;
      if st != NoSt && st != WantVal {
        return Syntax;
      }
      r := Head();
      if r != Ok {
        return;
      }
      isFirst, needComma := false, true;
      r := AddAll(s);
      if r == Ok && st == WantVal {
        st := WantKey;
      }
    }

    /** `wjson_obj_start` and `wjson_arr_start`. */
    method Open(lvl: Lvl) returns (r: Res)
      requires Valid()
      modifies this, str, lvls
      ensures Valid()
      ensures Result(Current(), r) == OpenStep(How(), old(Current()), lvl)
    {
      hide JsonWriter.Head;
      if st == WantKey {
        return Syntax;
      }
      r := Head();
      if r != Ok {
        return;
      }
      r := AddCh(if lvl == ObjLvl then '{' else '[');
      if r != Ok {
        return;
      }
      if lvlsLen == MAX_DEPTH {
        return Panic;
      }
      ghost var was := lvls[..lvlsLen];
      lvls[lvlsLen] := lvl;
      lvlsLen := lvlsLen + 1;
      assert lvls[..lvlsLen] == was + [lvl];
      st := if lvl == ObjLvl then WantKey else NoSt;
      needComma, isFirst := false, true;
    }

    /** `wjson_obj_end` and `wjson_arr_end`. */
    method Close(lvl: Lvl) returns (r: Res)
      requires Valid()
      modifies this, str
      ensures Valid()
      ensures Result(Current(), r) == CloseStep(How(), old(Current()), lvl)
    {
      hide JsonWriter.MaybeIndent;
      if Level() != Some(lvl) || (lvl == ObjLvl && st == WantVal) {
        return Syntax;
      }
      lvlsLen := lvlsLen - 1;
      assert lvls[..lvlsLen] == Pop(old(lvls[..lvlsLen]));
      if pretty && !isFirst {
        r := AddCh('\n');
        if r != Ok {
          return;
        }
        r := MaybeIndent();
        if r != Ok {
          return;
        }
      }
      hide AfterClose;
      SetAfterClose(lvl);
      r := AddCh(if lvl == ObjLvl then '}' else ']');
    }

    method SetAfterClose(lvl: Lvl)
      requires Valid()
      modifies this`isFirst, this`st, this`needComma
      ensures Valid() && Current() == AfterClose(old(Current()), lvl)
    {
      isFirst := false;
      if lvl == ObjLvl {
        st := if Level() == Some(ObjLvl) then WantKey else NoSt;
        needComma := true;
      } else if Level() == Some(ObjLvl) {
        st, needComma := WantKey, false;
      } else if Level() == Some(ArrLvl) {
        needComma := true;
      }
    }
  }
}
