/**
 The reader object of `src/rjson.c`: state, scanner data, level stack and string
 buffer are updated in place, and every update is the one the automaton of
 module `JsonReader` gives.
 */
module JsonReaderObject {
  import opened Chars
  import opened CStrings
  import opened JsonLevels
  import opened JsonReader
  import opened Options

  datatype Ty = Incomplete | StrTy | NumTy | BoolTy | NullTy | ObjStartTy | ObjEndTy | ArrStartTy | ArrEndTy

  datatype St = IdleSt | WantKeySt | WantColonSt | StrSt | NumSt | WordSt(word: Word)

  /** The scanner data; each state uses one of the alternatives. */
  datatype Scratch =
    | StrData(len: nat, isEscape: bool, isKey: bool)
    | NumberData(num: NumData)
    | WordData(wordPos: nat, isTrue: bool)

  class Reader {
    const str: array<char>
    const lvls: array<Lvl>
    var lvlsLen: nat
    var sd: Scratch
    var st: St
    var bufferedCh: Option<char>
    var cur: Ty
    var isValExpected: bool
    var pos: nat

    ghost predicate Valid()
      reads this, str
    {
      && lvls.Length == MAX_DEPTH && lvlsLen <= MAX_DEPTH
      && (cur == NumTy ==> sd.NumberData?)
      && (cur == BoolTy ==> sd.WordData?)
      && match st
         case StrSt => cur == Incomplete && sd.StrData? && sd.len <= str.Length && NoNul(str[..sd.len])
         case NumSt => cur == Incomplete && sd.NumberData?
         case WordSt(w) => cur == Incomplete && sd.WordData? && sd.isTrue == (w == TrueWord)
         case _ => true
    }

    /** What `rjson_cur_ty` and the getters show. */
    function CurEvent(): Option<Event>
      requires Valid()
      reads this, str
    {
      match cur
      case Incomplete => None
      case StrTy => Some(Str(CString(str[..])))
      case NumTy => Some(Num(sd.num.num))
      case BoolTy => Some(Bool(sd.isTrue))
      case NullTy => Some(Null)
      case ObjStartTy => Some(ObjStart)
      case ObjEndTy => Some(ObjEnd)
      case ArrStartTy => Some(ArrStart)
      case ArrEndTy => Some(ArrEnd)
    }

    ghost function Current(): State
      requires Valid()
      reads this, str, lvls
    {
      var mode :=
        match st
        case IdleSt => Idle
        case WantKeySt => WantKey
        case WantColonSt => WantColon
        case StrSt => InStr(str[..sd.len], sd.isEscape, sd.isKey)
        case NumSt => InNum(sd.num)
        case WordSt(w) => InWord(w, sd.wordPos);
      State(mode, lvls[..lvlsLen], isValExpected, CurEvent(), bufferedCh, pos)
    }

    constructor (str: array<char>)
      ensures this.str == str && fresh(lvls)
      ensures Valid() && Current() == INIT
    {
      this.str := str;
      lvls := new Lvl[MAX_DEPTH];
      lvlsLen, sd, st, bufferedCh, cur, isValExpected, pos :=
        0, StrData(0, false, false), IdleSt, None, Incomplete, true, 0;
    }

    /** `lvl_`: the innermost open level. */
    function Level(): (l: Option<Lvl>)
      requires lvls.Length == MAX_DEPTH && lvlsLen <= MAX_DEPTH
      reads this, lvls
      ensures l == Top(lvls[..lvlsLen])
    {
      if lvlsLen == 0 then None else Some(lvls[lvlsLen - 1])
    }

    method NextIdle(ch: char) returns (r: Res)
      requires Valid() && st == IdleSt
      modifies this, str, lvls
      ensures Valid()
      ensures Result(Current(), r) == JsonReader.NextIdle(str.Length, old(Current()), ch)
    {
      hide JsonReader.NextWord, JsonReader.NextNum, JsonReader.OpenLvl, WordFor;
      cur := Incomplete;
      if IsWhitespace(ch) {
        return Ok;
      }
      if Level() == None && ch != '{' {
        return Syntax;
      }
      if isValExpected {
        var w := WordFor(ch);
        if w.Some? {
          st, sd := WordSt(w.value), WordData(0, w.value == TrueWord);
          r := NextWord(ch);
          return;
        } else if IsNumStart(ch) {
          st, sd := NumSt, NumberData(NUM_START);
          r := NextNum(ch);
          return;
        }
      }
      match ch
      case '{' =>
        if isValExpected {
          r := AddLvl(ObjLvl);
        } else {
          r := Syntax;
        }
      case '[' =>
        if isValExpected {
          r := AddLvl(ArrLvl);
        } else {
          r := Syntax;
        }
      case '}' =>
        if Level() == Some(ObjLvl) && !isValExpected {
          r := CloseObj();
        } else {
          r := Syntax;
        }
      case ']' =>
        if Level() == Some(ArrLvl) && !isValExpected {
          PopLvl();
          cur := ArrEndTy;
          r := Ok;
        } else {
          r := Syntax;
        }
      case '\"' =>
        if isValExpected {
          st, sd := StrSt, StrData(0, false, false);
          isValExpected := false;
          r := Ok;
        } else {
          r := Syntax;
        }
      case ',' =>
        if !isValExpected {
          isValExpected := true;
          if Level() == Some(ObjLvl) {
            st := WantKeySt;
          }
          r := Ok;
        } else {
          r := Syntax;
        }
      case _ =>
        r := Syntax;
    }

    method PopLvl()
      requires Valid() && 0 < lvlsLen
      modifies this`lvlsLen
      ensures Valid() && lvls[..lvlsLen] == Pop(old(lvls[..lvlsLen]))
    {
      lvlsLen := lvlsLen - 1;
      assert lvls[..lvlsLen] == old(lvls[..lvlsLen])[..lvlsLen];
    }

    /** Open a level and report it. */
    method AddLvl(lvl: Lvl) returns (r: Res)
      requires Valid() && st == IdleSt && cur == Incomplete
      modifies this, lvls
      ensures Valid()
      ensures Result(Current(), r) == OpenLvl(old(Current()), lvl)
    {
      if lvlsLen == MAX_DEPTH {
        return Panic;
      }
      lvls[lvlsLen] := lvl;
      lvlsLen := lvlsLen + 1;
      st := if lvl == ObjLvl then WantKeySt else IdleSt;
      cur := if lvl == ObjLvl then ObjStartTy else ArrStartTy;
      isValExpected := true;
      r := Ok;
      assert lvls[..lvlsLen] == old(lvls[..lvlsLen]) + [lvl];
    }

    method CloseObj() returns (r: Res)
      requires Valid() && 0 < lvlsLen
      modifies this
      ensures Valid()
      ensures Result(Current(), r) == JsonReader.CloseObj(old(Current()))
    {
      st := IdleSt;
      PopLvl();
      cur := ObjEndTy;
      isValExpected := false;
      r := if Level() == None then Fin else Ok;
    }

    method NextWantKey(ch: char) returns (r: Res)
      requires Valid() && st == WantKeySt
      modifies this
      ensures Valid()
      ensures Result(Current(), r) == JsonReader.NextWantKey(old(Current()), ch)
    {
      if Level() != Some(ObjLvl) || !isValExpected {
        return Panic;
      }
      if IsWhitespace(ch) {
        return Ok;
      }
      if ch == '\"' {
        cur := Incomplete;
        st, sd := StrSt, StrData(0, false, true);
        return Ok;
      }
      if ch == '}' {
        r := CloseObj();
      } else {
        r := Syntax;
      }
    }

    method NextWantColon(ch: char) returns (r: Res)
      requires Valid() && st == WantColonSt
      modifies this
      ensures Valid()
      ensures Result(Current(), r) == JsonReader.NextWantColon(old(Current()), ch)
    {
      if Level() != Some(ObjLvl) || isValExpected {
        return Panic;
      }
      if IsWhitespace(ch) {
        return Ok;
      }
      if ch == ':' {
        st, cur, isValExpected := IdleSt, Incomplete, true;
        r := Ok;
      } else {
        r := Syntax;
      }
    }

    method NextStr(ch: char) returns (r: Res)
      requires Valid() && st == StrSt
      modifies this, str
      ensures Valid()
      ensures Result(Current(), r) ==
              JsonReader.NextStr(str.Length, old(Current()), old(str[..sd.len]), old(sd.isEscape), old(sd.isKey), ch)
    {
      if sd.isKey && Level() != Some(ObjLvl) {
        return Panic;
      }
      if IsControl(ch) {
        return Syntax;
      }
      var c := ch;
      if sd.isEscape {
        var u := Unescape(ch);
        if u.None? {
          return Syntax;
        }
        sd := StrData(sd.len, false, sd.isKey);
        c := u.value;
      } else if ch == '\\' {
        sd := StrData(sd.len, true, sd.isKey);
        return Ok;
      } else if ch == '\"' {
        r := EndStr();
        return;
      }
      if sd.len == str.Length {
        return Syntax;
      }
      str[sd.len] := c;
      assert str[..sd.len + 1] == old(str[..sd.len]) + [c];
      sd := StrData(sd.len + 1, sd.isEscape, sd.isKey);
      r := Ok;
    }

    /** The closing quote: the string is reported and terminated. */
    method EndStr() returns (r: Res)
      requires Valid() && st == StrSt
      modifies this, str
      ensures Valid()
      ensures
        var s, buf := old(Current()), old(str[..sd.len]);
        Result(Current(), r) ==
        Result(s.(mode := if old(sd.isKey) then WantColon else Idle, cur := Some(Str(buf)), valExpected := false),
               if |buf| < str.Length then Ok else Syntax)
    {
      cur := StrTy;
      isValExpected := false;
      st := if sd.isKey then WantColonSt else IdleSt;
      var len := sd.len;
      if len == str.Length {
        assert str[..] == str[..len];
        CStringWhole(str[..]);
        return Syntax;
      }
      str[len] := '\0';
      sd := StrData(len + 1, false, sd.isKey);
      assert str[..] == old(str[..sd.len]) + ['\0'] + str[len + 1..];
      CStringOf(old(str[..sd.len]), str[len + 1..]);
      r := Ok;
    }

    method NextNum(ch: char) returns (r: Res)
      requires Valid() && st == NumSt
      modifies this
      ensures Valid()
      ensures Result(Current(), r) == JsonReader.NextNum(old(Current()), old(sd.num), ch)
    {
      if !isValExpected {
        return Panic;
      }
      if EndsNum(ch) {
        if sd.num.digitPos == 0 {
          return Syntax;
        }
        if bufferedCh.Some? {
          return Panic;
        }
        sd := NumberData(sd.num.(num := NumValue(sd.num)));
        cur := NumTy;
        bufferedCh := Some(ch);
        isValExpected := false;
        st := IdleSt;
        return Ok;
      }
      var d := NumStep(sd.num, ch);
      if d.None? {
        return Syntax;
      }
      sd := NumberData(d.value);
      r := Ok;
    }

    method NextWord(ch: char) returns (r: Res)
      requires Valid() && st.WordSt?
      modifies this
      ensures Valid()
      ensures Result(Current(), r) == JsonReader.NextWord(old(Current()), old(st.word), old(sd.wordPos), ch)
    {
      var word := WordText(st.word);
      if !isValExpected || sd.wordPos >= |word| {
        return Panic;
      }
      if ch != word[sd.wordPos] {
        return Syntax;
      }
      if sd.wordPos == |word| - 1 {
        cur := if st.word == NullWord then NullTy else BoolTy;
        isValExpected := false;
        st := IdleSt;
      } else {
        sd := WordData(sd.wordPos + 1, sd.isTrue);
      }
      r := Ok;
    }

    /** One character through the automaton. */
    method Core(ch: char) returns (r: Res)
      requires Valid()
      modifies this, str, lvls
      ensures Valid()
      ensures Result(Current(), r) == JsonReader.Core(str.Length, old(Current()), ch)
    {
      hide JsonReader.NextIdle, JsonReader.NextWantKey, JsonReader.NextWantColon;
      hide JsonReader.NextStr, JsonReader.NextNum, JsonReader.NextWord;
      match st
      case IdleSt => r := NextIdle(ch);
      case WantKeySt => r := NextWantKey(ch);
      case WantColonSt => r := NextWantColon(ch);
      case StrSt => r := NextStr(ch);
      case NumSt => r := NextNum(ch);
      case WordSt(_) => r := NextWord(ch);
    }

    /** The upper part of `rjson_next`: the end of the text, or one character and its position. */
    method HandleChar(c: char, behind: bool) returns (r: Res)
      requires Valid()
      modifies this, str, lvls
      ensures Valid()
      ensures Result(Current(), r) == Handle(str.Length, old(Current()), c, behind)
    {
      hide JsonReader.Core;
      if c == '\0' {
        r := if Level() == None then Fin else Syntax;
        return;
      }
      r := Core(c);
      if (behind || bufferedCh.None?) && r != Syntax {
        pos := pos + 1;
      }
    }

    /**
     One call of `rjson_next`: after a number the reader runs one character
     behind, and calls itself to catch up when it has nothing to report.
     */
    method Next(ch: char) returns (r: Res)
      requires Valid()
      modifies this, str, lvls
      ensures Valid()
      ensures Result(Current(), r) == JsonReader.Next(str.Length, old(Current()), ch)
      decreases if bufferedCh.Some? then 1 else 0
    {
      hide Handle;
      var c, processedBuffered := ch, false;
      if bufferedCh.Some? {
        c := bufferedCh.value;
        bufferedCh := Some(ch);
        processedBuffered := true;
      }
      ghost var before := Current();
      r := HandleChar(c, processedBuffered);
      HandleReportsWhatItKeeps(str.Length, before, c, processedBuffered);
      if c == '\0' {
        return;
      }
      if bufferedCh.Some? {
        if r == Ok && cur == Incomplete {
          var last := bufferedCh.value;
          bufferedCh := None;
          ghost var s := Current();
          r := Next(last);
          NextWithoutLookahead(str.Length, s, last);
        } else if r == Ok && bufferedCh == Some('\0') && Level() != None {
          r := Syntax;
        }
      }
    }
  }

  lemma CoreReportsWhatItKeeps(mlen: nat, s: State, ch: char)
    ensures
      var x := Core(mlen, s, ch);
      s.buffered.None? && x.st.buffered.Some? ==> x.res == Ok && x.st.cur.Some? && x.st.buffered == Some(ch)
  {
    hide NumStep, WordFor, Unescape;
  }

  lemma HandleReportsWhatItKeeps(mlen: nat, s: State, ch: char, behind: bool)
    ensures
      var x := Handle(mlen, s, ch, behind);
      s.buffered.None? && x.st.buffered.Some? ==> x.res == Ok && x.st.cur.Some? && x.st.buffered == Some(ch)
  {
    hide Core;
    CoreReportsWhatItKeeps(mlen, s, ch);
  }

  lemma NextWithoutLookahead(mlen: nat, s: State, ch: char)
    requires s.buffered.None?
    ensures Next(mlen, s, ch) == Handle(mlen, s, ch, false)
  {
    hide Core;
    CoreReportsWhatItKeeps(mlen, s, ch);
  }
}
