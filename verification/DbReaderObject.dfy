/**
 The reader object of `src/rdb.c`: flags, scanner data and string buffer are
 updated in place by each character, and every update is the one `Step` gives.
 */
module DbReaderObject {
  import opened Chars
  import opened CStrings
  import opened DbReader
  import opened Decimal
  import opened Options

  datatype Ty = Incomplete | KeyTy | StrTy | NumTy | BoolTy

  datatype St = IdleSt | KeySt | StrSt | LongSt | NumSt | BoolSt

  /** The scanner data; each state uses one of the alternatives. */
  datatype Scratch =
    | KeyData(len: nat)
    | StrData(len: nat, isEscape: bool)
    | LongData(len: nat, isEscape: bool, skipWhitespace: bool, keepLastNewline: bool)
    | NumberData(num: NumData)
    | BoolData(word: string)

  class Reader {
    const strOut: array<char>
    var pos: nat
    var ty: Ty
    var st: St
    var isInArr: bool
    var gotKey: bool
    var expectColon: bool
    var gotFirstVal: bool
    var sd: Scratch

    ghost predicate Valid()
      reads this, strOut
    {
      && 1 <= strOut.Length
      && (ty == NumTy ==> sd.NumberData?)
      && (ty == BoolTy ==> sd.BoolData?)
      && match st
         case IdleSt => true
         case KeySt => sd.KeyData? && sd.len <= strOut.Length && NoNul(strOut[..sd.len])
         case StrSt => sd.StrData? && sd.len <= strOut.Length && NoNul(strOut[..sd.len])
         case LongSt => sd.LongData? && sd.len <= strOut.Length && NoNul(strOut[..sd.len])
         case NumSt => sd.NumberData?
         case BoolSt => sd.BoolData? && |sd.word| <= MAX_WORD
    }

    ghost function Current(): State
      requires Valid()
      reads this, strOut
    {
      var mode :=
        match st
        case IdleSt => Idle
        case KeySt => InKey(strOut[..sd.len])
        case StrSt => InStr(strOut[..sd.len], sd.isEscape)
        case LongSt => InLong(strOut[..sd.len], sd.isEscape, sd.skipWhitespace, sd.keepLastNewline)
        case NumSt => InNum(sd.num)
        case BoolSt => InBool(sd.word);
      State(mode, isInArr, gotKey, expectColon, gotFirstVal)
    }

    /** What a client sees through `rdb_cur_ty` and the getters beside it. */
    function CurToken(): Option<Token>
      requires Valid()
      reads this, strOut
    {
      match ty
      case Incomplete => None
      case KeyTy => Some(Key(CString(strOut[..])))
      case StrTy => Some(Str(CString(strOut[..])))
      case NumTy => Some(Num(sd.num))
      case BoolTy => Some(Bool(sd.word <= "true"))
    }

    ghost function Seen(r: Next): Result
      requires Valid()
      reads this, strOut
    {
      Result(Current(), r, CurToken())
    }

    constructor (strOut: array<char>)
      requires 1 <= strOut.Length
      ensures this.strOut == strOut && pos == 0
      ensures Valid() && Current() == INIT && CurToken() == None
    {
      this.strOut := strOut;
      pos, ty, st, sd := 0, Incomplete, IdleSt, KeyData(0);
      isInArr, gotKey, expectColon, gotFirstVal := false, false, false, false;
    }

    /** One character: the state, the answer and the visible token are the ones `Step` gives. */
    method Next(ch: char) returns (r: Next)
      requires Valid()
      modifies this, strOut
      ensures Valid()
      ensures Seen(r) == Step(strOut.Length, old(Current()), ch)
      ensures pos == old(pos) + if r == Syntax then 0 else 1
    {
      hide DbReader.NextIdle, DbReader.NextKey, DbReader.NextStr, DbReader.NextLong, DbReader.NextNum, DbReader.NextBool;
      ty := Incomplete;
      match st {
        case IdleSt => r := NextIdle(ch);
        case KeySt => r := NextKey(ch);
        case StrSt => r := NextStr(ch);
        case LongSt => r := NextLong(ch);
        case NumSt => r := NextNum(ch);
        case BoolSt => r := NextBool(ch);
      }
      if r != Syntax {
        pos := pos + 1;
      }
    }

    method NextIdle(ch: char) returns (r: Next)
      requires Valid() && st == IdleSt && ty == Incomplete
      modifies this, strOut
      ensures Valid() && pos == old(pos)
      ensures Seen(r) == DbReader.NextIdle(strOut.Length, old(Current()), ch)
    {
      hide DbReader.NextNum, DbReader.NextKey, DbReader.NextBool;
      var isValExpected := gotKey && (isInArr || !gotFirstVal) && !expectColon;
      r := Ok;
      if IsDigit(ch) || ch == '-' || ch == '+' || ch == '.' {
        if !isValExpected {
          return Syntax;
        }
        SetSt(NumSt);
        r := NextNum(ch);
      } else if ch == ':' {
        if !expectColon {
          return Syntax;
        }
        expectColon := false;
      } else if ch == '\"' {
        if !isValExpected {
          return Syntax;
        }
        SetSt(StrSt);
      } else if ch == '<' {
        if !isValExpected {
          return Syntax;
        }
        SetSt(LongSt);
      } else if ch == ',' {
        isInArr := true;
      } else if ch == '\n' {
        isInArr, gotKey, gotFirstVal := false, false, false;
      } else if ch == '\0' {
        isInArr, gotKey, gotFirstVal := false, false, false;
        r := Fin;
      } else if ch == ' ' || ch == '\t' {
      } else if !gotKey {
        SetSt(KeySt);
        r := NextKey(ch);
      } else if isValExpected {
        SetSt(BoolSt);
        r := NextBool(ch);
      } else {
        r := Syntax;
      }
    }

    /** Append one decoded character to the string buffer, if there is room. */
    method AddChar(len: nat, ch: char) returns (ok: bool)
      requires len <= strOut.Length
      modifies strOut
      ensures ok <==> len < strOut.Length
      ensures ok ==> strOut[..len + 1] == old(strOut[..len]) + [ch]
      ensures strOut[..len] == old(strOut[..len])
    {
      ok := len < strOut.Length;
      if ok {
        strOut[len] := ch;
      }
    }

    /** Write the NUL after `len` decoded characters, which makes them the buffer's C string. */
    method Terminate(len: nat) returns (ok: bool)
      requires len <= strOut.Length && NoNul(strOut[..len])
      modifies strOut
      ensures ok <==> len < strOut.Length
      ensures ok ==> CString(strOut[..]) == old(strOut[..len])
      ensures strOut[..len] == old(strOut[..len])
    {
      ok := AddChar(len, '\0');
      if ok {
        assert strOut[..] == strOut[..len + 1] + strOut[len + 1..];
        CStringOf(old(strOut[..len]), strOut[len + 1..]);
      }
    }

    method NextKey(ch: char) returns (r: Next)
      requires Valid() && st == KeySt && ty == Incomplete
      modifies this, strOut
      ensures Valid() && pos == old(pos)
      ensures Seen(r) == DbReader.NextKey(strOut.Length, old(Current()), old(strOut[..sd.len]), ch)
    {
      if ch == ':' || ch == ' ' || ch == '\t' {
        if sd.len == 0 {
          return Syntax;
        }
        var ok := Terminate(sd.len);
        if !ok {
          return Syntax;
        }
        ty := KeyTy;
        GoIdle();
        expectColon := ch != ':';
        gotKey, gotFirstVal, isInArr := true, false, false;
        return Ok;
      }
      if !IsKeyChar(ch) {
        return Syntax;
      }
      var ok := AddChar(sd.len, ch);
      if !ok {
        return Syntax;
      }
      sd := KeyData(sd.len + 1);
      r := Ok;
    }

    method NextStr(ch: char) returns (r: Next)
      requires Valid() && st == StrSt && ty == Incomplete
      modifies this, strOut
      ensures Valid() && pos == old(pos)
      ensures Seen(r) == DbReader.NextStr(strOut.Length, old(Current()), old(strOut[..sd.len]), old(sd.isEscape), ch)
    {
      var c := ch;
      if IsControl(ch) && ch != '\t' {
        return Syntax;
      }
      if !sd.isEscape {
        if ch == '\"' {
          var ok := Terminate(sd.len);
          if !ok {
            return Syntax;
          }
          ty := StrTy;
          GoIdle();
          gotKey, gotFirstVal := ch != '\n', true;
          return Ok;
        } else if ch == '\\' {
          sd := StrData(sd.len, true);
          return Ok;
        }
      } else {
        c := Unescape(ch);
        sd := StrData(sd.len, false);
      }
      var ok := AddChar(sd.len, c);
      if !ok {
        return Syntax;
      }
      sd := StrData(sd.len + 1, sd.isEscape);
      r := Ok;
    }

    /** The `>` that ends an angle-bracketed string: an unprotected newline before it is dropped. */
    method CloseLong() returns (r: Next)
      requires Valid() && st == LongSt && ty == Incomplete && !sd.isEscape
      modifies this, strOut
      ensures Valid() && pos == old(pos)
      ensures Seen(r) ==
              DbReader.CloseLong(strOut.Length, old(Current()), old(strOut[..sd.len]), old(sd.keepLastNewline))
    {
      if sd.len > 0 && strOut[sd.len - 1] == '\n' && !sd.keepLastNewline {
        sd := LongData(sd.len - 1, false, sd.skipWhitespace, false);
        assert strOut[..sd.len] == old(strOut[..sd.len])[..sd.len];
      }
      var ok := Terminate(sd.len);
      if !ok {
        return Syntax;
      }
      ty := StrTy;
      GoIdle();
      gotKey, gotFirstVal := true, true;
      r := Ok;
    }

    method NextLong(ch: char) returns (r: Next)
      requires Valid() && st == LongSt && ty == Incomplete
      modifies this, strOut
      ensures Valid() && pos == old(pos)
      ensures Seen(r) ==
              DbReader.NextLong(strOut.Length, old(Current()), old(strOut[..sd.len]), old(sd.isEscape),
                                old(sd.skipWhitespace), old(sd.keepLastNewline), ch)
    {
      var c := ch;
      if IsControl(ch) && ch != '\t' && ch != '\n' {
        return Syntax;
      }
      if !sd.isEscape {
        if ch == '>' {
          r := CloseLong();
          return;
        } else if ch == '\\' {
          sd := LongData(sd.len, true, false, sd.keepLastNewline);
          return Ok;
        } else if ch == ' ' || ch == '\t' || ch == '\n' {
          if sd.skipWhitespace {
            if ch == '\n' {
              sd := LongData(sd.len, false, false, sd.keepLastNewline);
            }
            sd := LongData(sd.len, false, sd.skipWhitespace, true);
            return Ok;
          }
        }
        sd := LongData(sd.len, false, sd.skipWhitespace, false);
      } else {
        c := Unescape(ch);
        sd := LongData(sd.len, false, sd.skipWhitespace, c == '\n');
      }
      var ok := AddChar(sd.len, c);
      if !ok {
        return Syntax;
      }
      sd := LongData(sd.len + 1, false, false, sd.keepLastNewline);
      r := Ok;
    }

    method NextBool(ch: char) returns (r: Next)
      requires Valid() && st == BoolSt && ty == Incomplete
      modifies this
      ensures Valid() && pos == old(pos)
      ensures Seen(r) == DbReader.NextBool(old(Current()), old(sd.word), ch)
    {
      if IsSeparator(ch) {
        if !IsBoolWord(sd.word) {
          return Syntax;
        }
        ty := BoolTy;
        r := EndScalar(ch);
      } else if |sd.word| < MAX_WORD {
        sd := BoolData(sd.word + [ch]);
        r := Ok;
      } else {
        r := Syntax;
      }
    }

    /** The flags after a number or boolean, and the answer to its separator. */
    method EndScalar(ch: char) returns (r: Next)
      requires Valid() && (ty == NumTy || ty == BoolTy)
      modifies this
      ensures Valid() && pos == old(pos)
      ensures Seen(r) == DbReader.EndScalar(ch, old(CurToken()).value)
    {
      GoIdle();
      isInArr, gotKey, gotFirstVal := ch == ',', ch != '\n', true;
      r := if ch == '\0' then Fin else Ok;
    }

    method NextNum(ch: char) returns (r: Next)
      requires Valid() && st == NumSt && ty == Incomplete
      modifies this
      ensures Valid() && pos == old(pos)
      ensures Seen(r) == DbReader.NextNum(old(Current()), old(sd.num), ch)
    {
      match sd.num.part
      case IntPart => r := NextNumInt(ch);
      case FracPart => r := NextNumFrac(ch);
      case ExpPart => r := NextNumExp(ch);
    }

    method NextNumInt(ch: char) returns (r: Next)
      requires Valid() && st == NumSt && ty == Incomplete
      modifies this
      ensures Valid() && pos == old(pos)
      ensures Seen(r) == DbReader.NextNumInt(old(Current()), old(sd.num), ch)
    {
      var d := sd.num;
      r := Ok;
      if IsDigit(ch) {
        d := d.(gotInt := true);
        if !(d.pos == 0 && ch == '0') {
          d := d.(num := d.num * 10.0 + DigitValue(ch) as real, pos := d.pos + 1);
        }
        sd := NumberData(d);
      } else if ch == '-' || ch == '+' {
        if d.pos != 0 || d.gotSign {
          return Syntax;
        }
        sd := NumberData(d.(isNegative := ch == '-', gotSign := true));
      } else if ch == '.' {
        if !d.gotInt && d.gotSign {
          return Syntax;
        }
        sd := NumberData(d.(pos := 1, part := FracPart));
      } else if ch == 'e' || ch == 'E' {
        if d.pos == 0 && d.gotSign {
          return Syntax;
        }
        sd := NumberData(StartExp(d));
      } else if IsSeparator(ch) && (d.pos > 0 || !d.gotSign) {
        ty := NumTy;
        r := EndScalar(ch);
      } else {
        r := Syntax;
      }
    }

    method NextNumFrac(ch: char) returns (r: Next)
      requires Valid() && st == NumSt && ty == Incomplete
      modifies this
      ensures Valid() && pos == old(pos)
      ensures Seen(r) == DbReader.NextNumFrac(old(Current()), old(sd.num), ch)
    {
      var d := sd.num;
      r := Ok;
      if IsDigit(ch) {
        sd := NumberData(AddFracDigit(d, ch));
      } else if ch == 'e' || ch == 'E' {
        if d.pos < 2 {
          return Syntax;
        }
        sd := NumberData(StartExp(d));
      } else if IsSeparator(ch) && (d.pos >= 2 || d.gotInt) {
        ty := NumTy;
        r := EndScalar(ch);
      } else {
        r := Syntax;
      }
    }

    method NextNumExp(ch: char) returns (r: Next)
      requires Valid() && st == NumSt && ty == Incomplete
      modifies this
      ensures Valid() && pos == old(pos)
      ensures Seen(r) == DbReader.NextNumExp(old(Current()), old(sd.num), ch)
    {
      var d := sd.num;
      r := Ok;
      if IsDigit(ch) {
        d := d.(gotInt := true);
        if !(d.pos == 0 && ch == '0') {
          d := d.(exp := d.exp * 10 + DigitValue(ch), pos := d.pos + 1);
        }
        sd := NumberData(d);
      } else if ch == '-' || ch == '+' {
        if d.pos != 0 || d.gotSign {
          return Syntax;
        }
        sd := NumberData(d.(expIsNegative := ch == '-', gotSign := true));
      } else if IsSeparator(ch) && d.pos > 0 {
        ty := NumTy;
        r := EndScalar(ch);
      } else {
        r := Syntax;
      }
    }

    /** Return to the idle state; the scanner data stays readable. */
    method GoIdle()
      requires Valid()
      modifies this`st, this`expectColon
      ensures Valid() && st == IdleSt && !expectColon
    {
      st := IdleSt;
      expectColon := false;
    }

    /** Enter a scanning state: reset its data and the flags that go with it. */
    method SetSt(next: St)
      requires Valid() && ty == Incomplete && next != IdleSt
      modifies this, strOut
      ensures Valid() && st == next
      ensures pos == old(pos) && ty == Incomplete
      ensures Current() ==
              match next
              case KeySt => State(InKey(""), false, false, false, false)
              case StrSt => StartValue(old(Current()), InStr("", false))
              case LongSt => StartValue(old(Current()), InLong("", false, true, false))
              case NumSt => StartValue(old(Current()), InNum(NUM_START))
              case BoolSt => StartValue(old(Current()), InBool(""))
    {
      st := next;
      match st
      case KeySt =>
        isInArr, gotKey, expectColon, gotFirstVal := false, false, false, false;
        sd := KeyData(0);
        strOut[0] := '\0';
      case StrSt =>
        gotFirstVal := true;
        sd := StrData(0, false);
        strOut[0] := '\0';
      case LongSt =>
        gotFirstVal := true;
        sd := LongData(0, false, true, false);
        strOut[0] := '\0';
      case NumSt =>
        gotFirstVal := true;
        sd := NumberData(NUM_START);
      case BoolSt =>
        gotFirstVal := true;
        sd := BoolData("");
    }
  }
}
