/**
 The key/value text writer of `src/wdb.c`.

 `Step` says what one writer call does to the text produced so far; the class
 `Writer` performs the same calls character by character in a fixed buffer,
 with explicit rollback, and is proved against it.
 */
module DbWriter {
  import opened Chars
  import opened Decimal

  datatype Res = Ok | Syntax | Overflow

  /** The C type `long`. */
  type Long = n: int | -0x8000_0000_0000_0000 <= n < 0x8000_0000_0000_0000

  datatype Call =
    | Key(v: string)
    | Str(v: string)
    | LongStr(v: string)
    | Int(n: Long)
    | Bool(b: bool)
    | Fin

  /** The text written so far and the two flags that order keys and values. */
  datatype State = State(text: string, gotKey: bool, isFirstVal: bool)

  const INIT := State("", false, false)

  predicate IsKeyText(v: string) {
    forall i | 0 <= i < |v| :: IsKeyChar(v[i])
  }

  /** Can `c` be written inside a string? */
  predicate Writable(c: char) {
    !IsControl(c) || c == '\t' || c == '\n' || c == '\r'
  }

  predicate AllWritable(v: string) {
    forall i | 0 <= i < |v| :: Writable(v[i])
  }

  /** The characters a single character becomes in a quoted or, if `long`, an angle-bracketed string. */
  function EncodeChar(long: bool, c: char): (e: string)
    ensures 1 <= |e| <= 2
  {
    if c == '\r' then "\\r"
    else if long then
      if c == '<' || c == '>' then ['\\', c] else [c]
    else
      if c == '\"' then "\\\"" else if c == '\n' then "\\n" else [c]
  }

  /** The encoding of the longest writable prefix of `v`. */
  function Encode(long: bool, v: string): string {
    if v == [] || !Writable(v[0]) then ""
    else EncodeChar(long, v[0]) + Encode(long, v[1..])
  }

  function Open(long: bool): string {
    if long then "<\n" else "\""
  }

  function Close(long: bool): string {
    if long then "\n>" else "\""
  }

  /** Everything a string call tries to append before it stops. */
  function Quoted(long: bool, v: string): string {
    Open(long) + Encode(long, v) + if AllWritable(v) then Close(long) else ""
  }

  function BoolText(b: bool): string {
    if b then "true" else "false"
  }

  function Separator(s: State): string {
    if s.isFirstVal then "" else ", "
  }

  function LineBreak(s: State): string {
    if s.gotKey then "\n" else ""
  }

  /** A value call: `body` is what it appends and `complete` whether it reaches its end. */
  function ValueStep(mlen: nat, s: State, body: string, complete: bool): (State, Res) {
    if !s.gotKey then (s, Syntax)
    else
      var s1 := s.(isFirstVal := false);
      var piece := Separator(s) + body;
      if |s.text| + |piece| > mlen then (s1, Overflow)
      else if !complete then (s1, Syntax)
      else (s1.(text := s.text + piece), Ok)
  }

  function KeyStep(mlen: nat, s: State, v: string): (State, Res) {
    var piece := LineBreak(s) + v + ": ";
    if s.gotKey && s.isFirstVal then (s, Syntax)
    else if |s.text| + |LineBreak(s)| > mlen then (s, Overflow)
    else if !IsKeyText(v) then (s, Syntax)
    else if |s.text| + |piece| > mlen then (s, Overflow)
    else (State(s.text + piece, true, true), Ok)
  }

  function FinStep(mlen: nat, s: State): (State, Res) {
    if s.gotKey && s.isFirstVal then (s, Syntax)
    else if |s.text| + 2 > mlen then (s, Overflow)
    else (s.(text := s.text + "\n\0"), Ok)
  }

  /** What one writer call with a buffer of `mlen` characters does. */
  function Step(mlen: nat, s: State, c: Call): (State, Res) {
    match c
    case Key(v) => KeyStep(mlen, s, v)
    case Str(v) => ValueStep(mlen, s, Quoted(false, v), AllWritable(v))
    case LongStr(v) => ValueStep(mlen, s, Quoted(true, v), AllWritable(v))
    case Int(n) => ValueStep(mlen, s, OfInt(n), true)
    case Bool(b) => ValueStep(mlen, s, BoolText(b), true)
    case Fin => FinStep(mlen, s)
  }

  /** The state after a sequence of calls, whatever each of them returned. */
  function Run(mlen: nat, calls: seq<Call>): State {
    if calls == [] then INIT
    else Step(mlen, Run(mlen, calls[..|calls| - 1]), calls[|calls| - 1]).0
  }

  /** The result of the last of a non-empty sequence of calls. */
  function LastResult(mlen: nat, calls: seq<Call>): Res
    requires calls != []
  {
    Step(mlen, Run(mlen, calls[..|calls| - 1]), calls[|calls| - 1]).1
  }

  /** The text a successful call appends: its own encoding, with its separator. */
  function Appended(s: State, c: Call): string {
    match c
    case Key(v) => LineBreak(s) + v + ": "
    case Str(v) => Separator(s) + Quoted(false, v)
    case LongStr(v) => Separator(s) + Quoted(true, v)
    case Int(n) => Separator(s) + OfInt(n)
    case Bool(b) => Separator(s) + BoolText(b)
    case Fin => "\n\0"
  }

  /** Is the call legal here, were the buffer unbounded? */
  predicate Legal(s: State, c: Call) {
    match c
    case Key(v) => !(s.gotKey && s.isFirstVal) && IsKeyText(v)
    case Str(v) => s.gotKey && AllWritable(v)
    case LongStr(v) => s.gotKey && AllWritable(v)
    case Int(_) => s.gotKey
    case Bool(_) => s.gotKey
    case Fin => !(s.gotKey && s.isFirstVal)
  }

  /**
   Rollback, over every run: a call succeeds exactly if it is legal and its
   text fits; then the text grows by exactly that call's encoding and separator,
   and otherwise the text is what it was.
   */
  lemma {:induction false} CallAppendsOrRollsBack(mlen: nat, calls: seq<Call>)
    requires calls != []
    ensures
      var s := Run(mlen, calls[..|calls| - 1]);
      var c := calls[|calls| - 1];
      && |Run(mlen, calls).text| <= mlen
      && (LastResult(mlen, calls) == Ok <==> Legal(s, c) && |s.text| + |Appended(s, c)| <= mlen)
      && Run(mlen, calls).text == s.text + (if LastResult(mlen, calls) == Ok then Appended(s, c) else "")
  {
    if |calls| > 1 {
      CallAppendsOrRollsBack(mlen, calls[..|calls| - 1]);
    }
    StepAppendsOrRollsBack(mlen, Run(mlen, calls[..|calls| - 1]), calls[|calls| - 1]);
  }

  lemma StepAppendsOrRollsBack(mlen: nat, s: State, c: Call)
    requires |s.text| <= mlen
    ensures
      var (s', r) := Step(mlen, s, c);
      && (r == Ok <==> Legal(s, c) && |s.text| + |Appended(s, c)| <= mlen)
      && s'.text == s.text + (if r == Ok then Appended(s, c) else "")
  {
    assert s.text + "" == s.text;
  }

  /** Encoding is done one character at a time. */
  lemma {:induction false} EncodeSnoc(long: bool, v: string, i: nat)
    requires i < |v| && AllWritable(v[..i])
    ensures Writable(v[i]) ==> Encode(long, v[..i + 1]) == Encode(long, v[..i]) + EncodeChar(long, v[i])
    ensures Writable(v[i]) ==> |Encode(long, v)| >= |Encode(long, v[..i])| + |EncodeChar(long, v[i])|
    ensures !Writable(v[i]) ==> Encode(long, v) == Encode(long, v[..i])
  {
    hide EncodeChar, Writable;
    if i == 0 {
      assert v[..1][1..] == "" && Encode(long, "") == "" && v[..0] == "";
      assert EncodeChar(long, v[0]) + "" == EncodeChar(long, v[0]) == "" + EncodeChar(long, v[0]);
    } else {
      EncodeSnoc(long, v[1..], i - 1);
      assert v[1..][..i - 1] == v[..i][1..];
      assert v[1..][..i] == v[..i + 1][1..];
      assert Writable(v[..i][0]);
      var e, t := EncodeChar(long, v[0]), Encode(long, v[1..][..i - 1]);
      assert e + (t + EncodeChar(long, v[i])) == e + t + EncodeChar(long, v[i]);
    }
  }

  /** Every `long` fits the 50-character buffer that it is printed into. */
  lemma LongFitsBuffer(n: Long)
    ensures |OfInt(n)| < 50
  {
    assert TenTo(5) == 100000;
    assert TenTo(10) == 100000 * 100000;
    assert TenTo(15) == 100000 * 100000 * 100000;
    assert TenTo(20) == 100000 * 100000 * 100000 * 100000;
    var m: int := n;
    OfNatLength(if m < 0 then -m else m, 20);
  }

  /** The writer object: a fixed output buffer filled in place. */
  class Writer {
    const out: array<char>
    var len: nat
    var gotKey: bool
    var isFirstVal: bool

    ghost predicate Valid()
      reads this
    {
      len <= out.Length
    }

    ghost function Current(): State
      requires Valid()
      reads this, out
    {
      State(out[..len], gotKey, isFirstVal)
    }

    constructor (out: array<char>)
      modifies out
      ensures this.out == out
      ensures Valid() && Current() == INIT
    {
      this.out := out;
      len, gotKey, isFirstVal := 0, false, false;
      new;
      if out.Length > 0 {
        out[0] := '\0';
      }
    }

    method AddCh(ch: char) returns (r: Res)
      requires Valid()
      modifies this`len, out
      ensures Valid() && old(len) <= len
      ensures r == if old(len) < out.Length then Ok else Overflow
      ensures r == Ok ==> out[..len] == old(out[..len]) + [ch]
      ensures forall i | 0 <= i < old(len) :: out[i] == old(out[i])
    {
      if len < out.Length {
        out[len] := ch;
        len := len + 1;
        r := Ok;
      } else {
        r := Overflow;
      }
    }

    method AddLiteral(str: string) returns (r: Res)
      requires Valid()
      modifies this`len, out
      ensures Valid() && old(len) <= len
      ensures r == if old(len) + |str| <= out.Length then Ok else Overflow
      ensures r == Ok ==> out[..len] == old(out[..len]) + str
      ensures forall i | 0 <= i < old(len) :: out[i] == old(out[i])
    {
      for i := 0 to |str|
        invariant Valid() && len == old(len) + i
        invariant out[..len] == old(out[..len]) + str[..i]
        invariant forall k | 0 <= k < old(len) :: out[k] == old(out[k])
      {
        r := AddCh(str[i]);
        if r != Ok {
          return r;
        }
      }
      r := Ok;
    }

    method MaybeArr() returns (r: Res)
      requires Valid()
      modifies this`len, out
      ensures Valid() && old(len) <= len
      ensures r == if old(len) + |Separator(old(Current()))| <= out.Length then Ok else Overflow
      ensures r == Ok ==> out[..len] == old(out[..len]) + Separator(old(Current()))
      ensures forall i | 0 <= i < old(len) :: out[i] == old(out[i])
    {
      if !isFirstVal {
        r := AddLiteral(", ");
      } else {
        r := Ok;
      }
    }

    method AddKey(v: string) returns (r: Res)
      requires Valid()
      modifies this, out
      ensures Valid()
      ensures (Current(), r) == Step(out.Length, old(Current()), Key(v))
    {
      var lastLen := len;
      if !gotKey || !isFirstVal {
        if gotKey {
          r := AddCh('\n');
          if r != Ok {
            len := lastLen;
            assert out[..len] == old(out[..len]);
            return;
          }
        }
        ghost var withLine := out[..len];
        for i := 0 to |v|
          invariant Valid() && out[..len] == withLine && IsKeyText(v[..i])
          invariant len >= lastLen && forall k | 0 <= k < lastLen :: out[k] == old(out[k])
          invariant gotKey == old(gotKey) && isFirstVal == old(isFirstVal)
        {
          if !IsKeyChar(v[i]) {
            len := lastLen;
            assert out[..len] == old(out[..len]);
            return Syntax;
          }
        }
        r := AddLiteral(v);
        if r != Ok {
          len := lastLen;
          assert out[..len] == old(out[..len]);
          return;
        }
        r := AddLiteral(": ");
        if r != Ok {
          len := lastLen;
          assert out[..len] == old(out[..len]);
          return;
        }
        gotKey := true;
        isFirstVal := true;
        assert out[..len] == old(out[..len]) + (LineBreak(old(Current())) + v + ": ");
      } else {
        r := Syntax;
      }
    }

    /** The string between its delimiters; the loop of `wdb_str` and `wdb_long_str`. */
    method AddEscaped(long: bool, v: string) returns (r: Res)
      requires Valid()
      modifies this`len, out
      ensures Valid() && old(len) <= len
      ensures r == if old(len) + |Encode(long, v)| > out.Length then Overflow
                   else if AllWritable(v) then Ok else Syntax
      ensures r == Ok ==> out[..len] == old(out[..len]) + Encode(long, v)
      ensures forall i | 0 <= i < old(len) :: out[i] == old(out[i])
    {
      for i := 0 to |v|
        invariant Valid() && len >= old(len) && forall k | 0 <= k < old(len) :: out[k] == old(out[k])
        invariant AllWritable(v[..i]) && out[..len] == old(out[..len]) + Encode(long, v[..i])
        invariant |Encode(long, v[..i])| <= |Encode(long, v)|
      {
        EncodeSnoc(long, v, i);
        if !Writable(v[i]) {
          return Syntax;
        }
        r := AddLiteral(EncodeChar(long, v[i]));
        if r != Ok {
          return;
        }
      }
      assert v[..|v|] == v;
      r := Ok;
    }

    /** The delimited string, without a separator and without rollback. */
    method AddQuoted(long: bool, v: string) returns (r: Res)
      requires Valid()
      modifies this`len, out
      ensures Valid() && old(len) <= len
      ensures r == if old(len) + |Quoted(long, v)| > out.Length then Overflow
                   else if AllWritable(v) then Ok else Syntax
      ensures r == Ok ==> out[..len] == old(out[..len]) + Quoted(long, v)
      ensures forall i | 0 <= i < old(len) :: out[i] == old(out[i])
    {
      r := AddLiteral(Open(long));
      if r == Ok {
        r := AddEscaped(long, v);
      }
      if r == Ok {
        r := AddLiteral(Close(long));
      }
    }

    /** `wdb_str`, or `wdb_long_str` if `long`. */
    method AddString(long: bool, v: string) returns (r: Res)
      requires Valid()
      modifies this, out
      ensures Valid()
      ensures (Current(), r) == ValueStep(out.Length, old(Current()), Quoted(long, v), AllWritable(v))
    {
      var lastLen := len;
      if !gotKey {
        return Syntax;
      }
      r := MaybeArr();
      if r != Ok {
        len := lastLen;
        assert out[..len] == old(out[..len]);
        return;
      }
      isFirstVal := false;
      r := AddQuoted(long, v);
      if r != Ok {
        len := lastLen;
        assert out[..len] == old(out[..len]);
      } else {
        assert out[..len] == old(out[..len]) + (Separator(old(Current())) + Quoted(long, v));
      }
    }

    /** A value whose text is known beforehand: `wdb_int` and `wdb_bool`. */
    method AddPlain(body: string) returns (r: Res)
      requires Valid()
      modifies this, out
      ensures Valid()
      ensures (Current(), r) == ValueStep(out.Length, old(Current()), body, true)
    {
      var lastLen := len;
      if !gotKey {
        return Syntax;
      }
      r := MaybeArr();
      if r != Ok {
        len := lastLen;
        assert out[..len] == old(out[..len]);
        return;
      }
      isFirstVal := false;
      r := AddLiteral(body);
      if r != Ok {
        len := lastLen;
        assert out[..len] == old(out[..len]);
      } else {
        assert out[..len] == old(out[..len]) + (Separator(old(Current())) + body);
      }
    }

    method Finish() returns (r: Res)
      requires Valid()
      modifies this, out
      ensures Valid()
      ensures (Current(), r) == Step(out.Length, old(Current()), Fin)
    {
      var lastLen := len;
      if gotKey && isFirstVal {
        return Syntax;
      }
      r := AddCh('\n');
      if r != Ok {
        len := lastLen;
        assert out[..len] == old(out[..len]);
        return;
      }
      r := AddCh('\0');
      if r != Ok {
        len := lastLen;
        assert out[..len] == old(out[..len]);
      } else {
        assert out[..len] == old(out[..len]) + "\n\0";
      }
    }
  }
}
