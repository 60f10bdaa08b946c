/**
 The streaming key/value reader of `src/rdb.c`.

 `Step` says what one character does to the reader's state and which token it
 completes; the class `Reader` does the same in place, decoding into a fixed
 string buffer, and is proved against it.
 */
module DbReader {
  import opened Chars
  import opened CStrings
  import opened Decimal
  import opened Options

  datatype Next = Syntax | Fin | Ok

  datatype Token =
    | Key(s: string)
    | Str(s: string)
    | Num(data: NumData)
    | Bool(b: bool)

  datatype NumPart = IntPart | FracPart | ExpPart

  /** The number scanner's working data. */
  datatype NumData = NumData(
    isNegative: bool,
    gotSign: bool,
    gotInt: bool,
    num: real,
    expIsNegative: bool,
    exp: nat,
    pos: nat,
    part: NumPart)

  const NUM_START := NumData(false, false, false, 0.0, false, 0, 0, IntPart)

  /** What the reader is in the middle of, with the characters decoded so far. */
  datatype Mode =
    | Idle
    | InKey(buf: string)
    | InStr(buf: string, esc: bool)
    | InLong(buf: string, esc: bool, skip: bool, keep: bool)
    | InNum(data: NumData)
    | InBool(word: string)

  datatype State = State(
    mode: Mode,
    isInArr: bool,
    gotKey: bool,
    expectColon: bool,
    gotFirstVal: bool)

  const INIT := State(Idle, false, false, false, false)

  datatype Result = Result(next: State, r: Next, tok: Option<Token>)

  const MAX_WORD := 6

  predicate IsSeparator(ch: char) {
    ch == ' ' || ch == '\t' || ch == ',' || ch == '\n' || ch == '\0'
  }

  function Unescape(ch: char): char {
    match ch
    case 'n' => '\n'
    case 'r' => '\r'
    case 't' => '\t'
    case _ => ch
  }

  /** What `rdb_cur_num` computes from the scanner's data. */
  function NumValue(d: NumData): real {
    var exponent: int := if d.expIsNegative then -(d.exp as int) else d.exp as int;
    (if d.isNegative then -1.0 else 1.0) * (d.num * Pow10(exponent))
  }

  /** `strncmp` of the collected word against "true" or "false", over the word's own length. */
  predicate IsBoolWord(word: string) {
    word <= "true" || word <= "false"
  }

  predicate ValExpected(s: State) {
    s.gotKey && (s.isInArr || !s.gotFirstVal) && !s.expectColon
  }

  function Plain(s: State, r: Next): Result {
    Result(s, r, None)
  }

  /** A quoted or angle-bracketed string has been closed. */
  function EndString(s: State, text: string): Result {
    Result(s.(mode := Idle, expectColon := false, gotKey := true, gotFirstVal := true), Ok, Some(Str(text)))
  }

  /** A number or boolean has been ended by the separator `ch`. */
  function EndScalar(ch: char, tok: Token): Result {
    Result(
      State(Idle, ch == ',', ch != '\n', false, true),
      if ch == '\0' then Fin else Ok,
      Some(tok))
  }

  function StartValue(s: State, mode: Mode): State {
    s.(mode := mode, gotFirstVal := true)
  }

  function NextIdle(mlen: nat, s: State, ch: char): Result {
    if IsDigit(ch) || ch == '-' || ch == '+' || ch == '.' then
      if ValExpected(s) then NextNum(StartValue(s, InNum(NUM_START)), NUM_START, ch)
      else Plain(s, Syntax)
    else if ch == ':' then
      if s.expectColon then Plain(s.(expectColon := false), Ok) else Plain(s, Syntax)
    else if ch == '\"' then
      if ValExpected(s) then Plain(StartValue(s, InStr("", false)), Ok) else Plain(s, Syntax)
    else if ch == '<' then
      if ValExpected(s) then Plain(StartValue(s, InLong("", false, true, false)), Ok) else Plain(s, Syntax)
    else if ch == ',' then
      Plain(s.(isInArr := true), Ok)
    else if ch == '\n' || ch == '\0' then
      Plain(s.(isInArr := false, gotKey := false, gotFirstVal := false), if ch == '\0' then Fin else Ok)
    else if ch == ' ' || ch == '\t' then
      Plain(s, Ok)
    else if !s.gotKey then
      NextKey(mlen, State(InKey(""), false, false, false, false), "", ch)
    else if ValExpected(s) then
      NextBool(StartValue(s, InBool("")), "", ch)
    else
      Plain(s, Syntax)
  }

  function NextKey(mlen: nat, s: State, buf: string, ch: char): Result {
    if ch == ':' || ch == ' ' || ch == '\t' then
      if 0 < |buf| < mlen then Result(State(Idle, false, true, ch != ':', false), Ok, Some(Key(buf)))
      else Plain(s, Syntax)
    else if !IsKeyChar(ch) || |buf| >= mlen then Plain(s, Syntax)
    else Plain(s.(mode := InKey(buf + [ch])), Ok)
  }

  function NextStr(mlen: nat, s: State, buf: string, esc: bool, ch: char): Result {
    if IsControl(ch) && ch != '\t' then Plain(s, Syntax)
    else if !esc && ch == '\"' then
      if |buf| < mlen then EndString(s, buf) else Plain(s, Syntax)
    else if !esc && ch == '\\' then
      Plain(s.(mode := InStr(buf, true)), Ok)
    else if |buf| >= mlen then
      Plain(s.(mode := InStr(buf, false)), Syntax)
    else
      Plain(s.(mode := InStr(buf + [if esc then Unescape(ch) else ch], false)), Ok)
  }

  function CloseLong(mlen: nat, s: State, buf: string, keep: bool): Result {
    var text := if buf != [] && buf[|buf| - 1] == '\n' && !keep then buf[..|buf| - 1] else buf;
    if |text| < mlen then EndString(s, text) else Plain(s, Syntax)
  }

  function NextLong(mlen: nat, s: State, buf: string, esc: bool, skip: bool, keep: bool, ch: char): Result {
    if IsControl(ch) && ch != '\t' && ch != '\n' then Plain(s, Syntax)
    else if !esc && ch == '>' then
      CloseLong(mlen, s, buf, keep)
    else if !esc && ch == '\\' then
      Plain(s.(mode := InLong(buf, true, false, keep)), Ok)
    else if !esc && skip && (ch == ' ' || ch == '\t' || ch == '\n') then
      Plain(s.(mode := InLong(buf, false, ch != '\n', true)), Ok)
    else
      var c := if esc then Unescape(ch) else ch;
      var kept := esc && c == '\n';
      if |buf| >= mlen then Plain(s.(mode := InLong(buf, false, skip, kept)), Syntax)
      else Plain(s.(mode := InLong(buf + [c], false, false, kept)), Ok)
  }

  function NextBool(s: State, word: string, ch: char): Result {
    if IsSeparator(ch) then
      if IsBoolWord(word) then EndScalar(ch, Bool(word <= "true")) else Plain(s, Syntax)
    else if |word| < MAX_WORD then Plain(s.(mode := InBool(word + [ch])), Ok)
    else Plain(s, Syntax)
  }

  function NextNum(s: State, d: NumData, ch: char): Result {
    match d.part
    case IntPart => NextNumInt(s, d, ch)
    case FracPart => NextNumFrac(s, d, ch)
    case ExpPart => NextNumExp(s, d, ch)
  }

  function Keep(s: State, d: NumData): Result {
    Plain(s.(mode := InNum(d)), Ok)
  }

  function StartExp(d: NumData): NumData {
    d.(pos := 0, exp := 0, expIsNegative := false, gotSign := false, gotInt := false, part := ExpPart)
  }

  function AddFracDigit(d: NumData, ch: char): NumData
    requires IsDigit(ch)
  {
    d.(num := d.num + DigitValue(ch) as real * Pow10(-(d.pos as int)), pos := d.pos + 1)
  }

  function NextNumInt(s: State, d: NumData, ch: char): Result {
    if IsDigit(ch) then
      if d.pos == 0 && ch == '0' then Keep(s, d.(gotInt := true))
      else Keep(s, d.(gotInt := true, num := d.num * 10.0 + DigitValue(ch) as real, pos := d.pos + 1))
    else if ch == '-' || ch == '+' then
      if d.pos == 0 && !d.gotSign then Keep(s, d.(isNegative := ch == '-', gotSign := true)) else Plain(s, Syntax)
    else if ch == '.' then
      if d.gotInt || !d.gotSign then Keep(s, d.(pos := 1, part := FracPart)) else Plain(s, Syntax)
    else if ch == 'e' || ch == 'E' then
      if d.pos > 0 || !d.gotSign then Keep(s, StartExp(d)) else Plain(s, Syntax)
    else if IsSeparator(ch) && (d.pos > 0 || !d.gotSign) then EndScalar(ch, Num(d))
    else Plain(s, Syntax)
  }

  function NextNumFrac(s: State, d: NumData, ch: char): Result {
    if IsDigit(ch) then
      Keep(s, AddFracDigit(d, ch))
    else if ch == 'e' || ch == 'E' then
      if d.pos >= 2 then Keep(s, StartExp(d)) else Plain(s, Syntax)
    else if IsSeparator(ch) && (d.pos >= 2 || d.gotInt) then EndScalar(ch, Num(d))
    else Plain(s, Syntax)
  }

  function NextNumExp(s: State, d: NumData, ch: char): Result {
    if IsDigit(ch) then
      if d.pos == 0 && ch == '0' then Keep(s, d.(gotInt := true))
      else Keep(s, d.(gotInt := true, exp := d.exp * 10 + DigitValue(ch), pos := d.pos + 1))
    else if ch == '-' || ch == '+' then
      if d.pos == 0 && !d.gotSign then Keep(s, d.(expIsNegative := ch == '-', gotSign := true)) else Plain(s, Syntax)
    else if IsSeparator(ch) && d.pos > 0 then EndScalar(ch, Num(d))
    else Plain(s, Syntax)
  }

  /** What one character does, with a string buffer of `mlen` characters. */
  function Step(mlen: nat, s: State, ch: char): Result {
    match s.mode
    case Idle => NextIdle(mlen, s, ch)
    case InKey(buf) => NextKey(mlen, s, buf, ch)
    case InStr(buf, esc) => NextStr(mlen, s, buf, esc, ch)
    case InLong(buf, esc, skip, keep) => NextLong(mlen, s, buf, esc, skip, keep, ch)
    case InNum(d) => NextNum(s, d, ch)
    case InBool(word) => NextBool(s, word, ch)
  }

  // ----- Feeding whole texts -----

  datatype Outcome = Outcome(st: State, toks: seq<Token>, r: Next)

  function Delivered(t: Option<Token>): seq<Token> {
    if t.Some? then [t.value] else []
  }

  /** Feed characters until the text ends or one of them is not answered with `Ok`. */
  function Feed(mlen: nat, s: State, text: string): Outcome
    decreases |text|
  {
    if text == [] then Outcome(s, [], Ok)
    else
      var x := Step(mlen, s, text[0]);
      if x.r != Ok then Outcome(x.next, Delivered(x.tok), x.r)
      else
        var rest := Feed(mlen, x.next, text[1..]);
        rest.(toks := Delivered(x.tok) + rest.toks)
  }

  lemma {:induction false} FeedConcat(mlen: nat, s: State, a: string, b: string)
    ensures
      var x := Feed(mlen, s, a);
      Feed(mlen, s, a + b) ==
      if x.r != Ok then x
      else var y := Feed(mlen, x.st, b); y.(toks := x.toks + y.toks)
    decreases |a|
  {
    if a == [] {
      assert a + b == b;
    } else {
      assert (a + b)[1..] == a[1..] + b;
      var x := Step(mlen, s, a[0]);
      if x.r == Ok {
        FeedConcat(mlen, x.next, a[1..], b);
        var y := Feed(mlen, x.next, a[1..]);
        if y.r == Ok {
          var z := Feed(mlen, y.st, b);
          assert Delivered(x.tok) + (y.toks + z.toks) == Delivered(x.tok) + y.toks + z.toks;
        }
      }
    }
  }

  // ----- Exact C strings -----

  /** The characters decoded so far fit the buffer and hold no NUL. */
  predicate Sound(mlen: nat, s: State) {
    match s.mode
    case InKey(buf) => |buf| <= mlen && NoNul(buf)
    case InStr(buf, _) => |buf| <= mlen && NoNul(buf)
    case InLong(buf, _, _, _) => |buf| <= mlen && NoNul(buf)
    case InBool(word) => |word| <= MAX_WORD
    case _ => true
  }

  predicate SoundToken(mlen: nat, t: Token) {
    (t.Key? || t.Str?) ==> NoNul(t.s) && |t.s| < mlen
  }

  predicate SoundResult(mlen: nat, x: Result) {
    Sound(mlen, x.next) && (x.tok.Some? ==> SoundToken(mlen, x.tok.value))
  }

  lemma NextKeyKeepsSound(mlen: nat, s: State, buf: string, ch: char)
    requires Sound(mlen, s) && s.mode == InKey(buf)
    ensures SoundResult(mlen, NextKey(mlen, s, buf, ch))
  {
  }

  lemma NextStrKeepsSound(mlen: nat, s: State, buf: string, esc: bool, ch: char)
    requires Sound(mlen, s) && s.mode == InStr(buf, esc)
    ensures SoundResult(mlen, NextStr(mlen, s, buf, esc, ch))
  {
  }

  lemma NextLongKeepsSound(mlen: nat, s: State, buf: string, esc: bool, skip: bool, keep: bool, ch: char)
    requires Sound(mlen, s) && s.mode == InLong(buf, esc, skip, keep)
    ensures SoundResult(mlen, NextLong(mlen, s, buf, esc, skip, keep, ch))
  {
  }

  lemma NextNumKeepsSound(mlen: nat, s: State, d: NumData, ch: char)
    requires s.mode == InNum(d)
    ensures SoundResult(mlen, NextNum(s, d, ch))
  {
    NextNumShape(s, d, ch);
  }

  predicate NumShape(d: NumData, x: Result) {
    (x.next.mode.InNum? || x.next.mode.Idle?) && (x.tok.Some? ==> x.tok.value == Num(d))
  }

  lemma NumIntShape(s: State, d: NumData, ch: char)
    requires s.mode == InNum(d)
    ensures NumShape(d, NextNumInt(s, d, ch))
  {
    hide Pow10;
  }

  lemma NumFracShape(s: State, d: NumData, ch: char)
    requires s.mode == InNum(d)
    ensures NumShape(d, NextNumFrac(s, d, ch))
  {
    hide Pow10;
  }

  lemma NumExpShape(s: State, d: NumData, ch: char)
    requires s.mode == InNum(d)
    ensures NumShape(d, NextNumExp(s, d, ch))
  {
    hide Pow10;
  }

  /** The number scanner stays in its state or ends with a number. */
  lemma NextNumShape(s: State, d: NumData, ch: char)
    requires s.mode == InNum(d)
    ensures NumShape(d, NextNum(s, d, ch))
  {
    hide NextNumInt, NextNumFrac, NextNumExp;
    NumIntShape(s, d, ch);
    NumFracShape(s, d, ch);
    NumExpShape(s, d, ch);
  }

  lemma IdleKeepsSound(mlen: nat, s: State, ch: char)
    requires Sound(mlen, s) && s.mode == Idle
    ensures SoundResult(mlen, NextIdle(mlen, s, ch))
  {
    hide NextNum, NextKey;
    NextNumKeepsSound(mlen, StartValue(s, InNum(NUM_START)), NUM_START, ch);
    NextKeyKeepsSound(mlen, State(InKey(""), false, false, false, false), "", ch);
  }

  lemma StepKeepsSound(mlen: nat, s: State, ch: char)
    requires Sound(mlen, s)
    ensures SoundResult(mlen, Step(mlen, s, ch))
  {
    hide NextIdle, NextNum, NextKey, NextStr, NextLong;
    match s.mode
    case Idle => IdleKeepsSound(mlen, s, ch);
    case InKey(buf) => NextKeyKeepsSound(mlen, s, buf, ch);
    case InStr(buf, esc) => NextStrKeepsSound(mlen, s, buf, esc, ch);
    case InLong(buf, esc, skip, keep) => NextLongKeepsSound(mlen, s, buf, esc, skip, keep, ch);
    case InNum(d) => NextNumKeepsSound(mlen, s, d, ch);
    case InBool(word) =>
  }

  /** The state reached and the tokens delivered by a run that goes on after errors too. */
  function RunAll(mlen: nat, text: string): (State, seq<Token>) {
    if text == [] then (INIT, [])
    else
      var (s, toks) := RunAll(mlen, text[..|text| - 1]);
      var x := Step(mlen, s, text[|text| - 1]);
      (x.next, toks + Delivered(x.tok))
  }

  /**
   Over any characters at all, errors included: what is decoded always fits the
   buffer, and every key or string reported has no NUL inside and room for the
   NUL after it.
   */
  lemma {:induction false} TokensAreCStrings(mlen: nat, text: string)
    ensures Sound(mlen, RunAll(mlen, text).0)
    ensures forall t | t in RunAll(mlen, text).1 :: SoundToken(mlen, t)
  {
    if text != [] {
      TokensAreCStrings(mlen, text[..|text| - 1]);
      StepKeepsSound(mlen, RunAll(mlen, text[..|text| - 1]).0, text[|text| - 1]);
    }
  }
}
