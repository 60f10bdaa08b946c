/**
 The streaming JSON reader of `src/rjson.c`, one character per call.

 `Core` is the reader's automaton for one character; `Next` wraps it in the
 one-character lookahead that a number needs, because a number only ends at the
 character after it. A panic of the source is the result `Panic`.
 */
module JsonReader {
  import opened Chars
  import opened Decimal
  import opened JsonLevels
  import opened Options

  datatype Res = Syntax | Fin | Ok | Panic

  /** What a client sees through `rjson_cur_ty` and the getters beside it. */
  datatype Event =
    | Str(s: string)
    | Num(v: real)
    | Bool(b: bool)
    | Null
    | ObjStart
    | ObjEnd
    | ArrStart
    | ArrEnd

  datatype NumPart = LeadingZero | IntPart | FracPart | ExpPart

  datatype NumData = NumData(num: real, digitPos: nat, isNeg: bool, exp: int, part: NumPart)

  const NUM_START := NumData(0.0, 0, false, 0, IntPart)

  datatype Word = TrueWord | FalseWord | NullWord

  datatype Mode =
    | Idle
    | WantKey
    | WantColon
    | InStr(buf: string, esc: bool, isKey: bool)
    | InNum(data: NumData)
    | InWord(word: Word, at: nat)

  datatype State = State(
    mode: Mode,
    lvls: seq<Lvl>,
    valExpected: bool,
    cur: Option<Event>,
    buffered: Option<char>,
    pos: nat)

  const INIT := State(Idle, [], true, None, None, 0)

  datatype Result = Result(st: State, res: Res)

  predicate IsNumStart(ch: char) {
    IsDigit(ch) || ch == '-'
  }

  predicate EndsNum(ch: char) {
    IsWhitespace(ch) || ch == '}' || ch == ']' || ch == ','
  }

  function WordText(w: Word): string {
    match w
    case TrueWord => "true"
    case FalseWord => "false"
    case NullWord => "null"
  }

  function WordEvent(w: Word): Event {
    match w
    case TrueWord => Bool(true)
    case FalseWord => Bool(false)
    case NullWord => Null
  }

  /** The word a value starting with `ch` is taken for: the first one containing `ch`. */
  function WordFor(ch: char): Option<Word> {
    if ch in "true" then Some(TrueWord)
    else if ch in "false" then Some(FalseWord)
    else if ch in "null" then Some(NullWord)
    else None
  }

  function Unescape(ch: char): Option<char> {
    match ch
    case '\"' => Some('\"')
    case '\\' => Some('\\')
    case '/' => Some('/')
    case 'b' => Some('\U{8}')
    case 'f' => Some('\U{C}')
    case 'n' => Some('\n')
    case 'r' => Some('\r')
    case 't' => Some('\t')
    case _ => None
  }

  // ----- The automaton -----

  /** Open an object or array, unless the level stack is full. */
  function OpenLvl(s: State, lvl: Lvl): Result {
    if |s.lvls| == MAX_DEPTH then Result(s, Panic)
    else
      Result(s.(lvls := s.lvls + [lvl],
                mode := if lvl == ObjLvl then WantKey else Idle,
                cur := Some(if lvl == ObjLvl then ObjStart else ArrStart),
                valExpected := true),
             Ok)
  }

  function CloseObj(s: State): Result
    requires s.lvls != []
  {
    var lvls := Pop(s.lvls);
    Result(s.(lvls := lvls, mode := Idle, cur := Some(ObjEnd), valExpected := false),
           if lvls == [] then Fin else Ok)
  }

  function NextIdle(mlen: nat, s0: State, ch: char): Result {
    var s := s0.(cur := None);
    if IsWhitespace(ch) then Result(s, Ok)
    else if s.lvls == [] && ch != '{' then Result(s, Syntax)
    else if s.valExpected && WordFor(ch).Some? then
      NextWord(s.(mode := InWord(WordFor(ch).value, 0)), WordFor(ch).value, 0, ch)
    else if s.valExpected && IsNumStart(ch) then
      NextNum(s.(mode := InNum(NUM_START)), NUM_START, ch)
    else match ch
      case '{' => if s.valExpected then OpenLvl(s, ObjLvl) else Result(s, Syntax)
      case '[' => if s.valExpected then OpenLvl(s, ArrLvl) else Result(s, Syntax)
      case '}' =>
        if Top(s.lvls) == Some(ObjLvl) && !s.valExpected then CloseObj(s) else Result(s, Syntax)
      case ']' =>
        if Top(s.lvls) == Some(ArrLvl) && !s.valExpected then
          Result(s.(lvls := Pop(s.lvls), cur := Some(ArrEnd)), Ok)
        else Result(s, Syntax)
      case '\"' =>
        if s.valExpected then Result(s.(mode := InStr("", false, false), valExpected := false), Ok)
        else Result(s, Syntax)
      case ',' =>
        if s.valExpected then Result(s, Syntax)
        else
          Result(s.(valExpected := true, mode := if Top(s.lvls) == Some(ObjLvl) then WantKey else Idle), Ok)
      case _ => Result(s, Syntax)
  }

  function NextWantKey(s: State, ch: char): Result {
    if Top(s.lvls) != Some(ObjLvl) || !s.valExpected then Result(s, Panic)
    else if IsWhitespace(ch) then Result(s, Ok)
    else if ch == '\"' then Result(s.(mode := InStr("", false, true), cur := None), Ok)
    else if ch == '}' then CloseObj(s)
    else Result(s, Syntax)
  }

  function NextWantColon(s: State, ch: char): Result {
    if Top(s.lvls) != Some(ObjLvl) || s.valExpected then Result(s, Panic)
    else if IsWhitespace(ch) then Result(s, Ok)
    else if ch == ':' then Result(s.(mode := Idle, cur := None, valExpected := true), Ok)
    else Result(s, Syntax)
  }

  function NextStr(mlen: nat, s0: State, buf: string, esc: bool, isKey: bool, ch: char): Result {
    var s := s0.(cur := None);
    if isKey && Top(s.lvls) != Some(ObjLvl) then Result(s0, Panic)
    else if IsControl(ch) then Result(s, Syntax)
    else if esc && Unescape(ch).None? then Result(s, Syntax)
    else if !esc && ch == '\\' then Result(s.(mode := InStr(buf, true, isKey)), Ok)
    else if !esc && ch == '\"' then
      Result(s.(mode := if isKey then WantColon else Idle, cur := Some(Str(buf)), valExpected := false),
             if |buf| < mlen then Ok else Syntax)
    else
      var c := if esc then Unescape(ch).value else ch;
      if |buf| < mlen then Result(s.(mode := InStr(buf + [c], false, isKey)), Ok)
      else Result(s.(mode := InStr(buf, false, isKey)), Syntax)
  }

  /** The value a number's data stands for when the number ends. */
  function NumValue(d: NumData): real {
    if d.part == ExpPart then d.num * Pow10(d.exp) else d.num
  }

  /** The number ends: it is reported, and the character that ended it is kept for later. */
  function EndNum(s: State, d: NumData, ch: char): Result {
    if s.buffered.Some? then Result(s, Panic)
    else
      Result(s.(mode := Idle, cur := Some(Num(NumValue(d))), buffered := Some(ch), valExpected := false), Ok)
  }

  function NextNum(s: State, d: NumData, ch: char): Result {
    if !s.valExpected then Result(s, Panic)
    else if EndsNum(ch) then
      if d.digitPos > 0 then EndNum(s, d, ch) else Result(s, Syntax)
    else
      var d' := NumStep(d, ch);
      if d'.Some? then Result(s.(mode := InNum(d'.value)), Ok) else Result(s, Syntax)
  }

  function Signed(isNeg: bool, ch: char): int
    requires IsDigit(ch)
  {
    if isNeg then -(DigitValue(ch) as int) else DigitValue(ch)
  }

  function AddFracDigit(d: NumData, ch: char): NumData
    requires IsDigit(ch)
  {
    d.(num := d.num + Signed(d.isNeg, ch) as real * Pow10(-(d.digitPos as int) - 1), digitPos := d.digitPos + 1)
  }

  /** One more character of a number, if it may come there. */
  function NumStep(d: NumData, ch: char): Option<NumData> {
    if d.part == IntPart && ch == '0' && d.digitPos == 0 then Some(d.(part := LeadingZero))
    else match d.part
      case LeadingZero => if ch == '.' then Some(d.(part := FracPart)) else None
      case IntPart =>
        if ch == '-' then if d.digitPos == 0 then Some(d.(isNeg := true)) else None
        else if ch == '.' then if d.digitPos > 0 then Some(d.(digitPos := 0, part := FracPart)) else None
        else if ch == 'e' || ch == 'E' then
          if d.digitPos > 0 then Some(d.(digitPos := 0, part := ExpPart)) else None
        else if IsDigit(ch) then
          Some(d.(num := d.num * 10.0 + Signed(d.isNeg, ch) as real, digitPos := d.digitPos + 1))
        else None
      case FracPart =>
        if ch == 'e' || ch == 'E' then
          if d.digitPos > 0 then Some(d.(digitPos := 0, isNeg := false, exp := 0, part := ExpPart)) else None
        else if IsDigit(ch) then Some(AddFracDigit(d, ch))
        else None
      case ExpPart =>
        if ch == '+' || ch == '-' then if d.digitPos == 0 then Some(d.(isNeg := ch == '-')) else None
        else if IsDigit(ch) then
          Some(d.(exp := d.exp * 10 + Signed(d.isNeg, ch), digitPos := d.digitPos + 1))
        else None
  }

  function NextWord(s: State, w: Word, at: nat, ch: char): Result {
    if !s.valExpected || at >= |WordText(w)| then Result(s, Panic)
    else if ch != WordText(w)[at] then Result(s, Syntax)
    else if at == |WordText(w)| - 1 then
      Result(s.(mode := Idle, cur := Some(WordEvent(w)), valExpected := false), Ok)
    else Result(s.(mode := InWord(w, at + 1)), Ok)
  }

  /** What one character does to the automaton. */
  function Core(mlen: nat, s: State, ch: char): Result {
    match s.mode
    case Idle => NextIdle(mlen, s, ch)
    case WantKey => NextWantKey(s, ch)
    case WantColon => NextWantColon(s, ch)
    case InStr(buf, esc, isKey) => NextStr(mlen, s, buf, esc, isKey, ch)
    case InNum(d) => NextNum(s, d, ch)
    case InWord(w, at) => NextWord(s, w, at, ch)
  }

  // ----- The lookahead -----

  /** One character put through the automaton; `behind` if it came from the lookahead. */
  function Handle(mlen: nat, s: State, ch: char, behind: bool): Result {
    if ch == '\0' then Result(s, if s.lvls == [] then Fin else Syntax)
    else
      var x := Core(mlen, s, ch);
      if (behind || x.st.buffered.None?) && x.res != Syntax then x.(st := x.st.(pos := x.st.pos + 1)) else x
  }

  /** Should the lookahead be put through as well, because there is nothing to report yet? */
  predicate CatchesUp(x: Result) {
    x.st.buffered.Some? && x.res == Ok && x.st.cur.None?
  }

  /** What one call of `rjson_next` does. */
  function Next(mlen: nat, s: State, ch: char): Result {
    var behind := s.buffered.Some?;
    var x :=
      if behind then Handle(mlen, s.(buffered := Some(ch)), s.buffered.value, true)
      else Handle(mlen, s, ch, false);
    if behind && s.buffered.value == '\0' then x
    else if !behind && ch == '\0' then x
    else if CatchesUp(x) then Handle(mlen, x.st.(buffered := None), x.st.buffered.value, false)
    else if x.st.buffered == Some('\0') && x.res == Ok && x.st.lvls != [] then x.(res := Syntax)
    else x
  }

  // ----- Feeding whole texts -----

  /** Where a client stands after some calls: the events it has seen and the last answer. */
  datatype Outcome = Outcome(st: State, events: seq<Event>, res: Res, calls: nat)

  function Delivered(e: Option<Event>): seq<Event> {
    if e.Some? then [e.value] else []
  }

  /** The events a client takes from one answer. */
  function Seen(x: Result): seq<Event> {
    if x.res == Ok || x.res == Fin then Delivered(x.st.cur) else []
  }

  /** Call after call until the text ends or an answer is not `Ok`. */
  function Feed(mlen: nat, s: State, text: string): Outcome
    decreases |text|
  {
    if text == [] then Outcome(s, [], Ok, 0)
    else
      var x := Next(mlen, s, text[0]);
      if x.res != Ok then Outcome(x.st, Seen(x), x.res, 1)
      else
        var rest := Feed(mlen, x.st, text[1..]);
        rest.(events := Seen(x) + rest.events, calls := rest.calls + 1)
  }

  lemma {:induction false} FeedSnoc(mlen: nat, s: State, text: string, ch: char)
    ensures
      var o := Feed(mlen, s, text);
      Feed(mlen, s, text + [ch]) ==
      if o.res != Ok then o
      else
        var x := Next(mlen, o.st, ch);
        Outcome(x.st, o.events + Seen(x), x.res, o.calls + 1)
    decreases |text|
  {
    hide Next, Seen;
    if text == [] {
      assert text + [ch] == [ch] && [ch][1..] == [];
      var x := Next(mlen, s, ch);
      assert [] + Seen(x) == Seen(x) == Seen(x) + [];
    } else {
      assert (text + [ch])[1..] == text[1..] + [ch];
      var x := Next(mlen, s, text[0]);
      if x.res == Ok {
        FeedSnoc(mlen, x.st, text[1..], ch);
        var o := Feed(mlen, x.st, text[1..]);
        if o.res == Ok {
          var y := Next(mlen, o.st, ch);
          assert Seen(x) + (o.events + Seen(y)) == Seen(x) + o.events + Seen(y);
        }
      }
    }
  }
}
