/**
 Whole runs of the JSON reader: what every call keeps, why none of the source's
 panics but the depth limit can be reached, and what the level stack means.
 */
module JsonReaderRuns {
  import opened Chars
  import opened JsonLevels
  import opened JsonReader
  import opened Options

  /** What every call keeps, whatever it returned. */
  ghost predicate Inv(mlen: nat, s: State) {
    InvCore(mlen, s) && (s.buffered.Some? ==> s.mode == Idle && !s.valExpected)
  }

  ghost predicate InvCore(mlen: nat, s: State) {
    && |s.lvls| <= MAX_DEPTH
    && (s.lvls != [] ==> s.lvls[0] == ObjLvl)
    && match s.mode
       case Idle => true
       case WantKey => Top(s.lvls) == Some(ObjLvl) && s.valExpected
       case WantColon => Top(s.lvls) == Some(ObjLvl) && !s.valExpected
       case InStr(buf, _, isKey) => |buf| <= mlen && s.lvls != [] && (isKey ==> Top(s.lvls) == Some(ObjLvl))
       case InNum(_) => s.valExpected && s.lvls != []
       case InWord(w, at) => s.valExpected && s.lvls != [] && at < |WordText(w)|
  }

  /** The one reason left for a panic: one more level than the stack can hold. */
  predicate TooDeep(s: State, ch: char) {
    s.mode == Idle && s.valExpected && |s.lvls| == MAX_DEPTH && (ch == '{' || ch == '[')
  }

  // ----- Brackets -----

  /** A scanner that knows only brackets and string literals. */
  datatype Scanner = Scanner(stack: seq<Lvl>, inStr: bool, esc: bool)

  function ScanStep(c: Scanner, ch: char): Scanner {
    if c.inStr then
      if c.esc then c.(esc := false)
      else if ch == '\\' then c.(esc := true)
      else if ch == '\"' then c.(inStr := false)
      else c
    else match ch
      case '\"' => c.(inStr := true)
      case '{' => c.(stack := c.stack + [ObjLvl])
      case '[' => c.(stack := c.stack + [ArrLvl])
      case '}' => if c.stack == [] then c else c.(stack := Pop(c.stack))
      case ']' => if c.stack == [] then c else c.(stack := Pop(c.stack))
      case _ => c
  }

  function Scan(c: Scanner, text: string): Scanner {
    if text == [] then c else ScanStep(Scan(c, text[..|text| - 1]), text[|text| - 1])
  }

  /** The brackets of `text` that are open at its end, outside string literals. */
  function Unmatched(text: string): seq<Lvl> {
    Scan(Scanner([], false, false), text).stack
  }

  ghost predicate Tracks(s: State, c: Scanner) {
    && s.lvls == c.stack
    && c.inStr == s.mode.InStr?
    && c.esc == (s.mode.InStr? && s.mode.esc)
  }

  /** Did the automaton keep `ch` for later instead of consuming it? */
  predicate Kept(s: State, x: Result) {
    s.buffered.None? && x.st.buffered.Some?
  }

  /** What one character through the automaton keeps. */
  ghost predicate CoreGood(mlen: nat, s: State, ch: char, x: Result) {
    && (x.res == Panic <==> TooDeep(s, ch))
    && InvCore(mlen, x.st)
    && (Inv(mlen, x.st) || CatchesUp(x))
    && x.st.pos == s.pos
    && (Kept(s, x) || x.st.buffered == s.buffered)
    && (Kept(s, x) ==> x.res == Ok && x.st.buffered == Some(ch) && x.st.lvls == s.lvls && x.st.mode == Idle
                       && s.mode.InNum? && x.st.cur.Some?)
    && (x.res == Fin ==> x.st.lvls == [] && x.st.cur == Some(ObjEnd))
    && (x.res == Ok && s.lvls != [] ==> x.st.lvls != [])
    && (x.res == Ok && ch != '\0' && !Kept(s, x) && x.st.lvls == [] ==> x.st.cur.None?)
  }

  ghost predicate CoreTracks(s: State, ch: char, x: Result) {
    forall c | Tracks(s, c) && (x.res == Ok || x.res == Fin) ::
      if Kept(s, x) then Tracks(x.st, c) else Tracks(x.st, ScanStep(c, ch))
  }

  lemma NextNumGood(mlen: nat, s: State, d: NumData, ch: char)
    requires Inv(mlen, s) && s.mode == InNum(d)
    ensures CoreGood(mlen, s, ch, NextNum(s, d, ch)) && CoreTracks(s, ch, NextNum(s, d, ch))
  {
    hide NumValue;
    if NumStep(d, ch).Some? {
      assert ch !in "\"{}[]";
    }
    hide NumStep;
  }

  lemma NextWordGood(mlen: nat, s: State, w: Word, at: nat, ch: char)
    requires Inv(mlen, s) && s.mode == InWord(w, at)
    ensures CoreGood(mlen, s, ch, NextWord(s, w, at, ch)) && CoreTracks(s, ch, NextWord(s, w, at, ch))
  {
    assert WordText(w)[at] !in "\"{}[]";
    hide WordEvent;
  }

  lemma NextStrGood(mlen: nat, s: State, buf: string, esc: bool, isKey: bool, ch: char)
    requires Inv(mlen, s) && s.mode == InStr(buf, esc, isKey)
    ensures
      var x := NextStr(mlen, s, buf, esc, isKey, ch);
      CoreGood(mlen, s, ch, x) && CoreTracks(s, ch, x)
  {
    hide Unescape;
  }

  lemma NextWantGood(mlen: nat, s: State, ch: char)
    requires Inv(mlen, s) && (s.mode == WantKey || s.mode == WantColon)
    ensures CoreGood(mlen, s, ch, Core(mlen, s, ch)) && CoreTracks(s, ch, Core(mlen, s, ch))
  {
    hide NextIdle, NextNum, NextStr, NextWord;
  }

  lemma NextIdleGood(mlen: nat, s: State, ch: char)
    requires Inv(mlen, s) && s.mode == Idle
    ensures CoreGood(mlen, s, ch, NextIdle(mlen, s, ch)) && CoreTracks(s, ch, NextIdle(mlen, s, ch))
  {
    var s1 := s.(cur := None);
    if !IsWhitespace(ch) && s.lvls != [] && s.valExpected && WordFor(ch).Some? {
      var s2 := s1.(mode := InWord(WordFor(ch).value, 0));
      NextWordGood(mlen, s2, WordFor(ch).value, 0, ch);
      hide NextWord;
      assert forall c | Tracks(s, c) :: Tracks(s2, c);
    } else if !IsWhitespace(ch) && s.lvls != [] && s.valExpected && IsNumStart(ch) {
      var s2 := s1.(mode := InNum(NUM_START));
      NextNumGood(mlen, s2, NUM_START, ch);
      assert !Kept(s2, NextNum(s2, NUM_START, ch));
      hide NextNum;
      assert forall c | Tracks(s, c) :: Tracks(s2, c);
    } else {
      assert ch == '{' || ch == '[' ==> WordFor(ch).None?;
      hide NextNum, NextWord, WordFor;
    }
  }

  lemma CoreKeeps(mlen: nat, s: State, ch: char)
    requires Inv(mlen, s)
    ensures CoreGood(mlen, s, ch, Core(mlen, s, ch)) && CoreTracks(s, ch, Core(mlen, s, ch))
  {
    hide NextIdle, NextNum, NextStr, NextWord, NextWantKey, NextWantColon, CoreGood, CoreTracks;
    match s.mode
    case Idle => NextIdleGood(mlen, s, ch);
    case WantKey => NextWantGood(mlen, s, ch);
    case WantColon => NextWantGood(mlen, s, ch);
    case InStr(buf, esc, isKey) => NextStrGood(mlen, s, buf, esc, isKey, ch);
    case InNum(d) => NextNumGood(mlen, s, d, ch);
    case InWord(w, at) => NextWordGood(mlen, s, w, at, ch);
  }

  // ----- Calls -----

  /** The characters consumed after a call: all of them, or all but the one kept. */
  ghost predicate InStep(s: State, c: Scanner, text: string) {
    if s.buffered.Some? then
      && text != [] && s.buffered == Some(text[|text| - 1])
      && Tracks(s, Scan(c, text[..|text| - 1]))
    else Tracks(s, Scan(c, text))
  }

  lemma ScanSnoc(c: Scanner, text: string, ch: char)
    ensures Scan(c, text + [ch]) == ScanStep(Scan(c, text), ch)
  {
    assert (text + [ch])[..|text|] == text;
  }

  lemma HandleKeeps(mlen: nat, s: State, ch: char, behind: bool, c: Scanner)
    requires Inv(mlen, s) && Tracks(s, c) && (behind <==> s.buffered.Some?)
    ensures
      var x := Handle(mlen, s, ch, behind);
      && InvCore(mlen, x.st) && (Inv(mlen, x.st) || CatchesUp(x))
      && (x.res == Panic ==> |ScanStep(c, ch).stack| > MAX_DEPTH)
      && (ch == '\0' ==> x.res != Ok)
      && (behind ==> x.st.buffered == s.buffered)
      && (x.st.buffered.Some? && !behind ==> x.st.buffered == Some(ch) && x.res == Ok && x.st.cur.Some?)
      && (x.res == Ok || x.res == Fin ==>
            if behind || x.st.buffered.None? then Tracks(x.st, ScanStep(c, ch)) else Tracks(x.st, c))
  {
    if ch != '\0' {
      CoreKeeps(mlen, s, ch);
      hide Core, InvCore;
    }
  }

  lemma NextKeeps(mlen: nat, s: State, c: Scanner, text: string, ch: char)
    requires Inv(mlen, s) && InStep(s, c, text)
    ensures
      var x := Next(mlen, s, ch);
      && Inv(mlen, x.st)
      && (x.res == Ok || x.res == Fin ==> InStep(x.st, c, text + [ch]))
      && (x.res == Panic ==> exists k | 0 <= k <= |text| + 1 :: |Scan(c, (text + [ch])[..k]).stack| > MAX_DEPTH)
  {
    hide Handle, ScanStep;
    var t := text + [ch];
    if s.buffered.None? {
      HandleKeeps(mlen, s, ch, false, Scan(c, text));
      ScanSnoc(c, text, ch);
      assert t[..|t|] == t && t[..|t| - 1] == text;
    } else {
      var b, before := s.buffered.value, text[..|text| - 1];
      var s1 := s.(buffered := Some(ch));
      HandleKeeps(mlen, s1, b, true, Scan(c, before));
      assert text == before + [b];
      ScanSnoc(c, before, b);
      assert t[..|text|] == text && t[..|t|] == t;
      var x := Handle(mlen, s1, b, true);
      if b != '\0' && CatchesUp(x) {
        HandleKeeps(mlen, x.st.(buffered := None), ch, false, Scan(c, text));
        ScanSnoc(c, text, ch);
      }
    }
  }

  const START := Scanner([], false, false)

  /**
   The run invariant, over any characters: every call keeps `Inv`, so that a
   character kept for later means an idle reader that expects no value; as long
   as every answer was `Ok` the level stack is exactly the unmatched brackets of
   the characters consumed; and a panic means more than 24 of them were open.
   */
  lemma {:induction false} RunInvariant(mlen: nat, text: string)
    ensures
      var o := Feed(mlen, INIT, text);
      && Inv(mlen, o.st)
      && (o.res == Ok ==> InStep(o.st, START, text))
      && (o.res == Panic ==> exists k | 0 <= k <= |text| :: |Unmatched(text[..k])| > MAX_DEPTH)
  {
    if text == [] {
    } else {
      hide Next, Feed;
      var before, ch := text[..|text| - 1], text[|text| - 1];
      assert text == before + [ch];
      RunInvariant(mlen, before);
      FeedSnoc(mlen, INIT, before, ch);
      var o := Feed(mlen, INIT, before);
      if o.res == Ok {
        NextKeeps(mlen, o.st, START, before, ch);
      } else if o.res == Panic {
        var k :| 0 <= k <= |before| && |Unmatched(before[..k])| > MAX_DEPTH;
        assert text[..k] == before[..k];
      }
    }
  }

  // ----- Going on after errors -----

  /** A scanner that has seen what the reader has seen. */
  function Tracker(s: State): Scanner {
    Scanner(s.lvls, s.mode.InStr?, s.mode.InStr? && s.mode.esc)
  }

  lemma PanicsFull(mlen: nat, s: State, ch: char)
    requires Inv(mlen, s) && Core(mlen, s, ch).res == Panic
    ensures |Core(mlen, s, ch).st.lvls| == MAX_DEPTH
  {
    CoreKeeps(mlen, s, ch);
    assert TooDeep(s, ch);
    hide NextWord, NextNum, InvCore;
  }

  lemma HandlePanicsFull(mlen: nat, s: State, ch: char, behind: bool)
    requires Inv(mlen, s) && Handle(mlen, s, ch, behind).res == Panic
    ensures |Handle(mlen, s, ch, behind).st.lvls| == MAX_DEPTH
  {
    hide Core, InvCore;
    PanicsFull(mlen, s, ch);
  }

  lemma NextKeepsAlways(mlen: nat, s: State, ch: char)
    requires Inv(mlen, s)
    ensures
      var x := Next(mlen, s, ch);
      Inv(mlen, x.st) && (x.res == Panic ==> |x.st.lvls| == MAX_DEPTH)
  {
    hide Handle, ScanStep;
    var c, text := Tracker(s), if s.buffered.Some? then [s.buffered.value] else [];
    NextKeeps(mlen, s, c, text, ch);
    if Next(mlen, s, ch).res == Panic {
      if s.buffered.None? {
        HandleKeeps(mlen, s, ch, false, c);
        HandlePanicsFull(mlen, s, ch, false);
      } else {
        var s1, b := s.(buffered := Some(ch)), s.buffered.value;
        var x := Handle(mlen, s1, b, true);
        if x.res == Panic {
          HandlePanicsFull(mlen, s1, b, true);
        } else {
          HandleKeeps(mlen, s1, b, true, c);
          HandlePanicsFull(mlen, x.st.(buffered := None), ch, false);
        }
      }
    }
  }

  /** The last answer and state of a client that goes on after every answer but a panic. */
  function GoOn(mlen: nat, text: string): Result {
    if text == [] then Result(INIT, Ok)
    else
      var x := GoOn(mlen, text[..|text| - 1]);
      if x.res == Panic then x else Next(mlen, x.st, text[|text| - 1])
  }

  /**
   The invariant for a client that does not stop at errors or at the end: over
   any characters every call keeps `Inv`, and a panic means that all 24 levels are
   in use.
   */
  lemma {:induction false} AnyRunInvariant(mlen: nat, text: string)
    ensures
      var x := GoOn(mlen, text);
      Inv(mlen, x.st) && (x.res == Panic ==> |x.st.lvls| == MAX_DEPTH)
    decreases |text|
  {
    hide Next, InvCore;
    if text == [] {
      assert InvCore(mlen, INIT) by { InitInv(mlen); }
    } else {
      AnyRunInvariant(mlen, text[..|text| - 1]);
      var x := GoOn(mlen, text[..|text| - 1]);
      NextKeepsAlways(mlen, x.st, text[|text| - 1]);
    }
  }

  lemma InitInv(mlen: nat)
    ensures InvCore(mlen, INIT)
  {
  }
}
