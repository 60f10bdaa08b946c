/**
 Reading piece by piece with the reference reader of `JsonLookahead`: what one
 character, a word, a bracket or the end of a string does to the rest of a run.
 */
module JsonReading {
  import opened JsonLevels
  import opened JsonLookahead
  import opened JsonReader
  import opened Options

  // ----- Runs of the reference reader -----

  /** The rest of a run after the events in `evs`. */
  predicate Continues(mlen: nat, s: State, text: string, evs: seq<Event>, s': State, text': string) {
    var o, o' := DirectFeed(mlen, s, text), DirectFeed(mlen, s', text');
    o.res == o'.res && o.events == evs + o'.events
  }

  predicate Fails(mlen: nat, s: State, text: string) {
    DirectFeed(mlen, s, text).res == Syntax
  }

  lemma Chain(mlen: nat, s: State, t: string, e: seq<Event>, s1: State, t1: string, e1: seq<Event>, s2: State, t2: string)
    requires Continues(mlen, s, t, e, s1, t1) && Continues(mlen, s1, t1, e1, s2, t2)
    ensures Continues(mlen, s, t, e + e1, s2, t2)
  {
    hide DirectFeed;
    assert e + (e1 + DirectFeed(mlen, s2, t2).events) == e + e1 + DirectFeed(mlen, s2, t2).events;
  }

  lemma ChainFails(mlen: nat, s: State, t: string, e: seq<Event>, s1: State, t1: string)
    requires Continues(mlen, s, t, e, s1, t1) && Fails(mlen, s1, t1)
    ensures Fails(mlen, s, t)
  {
    hide DirectFeed;
  }

  /** One character that ends no number. */
  lemma OneStep(mlen: nat, s: State, ch: char, rest: string)
    requires ch != '\0' && !NumEnds(s, ch)
    ensures
      var x := Core(mlen, s, ch);
      && (x.res == Ok ==> Continues(mlen, s, [ch] + rest, Delivered(x.st.cur), Advance(x), rest))
      && (x.res == Syntax ==> Fails(mlen, s, [ch] + rest))
  {
    hide Core, NumValue;
    assert ([ch] + rest)[1..] == rest;
  }

  lemma Stays(mlen: nat, s: State, text: string)
    ensures Continues(mlen, s, text, [], s, text)
  {
    hide DirectFeed;
    assert [] + DirectFeed(mlen, s, text).events == DirectFeed(mlen, s, text).events;
  }

  // ----- Strings -----

  /** Where a string leaves the reader. */
  predicate PastStr(s: State, s': State, isKey: bool) {
    s'.lvls == s.lvls && s'.mode == (if isKey then WantColon else Idle) && !s'.valExpected
  }

  /** The closing quote. */
  lemma StrEnd(mlen: nat, s: State, buf: string, isKey: bool, rest: string) returns (s': State)
    requires s.mode == InStr(buf, false, isKey) && (isKey ==> Top(s.lvls) == Some(ObjLvl))
    ensures
      if |buf| < mlen then
        PastStr(s, s', isKey) && s'.cur == Some(Str(buf)) && Continues(mlen, s, "\"" + rest, [Str(buf)], s', rest)
      else Fails(mlen, s, "\"" + rest)
  {
    hide DirectFeed;
    OneStep(mlen, s, '\"', rest);
    s' := Advance(Core(mlen, s, '\"'));
  }

  // ----- Words -----

  /** Where a value leaves the reader. */
  predicate PastVal(s: State, s': State) {
    s'.lvls == s.lvls && s'.mode == Idle && !s'.valExpected
  }

  lemma {:induction false} WordTail(mlen: nat, s: State, w: Word, at: nat, rest: string) returns (s': State)
    requires s.mode == InWord(w, at) && at < |WordText(w)| && s.valExpected && s.cur.None?
    ensures PastVal(s, s') && Continues(mlen, s, WordText(w)[at..] + rest, [WordEvent(w)], s', rest)
    decreases |WordText(w)| - at
  {
    hide DirectFeed;
    var tail := WordText(w)[at + 1..] + rest;
    assert WordText(w)[at..] + rest == [WordText(w)[at]] + tail;
    OneStep(mlen, s, WordText(w)[at], tail);
    var s1 := Advance(Core(mlen, s, WordText(w)[at]));
    if at + 1 < |WordText(w)| {
      s' := WordTail(mlen, s1, w, at + 1, rest);
      Chain(mlen, s, [WordText(w)[at]] + tail, [], s1, tail, [WordEvent(w)], s', rest);
      assert [] + [WordEvent(w)] == [WordEvent(w)];
    } else {
      s' := s1;
      assert tail == rest;
    }
  }

  /** An idle reader treats the first character of a scalar as its scalar's own mode would. */
  lemma Enters(mlen: nat, s: State, mode: Mode, text: string)
    requires s.mode == Idle && s.valExpected && s.lvls != [] && text != []
    requires
      || (mode == InNum(NUM_START) && IsNumStart(text[0]))
      || (mode.InWord? && mode.at == 0 && text[0] == WordText(mode.word)[0])
    ensures DirectFeed(mlen, s, text) == DirectFeed(mlen, s.(mode := mode, cur := None), text)
  {
    assert Core(mlen, s, text[0]) == Core(mlen, s.(mode := mode, cur := None), text[0]);
    hide Core;
  }

  lemma ReadWord(mlen: nat, s: State, w: Word, rest: string) returns (s': State)
    requires s.mode == Idle && s.valExpected && s.lvls != []
    ensures PastVal(s, s') && Continues(mlen, s, WordText(w) + rest, [WordEvent(w)], s', rest)
  {
    hide DirectFeed;
    assert WordText(w)[0..] == WordText(w);
    Enters(mlen, s, InWord(w, 0), WordText(w) + rest);
    s' := WordTail(mlen, s.(mode := InWord(w, 0), cur := None), w, 0, rest);
  }

  // ----- Numbers -----

  /** A number is reported at the character after it. */
  lemma NumberEnds(mlen: nat, s: State, rest: string)
    requires s.mode.InNum? && s.mode.data.digitPos > 0 && rest != [] && EndsNum(rest[0])
    ensures Continues(mlen, s, rest, [Num(NumValue(s.mode.data))], NumReported(s), rest)
  {
    hide Core, NumValue;
    var x := Core(mlen, NumReported(s), rest[0]);
    var e := Delivered(NumReported(s).cur);
    if x.res == Ok {
      var o := DirectFeed(mlen, Advance(x), rest[1..]);
      assert e + Seen(x) + o.events == e + (Seen(x) + o.events);
    }
  }

  // ----- Punctuation -----

  function OpenText(lvl: Lvl): string {
    if lvl == ObjLvl then "{" else "["
  }

  function CloseText(lvl: Lvl): string {
    if lvl == ObjLvl then "}" else "]"
  }

  lemma ReadOpen(mlen: nat, s: State, lvl: Lvl, rest: string) returns (s': State)
    requires s.mode == Idle && s.valExpected && |s.lvls| < MAX_DEPTH && (s.lvls == [] ==> lvl == ObjLvl)
    ensures s'.lvls == s.lvls + [lvl] && s'.valExpected && s'.mode == (if lvl == ObjLvl then WantKey else Idle)
    ensures s'.cur == Some(if lvl == ObjLvl then ObjStart else ArrStart)
    ensures Continues(mlen, s, OpenText(lvl) + rest, [if lvl == ObjLvl then ObjStart else ArrStart], s', rest)
  {
    hide DirectFeed;
    var ch := if lvl == ObjLvl then '{' else '[';
    OneStep(mlen, s, ch, rest);
    s' := Advance(Core(mlen, s, ch));
  }

  /** May the innermost bracket be closed here? */
  predicate Closable(s: State, lvl: Lvl) {
    && Top(s.lvls) == Some(lvl)
    && ((s.mode == Idle && !s.valExpected) || (s.mode == WantKey && s.valExpected && lvl == ObjLvl))
  }

  lemma ReadClose(mlen: nat, s: State, lvl: Lvl, rest: string) returns (s': State)
    requires Closable(s, lvl) && |s.lvls| > 1
    ensures s'.lvls == Pop(s.lvls) && s'.mode == Idle && !s'.valExpected
    ensures Continues(mlen, s, CloseText(lvl) + rest, [if lvl == ObjLvl then ObjEnd else ArrEnd], s', rest)
  {
    hide DirectFeed;
    var ch := if lvl == ObjLvl then '}' else ']';
    OneStep(mlen, s, ch, rest);
    s' := Advance(Core(mlen, s, ch));
  }

  lemma ReadComma(mlen: nat, s: State, rest: string) returns (s': State)
    requires s.mode == Idle && !s.valExpected && s.lvls != []
    ensures s'.lvls == s.lvls && s'.valExpected && s'.cur == None
    ensures s'.mode == (if Top(s.lvls) == Some(ObjLvl) then WantKey else Idle)
    ensures Continues(mlen, s, "," + rest, [], s', rest)
  {
    hide DirectFeed;
    OneStep(mlen, s, ',', rest);
    s' := Advance(Core(mlen, s, ','));
  }

  lemma ReadColon(mlen: nat, s: State, rest: string) returns (s': State)
    requires s.mode == WantColon && !s.valExpected && Top(s.lvls) == Some(ObjLvl)
    ensures s'.lvls == s.lvls && s'.valExpected && s'.mode == Idle
    ensures Continues(mlen, s, ":" + rest, [], s', rest)
  {
    hide DirectFeed;
    OneStep(mlen, s, ':', rest);
    s' := Advance(Core(mlen, s, ':'));
  }

  /** Neither a key after a member without its comma, nor the end of an empty array, can be read. */
  lemma MisplacedFails(mlen: nat, s: State, ch: char, rest: string)
    requires s.mode == Idle && s.lvls != [] && if s.valExpected then ch == ']' else ch == '\"'
    ensures Fails(mlen, s, [ch] + rest)
  {
    hide DirectFeed;
    OneStep(mlen, s, ch, rest);
  }

  /** The bracket that ends the document. */
  lemma LastClose(mlen: nat, s: State, rest: string)
    requires Closable(s, ObjLvl) && |s.lvls| == 1
    ensures
      var o := DirectFeed(mlen, s, "}" + rest);
      o.res == Fin && o.events == [ObjEnd]
  {
    hide NextStr, NextNum, NextWord, NextWantColon;
  }
}
