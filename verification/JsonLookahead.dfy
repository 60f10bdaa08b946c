/**
 The lookahead is transparent. The reference reader below keeps nothing for
 later: it reports a number and handles the character that ended it in the same
 step. `rjson_next` gives a client the same events in the same order.
 */
module JsonLookahead {
  import opened JsonReader
  import opened JsonReaderRuns
  import opened Options

  /** One character through the reference reader, with all the events it causes. */
  datatype Direct = Direct(st: State, res: Res, events: seq<Event>)

  function Advance(x: Result): State {
    if x.res == Syntax then x.st else x.st.(pos := x.st.pos + 1)
  }

  /** Does `ch` end the number being read? */
  predicate NumEnds(s: State, ch: char) {
    s.mode.InNum? && EndsNum(ch) && s.mode.data.digitPos > 0
  }

  /** The state in which a number has been reported and its terminator is still to be handled. */
  function NumReported(s: State): State
    requires s.mode.InNum?
  {
    s.(mode := Idle, cur := Some(Num(NumValue(s.mode.data))), valExpected := false)
  }

  function DirectStep(mlen: nat, s: State, ch: char): Direct {
    if ch == '\0' then Direct(s, if s.lvls == [] then Fin else Syntax, if s.lvls == [] then Delivered(s.cur) else [])
    else if NumEnds(s, ch) then
      var x := Core(mlen, NumReported(s), ch);
      Direct(Advance(x), x.res, Delivered(NumReported(s).cur) + Seen(x))
    else
      var x := Core(mlen, s, ch);
      Direct(Advance(x), x.res, Seen(x))
  }

  function DirectFeed(mlen: nat, s: State, text: string): Outcome
    decreases |text|
  {
    if text == [] then Outcome(s, [], Ok, 0)
    else
      var x := DirectStep(mlen, s, text[0]);
      if x.res != Ok then Outcome(x.st, x.events, x.res, 1)
      else
        var rest := DirectFeed(mlen, x.st, text[1..]);
        rest.(events := x.events + rest.events, calls := rest.calls + 1)
  }

  /** A text with exactly one NUL, at its end. */
  ghost predicate Terminated(text: string) {
    && text != [] && text[|text| - 1] == '\0'
    && forall i | 0 <= i < |text| - 1 :: text[i] != '\0'
  }

  /**
   The two readers agree from here on, the reference having `lead` events more
   behind it: the same answer, at most one call later, the same events on
   success, and the same error position on failure.
   */
  ghost predicate Agree(lead: seq<Event>, ref: Outcome, o: Outcome) {
    && o.res == ref.res
    && ref.calls <= o.calls <= ref.calls + 1
    && (o.res == Fin ==> lead + ref.events == o.events)
    && (o.res == Syntax ==> o.st.pos == ref.st.pos)
  }

  /** An idle reader that expects no value treats its lookahead as none of its business. */
  lemma CoreIgnoresLookahead(mlen: nat, s: State, ch: char, b: Option<char>)
    requires s.mode == Idle && !s.valExpected
    ensures
      var x, y := Core(mlen, s, ch), Core(mlen, s.(buffered := b), ch);
      y == x.(st := x.st.(buffered := b)) && x.st.buffered == s.buffered
  {
    hide NextStr, NextNum, NextWord, NextWantKey, NextWantColon, WordFor;
  }

  lemma CoreOnNumEnd(mlen: nat, s: State, ch: char)
    requires Inv(mlen, s)
    ensures
      var x := Core(mlen, s, ch);
      if NumEnds(s, ch) then x == Result(NumReported(s).(buffered := Some(ch)), Ok)
      else x.st.buffered == s.buffered
  {
    CoreKeeps(mlen, s, ch);
    hide NextStr, NextIdle, NextWord, NextWantKey, NextWantColon, NumValue, NumStep;
  }

  /** A call with nothing kept from before. */
  lemma NextInStep(mlen: nat, s: State, ch: char)
    requires Inv(mlen, s) && s.buffered.None?
    ensures Next(mlen, s, ch) == Handle(mlen, s, ch, false)
    ensures ch != '\0' ==>
              var x := Core(mlen, s, ch);
              Next(mlen, s, ch) ==
              if NumEnds(s, ch) then Result(NumReported(s).(buffered := Some(ch)), Ok)
              else Result(Advance(x), x.res)
  {
    hide Core, NumValue;
    if ch != '\0' {
      CoreOnNumEnd(mlen, s, ch);
    }
  }

  /** A call that first has to handle the character kept from before. */
  lemma NextBehind(mlen: nat, s: State, d: char)
    requires Inv(mlen, s) && s.buffered.Some? && s.buffered.value != '\0'
    ensures
      var x := Core(mlen, s.(buffered := None), s.buffered.value);
      Next(mlen, s, d) ==
      if x.res == Ok && x.st.cur.None? then Handle(mlen, Advance(x), d, false)
      else
        Result(Advance(x).(buffered := Some(d)),
               if x.res == Ok && d == '\0' && x.st.lvls != [] then Syntax else x.res)
  {
    hide Core;
    CoreIgnoresLookahead(mlen, s.(buffered := None), s.buffered.value, Some(d));
    assert s.(buffered := None).(buffered := Some(d)) == s.(buffered := Some(d));
  }

  /** The automaton's step from an idle, satisfied reader, as the lookahead needs it. */
  lemma BehindKeeps(mlen: nat, s: State)
    requires Inv(mlen, s) && s.buffered.Some? && s.buffered.value != '\0'
    ensures
      var x := Core(mlen, s.(buffered := None), s.buffered.value);
      && x.res != Panic && x.st.buffered.None?
      && Inv(mlen, Advance(x))
      && (x.res == Ok && x.st.cur.Some? ==> x.st.mode == Idle && !x.st.valExpected && x.st.lvls != [])
  {
    var s0, c := s.(buffered := None), s.buffered.value;
    CoreIgnoresLookahead(mlen, s0, c, s.buffered);
    assert s0.(buffered := s.buffered) == s;
    CoreKeeps(mlen, s, c);
    CoreKeeps(mlen, s0, c);
    hide Core;
  }

  /** From a state with nothing kept, the readers agree. */
  lemma {:induction false} AgreeInStep(mlen: nat, s: State, text: string)
    requires Inv(mlen, s) && s.buffered.None? && Terminated(text)
    ensures Agree([], DirectFeed(mlen, s, text), Feed(mlen, s, text))
    decreases |text|, 0
  {
    hide Core, Next, NumValue;
    var ch, rest := text[0], text[1..];
    NextInStep(mlen, s, ch);
    if ch != '\0' {
      CoreKeeps(mlen, s, ch);
      CoreOnNumEnd(mlen, s, ch);
      hide CoreGood, CoreTracks, EndsNum;
      if NumEnds(s, ch) {
        var s' := NumReported(s).(buffered := Some(ch));
        assert s'.(buffered := None) == NumReported(s);
        AgreeBehind(mlen, s', rest);
      } else {
        var x := Core(mlen, s, ch);
        if x.res == Ok {
          CoreInvariant(mlen, s, ch);
          AgreeInStep(mlen, Advance(x), rest);
        }
      }
    }
  }

  lemma CoreInvariant(mlen: nat, s: State, ch: char)
    requires Inv(mlen, s) && s.buffered.None? && !NumEnds(s, ch) && Core(mlen, s, ch).res == Ok
    ensures Inv(mlen, Advance(Core(mlen, s, ch))) && Advance(Core(mlen, s, ch)).buffered.None?
  {
    CoreKeeps(mlen, s, ch);
    CoreOnNumEnd(mlen, s, ch);
    hide Core;
  }

  /** From a state one character behind, the reference has the effect of that character already. */
  lemma {:induction false} AgreeBehind(mlen: nat, s: State, text: string)
    requires Inv(mlen, s) && s.buffered.Some? && s.buffered.value != '\0' && Terminated(text)
    ensures
      var x := Core(mlen, s.(buffered := None), s.buffered.value);
      var o := Feed(mlen, s, text);
      if x.res == Ok then Agree(Seen(x), DirectFeed(mlen, Advance(x), text), o)
      else o.res == x.res && o.calls == 1 && o.events == Seen(x) && o.st.pos == Advance(x).pos
    decreases |text|, 1
  {
    var d, rest := text[0], text[1..];
    var x := Core(mlen, s.(buffered := None), s.buffered.value);
    NextBehind(mlen, s, d);
    BehindKeeps(mlen, s);
    hide Core;
    var a := Advance(x);
    if x.res != Ok {
    } else if x.st.cur.None? {
      NextInStep(mlen, a, d);
      hide Next, Handle;
      AgreeInStep(mlen, a, text);
    } else {
      hide Next, Handle;
      if d != '\0' {
        var s' := a.(buffered := Some(d));
        assert s'.(buffered := None) == a;
        AgreeBehind(mlen, s', rest);
      }
    }
  }

  /**
   Transparency, on every NUL-terminated input: `rjson_next` ends as the
   reference does, at most one call later; if they end well, it has delivered
   the same events in the same order; if they end in an error, it reports the
   same position.
   */
  lemma Transparent(mlen: nat, text: string)
    requires Terminated(text)
    ensures Agree([], DirectFeed(mlen, INIT, text), Feed(mlen, INIT, text))
  {
    AgreeInStep(mlen, INIT, text);
  }
}
