/**
 The key/value format as a whole: what the reader of `src/rdb.c` makes of the
 text that the writer of `src/wdb.c` leaves after any sequence of calls.
 */
module DbRoundTrip {
  import opened Chars
  import N = DbNumbers
  import opened DbReader
  import opened DbStrings
  import W = DbWriter
  import opened Decimal
  import opened Options

  /** A token as its client understands it. */
  datatype Datum = KeyD(s: string) | StrD(s: string) | NumD(v: real) | BoolD(b: bool)

  function Meaning(t: Token): Datum {
    match t
    case Key(s) => KeyD(s)
    case Str(s) => StrD(s)
    case Num(d) => NumD(NumValue(d))
    case Bool(b) => BoolD(b)
  }

  function Meanings(ts: seq<Token>): seq<Datum> {
    seq(|ts|, i requires 0 <= i < |ts| => Meaning(ts[i]))
  }

  /** What a successful call writes. */
  function Written(c: W.Call): seq<Datum> {
    match c
    case Key(v) => [KeyD(v)]
    case Str(v) => [StrD(v)]
    case LongStr(v) => [StrD(v)]
    case Int(n) => [NumD(n as real)]
    case Bool(b) => [BoolD(b)]
    case Fin => []
  }

  /** The data of the successful calls, in order. */
  function AllWritten(wlen: nat, calls: seq<W.Call>): seq<Datum> {
    if calls == [] then []
    else
      AllWritten(wlen, calls[..|calls| - 1]) +
      if W.LastResult(wlen, calls) == W.Ok then Written(calls[|calls| - 1]) else []
  }

  /** No call so far was a successful `wdb_fin`. */
  predicate Unfinished(wlen: nat, calls: seq<W.Call>) {
    calls == [] ||
    (&& Unfinished(wlen, calls[..|calls| - 1])
     && !(calls[|calls| - 1] == W.Fin && W.LastResult(wlen, calls) == W.Ok))
  }

  predicate KeyReadable(rlen: nat, v: string) {
    0 < |v| < rlen && !IsDigit(v[0]) && v[0] != '.' && v[0] != '-'
  }

  /** Can a reader with `rlen` characters of string buffer take what this call writes? */
  predicate Readable(rlen: nat, c: W.Call) {
    match c
    case Key(v) => KeyReadable(rlen, v)
    case Str(v) => Decodable(false, v) && |v| < rlen
    case LongStr(v) => Decodable(true, v) && |v| < rlen
    case _ => true
  }

  /** Every call that succeeded was readable. */
  predicate AllReadable(rlen: nat, wlen: nat, calls: seq<W.Call>) {
    calls == [] ||
    (&& AllReadable(rlen, wlen, calls[..|calls| - 1])
     && (W.LastResult(wlen, calls) == W.Ok ==> Readable(rlen, calls[|calls| - 1])))
  }

  // ----- Between two calls -----

  /** A number or boolean at the end of the text is only delivered by what follows it. */
  function Pending(m: Mode): seq<Datum> {
    match m
    case InNum(d) => [NumD(NumValue(d))]
    case InBool(w) => [BoolD(w <= "true")]
    case _ => []
  }

  predicate AtBoundary(s: State) {
    match s.mode
    case Idle => !s.expectColon
    case InNum(d) => N.MayEnd(d)
    case InBool(w) => IsBoolWord(w)
    case _ => false
  }

  /** The reader has taken the writer's text and is ready for the writer's next call. */
  predicate Synced(s: State, w: W.State) {
    && AtBoundary(s)
    && (w.isFirstVal ==> w.gotKey)
    && if s.mode.Idle? then s.gotKey == w.gotKey && (w.isFirstVal ==> !s.gotFirstVal)
       else w.gotKey && !w.isFirstVal
  }

  /** A comma or line break delivers what was pending. */
  lemma StepSeparates(mlen: nat, s: State, ch: char)
    requires AtBoundary(s) && (ch == ',' || ch == '\n')
    ensures
      var x := Step(mlen, s, ch);
      && x.r == Ok && x.next.mode == Idle && !x.next.expectColon
      && x.next.isInArr == (ch == ',')
      && x.next.gotKey == (ch == ',' && (s.gotKey || !s.mode.Idle?))
      && Meanings(Delivered(x.tok)) == Pending(s.mode)
  {
    if s.mode.InNum? {
      N.EndsAtSeparator(mlen, s, s.mode.data, ch);
      assert N.Scanning(s, s.mode.data) == s;
    }
    hide NumValue;
  }

  lemma FeedSingle(mlen: nat, s: State, c: char)
    ensures
      var x := Step(mlen, s, c);
      Feed(mlen, s, [c]) == Outcome(x.next, Delivered(x.tok), x.r)
  {
    hide Step;
    assert [c][1..] == [];
    assert Delivered(Step(mlen, s, c).tok) + [] == Delivered(Step(mlen, s, c).tok);
  }

  /** The writer's separator, if any, leaves the reader expecting a value. */
  lemma FeedSeparator(mlen: nat, s: State, w: W.State)
    requires Synced(s, w) && w.gotKey
    ensures
      var o := Feed(mlen, s, W.Separator(w));
      && o.r == Ok && o.st.mode == Idle && ValExpected(o.st)
      && Meanings(o.toks) == Pending(s.mode)
  {
    if !w.isFirstVal {
      StepSeparates(mlen, s, ',');
      var s1 := Step(mlen, s, ',').next;
      assert Step(mlen, s1, ' ') == Plain(s1, Ok);
      hide Step;
      FeedSingle(mlen, s, ',');
      FeedSingle(mlen, s1, ' ');
      FeedConcat(mlen, s, ",", " ");
      assert "," + " " == ", ";
      assert Delivered(Step(mlen, s, ',').tok) + [] == Delivered(Step(mlen, s, ',').tok);
    }
  }

  lemma FeedLineBreak(mlen: nat, s: State, w: W.State)
    requires Synced(s, w) && !w.isFirstVal
    ensures
      var o := Feed(mlen, s, W.LineBreak(w));
      && o.r == Ok && o.st.mode == Idle && !o.st.gotKey && !o.st.expectColon
      && Meanings(o.toks) == Pending(s.mode)
  {
    if w.gotKey {
      StepSeparates(mlen, s, '\n');
      FeedSingle(mlen, s, '\n');
    }
  }

  // ----- Keys -----

  function KeyState(buf: string): State {
    State(InKey(buf), false, false, false, false)
  }

  lemma StepInKey(mlen: nat, buf: string, ch: char)
    ensures Step(mlen, KeyState(buf), ch) == NextKey(mlen, KeyState(buf), buf, ch)
  {
  }

  lemma StepKeyChar(mlen: nat, buf: string, ch: char)
    requires IsKeyChar(ch)
    ensures Step(mlen, KeyState(buf), ch) == if |buf| >= mlen then Plain(KeyState(buf), Syntax) else Plain(KeyState(buf + [ch]), Ok)
  {
    StepInKey(mlen, buf, ch);
    hide Step;
  }

  lemma {:induction false} FeedKeyChars(mlen: nat, buf: string, v: string)
    requires W.IsKeyText(v) && |buf| <= mlen
    ensures
      var o := Feed(mlen, KeyState(buf), v);
      if |buf| + |v| <= mlen then o == Outcome(KeyState(buf + v), [], Ok) else o.r == Syntax && o.toks == []
    decreases |v|
  {
    hide Step, IsKeyChar;
    if v == [] {
      assert buf + v == buf;
    } else {
      StepKeyChar(mlen, buf, v[0]);
      if |buf| < mlen {
        FeedMode(mlen, KeyState(buf), InKey(buf + [v[0]]), v);
        hide Feed;
        FeedKeyChars(mlen, buf + [v[0]], v[1..]);
        assert buf + [v[0]] + v[1..] == buf + v;
      }
    }
  }

  lemma FeedColon(mlen: nat, v: string)
    ensures
      var o := Feed(mlen, KeyState(v), ": ");
      if 0 < |v| < mlen then o == Outcome(State(Idle, false, true, false, false), [Key(v)], Ok)
      else o.r == Syntax && o.toks == []
  {
    var s1 := State(Idle, false, true, false, false);
    StepInKey(mlen, v, ':');
    assert Step(mlen, s1, ' ') == Plain(s1, Ok);
    hide Step;
    assert ": "[1..] == " " && " "[1..] == "";
  }

  lemma StartsKey(mlen: nat, s: State, c: char)
    requires s.mode == Idle && !s.gotKey && !s.expectColon && (IsKeyChar(c) || c == ':')
    ensures Step(mlen, s, c) ==
            if IsDigit(c) || c == '.' || c == '-' || c == ':' then Plain(s, Syntax)
            else Step(mlen, KeyState(""), c)
  {
  }

  lemma FeedKey(mlen: nat, s: State, v: string)
    requires s.mode == Idle && !s.gotKey && !s.expectColon && W.IsKeyText(v)
    ensures
      var o := Feed(mlen, s, v + ": ");
      if KeyReadable(mlen, v) then o == Outcome(State(Idle, false, true, false, false), [Key(v)], Ok)
      else o.r == Syntax && o.toks == []
  {
    var t := v + ": ";
    StartsKey(mlen, s, t[0]);
    hide Step;
    if v != [] && !IsDigit(v[0]) && v[0] != '.' && v[0] != '-' {
      assert Feed(mlen, s, t) == Feed(mlen, KeyState(""), t);
      hide Feed;
      FeedKeyChars(mlen, "", v);
      assert "" + v == v;
      FeedConcat(mlen, KeyState(""), v, ": ");
      FeedColon(mlen, v);
    }
  }

  // ----- Values -----

  /** The value has been read, or will be once a separator follows. */
  ghost predicate ReadsValue(mlen: nat, s: State, text: string, datum: Datum) {
    var o := Feed(mlen, s, text);
    && o.r == Ok && AtBoundary(o.st) && (o.st.mode.Idle? ==> o.st.gotKey)
    && Meanings(o.toks) + Pending(o.st.mode) == [datum]
  }

  lemma FeedInt(mlen: nat, s: State, n: int)
    requires s.mode == Idle && ValExpected(s)
    ensures ReadsValue(mlen, s, OfInt(n), NumD(n as real))
  {
    hide Feed, NumValue, Pow10, N.Exact;
    var l := IntLiteral(n);
    IntLiteralText(n);
    var s0 := StartValue(s, s.mode);
    N.StartsScanning(mlen, s, OfInt(n));
    N.ReachesLiteral(mlen, s0, l);
    N.AcceptedIffScanned(l);
    N.ScannedValue(l);
    IntLiteralValue(n);
  }

  /** What the writer prints for `n`, as a literal of the reader's. */
  function IntLiteral(n: int): (l: N.Literal)
    ensures N.WellFormed(l)
  {
    N.Literal("", if n < 0 then N.Minus else N.NoSign, OfNat(if n < 0 then -n else n), None, None)
  }

  lemma IntLiteralText(n: int)
    ensures N.Accepted(IntLiteral(n)) && N.Text(IntLiteral(n)) == OfInt(n)
  {
    var l := IntLiteral(n);
    var t := OfInt(n);
    hide OfNat, Value;
    assert "" + N.SignText(l.sign) + l.whole + "" + "" == N.SignText(l.sign) + l.whole;
  }

  lemma IntLiteralValue(n: int)
    ensures N.Exact(IntLiteral(n)) == n as real
  {
    hide Pow10;
    var l := IntLiteral(n);
    assert l.whole + N.FracDigits(l) == l.whole;
    Pow10Zero();
  }

  lemma FeedBool(mlen: nat, s: State, b: bool)
    requires s.mode == Idle && ValExpected(s)
    ensures ReadsValue(mlen, s, W.BoolText(b), BoolD(b))
  {
    var s0, t := StartValue(s, InBool("")), W.BoolText(b);
    assert Step(mlen, s, t[0]) == NextBool(s0, "", t[0]);
    FeedWord(mlen, s0, "", t);
    assert Step(mlen, s0, t[0]) == NextBool(s0, "", t[0]);
    hide Step;
    assert Feed(mlen, s, t) == Feed(mlen, s0, t);
    assert "" + t == t;
  }

  /** A character that only changes the mode. */
  lemma FeedMode(mlen: nat, s: State, mode: Mode, t: string)
    requires t != [] && Step(mlen, s, t[0]) == Plain(s.(mode := mode), Ok)
    ensures Feed(mlen, s, t) == Feed(mlen, s.(mode := mode), t[1..])
  {
    hide Step;
    var o := Feed(mlen, s.(mode := mode), t[1..]);
    assert [] + o.toks == o.toks;
  }

  lemma {:induction false} FeedWord(mlen: nat, s: State, word: string, t: string)
    requires s.mode == InBool(word) && |word| <= MAX_WORD
    requires forall i | 0 <= i < |t| :: !IsSeparator(t[i])
    ensures
      var o := Feed(mlen, s, t);
      if |word| + |t| <= MAX_WORD then o == Outcome(s.(mode := InBool(word + t)), [], Ok) else o.r == Syntax && o.toks == []
    decreases |t|
  {
    if t == [] {
      assert word + t == word;
    } else {
      assert Step(mlen, s, t[0]) == NextBool(s, word, t[0]);
      hide Step;
      if |word| < MAX_WORD {
        FeedMode(mlen, s, InBool(word + [t[0]]), t);
        FeedWord(mlen, s.(mode := InBool(word + [t[0]])), word + [t[0]], t[1..]);
        assert word + [t[0]] + t[1..] == word + t;
      }
    }
  }

  // ----- One call -----

  function Want(s: State, c: W.Call): seq<Datum> {
    Pending(s.mode) + Written(c)
  }

  lemma MeaningsConcat(a: seq<Token>, b: seq<Token>)
    ensures Meanings(a + b) == Meanings(a) + Meanings(b)
  {
  }

  /** The body of a value call: its text without the separator. */
  function Body(c: W.Call): string
    requires !c.Key? && !c.Fin?
  {
    match c
    case Str(v) => W.Quoted(false, v)
    case LongStr(v) => W.Quoted(true, v)
    case Int(n) => OfInt(n)
    case Bool(b) => W.BoolText(b)
  }

  lemma FeedValue(mlen: nat, s: State, c: W.Call)
    requires s.mode == Idle && ValExpected(s)
    requires !c.Key? && !c.Fin? && Readable(mlen, c)
    requires c.Str? || c.LongStr? ==> W.AllWritable(c.v)
    ensures ReadsValue(mlen, s, Body(c), Written(c)[0])
  {
    hide Feed;
    match c
    case Str(v) => StringMeaning(mlen, s, false, v);
    case LongStr(v) => StringMeaning(mlen, s, true, v);
    case Int(n) => FeedInt(mlen, s, n);
    case Bool(b) => FeedBool(mlen, s, b);
  }

  /** The writer's flags after a successful call. */
  function After(w: W.State, c: W.Call): W.State {
    w.(gotKey := true, isFirstVal := c.Key?)
  }

  lemma KeyReads(rlen: nat, s: State, w: W.State, v: string)
    requires Synced(s, w) && !w.isFirstVal && W.IsKeyText(v) && KeyReadable(rlen, v)
    ensures
      var o := Feed(rlen, s, W.Appended(w, W.Key(v)));
      o.r == Ok && o.st == State(Idle, false, true, false, false) && Meanings(o.toks) == Pending(s.mode) + [KeyD(v)]
  {
    hide Feed, Synced, Pending, W.LineBreak;
    FeedLineBreak(rlen, s, w);
    var o := Feed(rlen, s, W.LineBreak(w));
    FeedKey(rlen, o.st, v);
    FeedConcat(rlen, s, W.LineBreak(w), v + ": ");
    assert W.Appended(w, W.Key(v)) == W.LineBreak(w) + (v + ": ");
    MeaningsConcat(o.toks, [Key(v)]);
    assert Meanings([Key(v)]) == [KeyD(v)];
    hide Meanings;
  }

  lemma ValueReads(rlen: nat, s: State, w: W.State, c: W.Call)
    requires Synced(s, w) && w.gotKey && !c.Key? && !c.Fin? && Readable(rlen, c)
    requires c.Str? || c.LongStr? ==> W.AllWritable(c.v)
    ensures
      var o := Feed(rlen, s, W.Appended(w, c));
      && o.r == Ok && AtBoundary(o.st) && (o.st.mode.Idle? ==> o.st.gotKey)
      && Meanings(o.toks) + Pending(o.st.mode) == Want(s, c)
  {
    hide Feed, Synced, Pending, Meanings, W.Separator, AtBoundary, Readable, W.Quoted;
    FeedSeparator(rlen, s, w);
    var o := Feed(rlen, s, W.Separator(w));
    FeedValue(rlen, o.st, c);
    var o' := Feed(rlen, o.st, Body(c));
    FeedConcat(rlen, s, W.Separator(w), Body(c));
    assert W.Appended(w, c) == W.Separator(w) + Body(c);
    MeaningsConcat(o.toks, o'.toks);
    assert Meanings(o.toks) + Meanings(o'.toks) + Pending(o'.st.mode) == Meanings(o.toks) + (Meanings(o'.toks) + Pending(o'.st.mode));
  }

  /** A readable call: its text is taken whole and adds exactly its datum. */
  lemma CallReads(rlen: nat, s: State, w: W.State, c: W.Call)
    requires Synced(s, w) && W.Legal(w, c) && !c.Fin? && Readable(rlen, c)
    ensures
      var o := Feed(rlen, s, W.Appended(w, c));
      o.r == Ok && Synced(o.st, After(w, c)) && Meanings(o.toks) + Pending(o.st.mode) == Want(s, c)
  {
    hide Feed, W.Appended, Meanings;
    if c.Key? {
      KeyReads(rlen, s, w, c.v);
      var o := Feed(rlen, s, W.Appended(w, c));
      assert Meanings(o.toks) + [] == Meanings(o.toks);
    } else {
      ValueReads(rlen, s, w, c);
    }
  }

  /** The text of a call apart from what separates it from the call before. */
  function Core(c: W.Call): string
    requires !c.Fin?
  {
    if c.Key? then c.v + ": " else Body(c)
  }

  function Head(w: W.State, c: W.Call): string {
    if c.Key? then W.LineBreak(w) else W.Separator(w)
  }

  /** Is the reader ready for the call's own text? */
  predicate Ready(s: State, c: W.Call) {
    s.mode == Idle && if c.Key? then !s.gotKey && !s.expectColon else ValExpected(s)
  }

  lemma HeadReads(rlen: nat, s: State, w: W.State, c: W.Call)
    requires Synced(s, w) && W.Legal(w, c) && !c.Fin?
    ensures
      var o := Feed(rlen, s, Head(w, c));
      o.r == Ok && Ready(o.st, c) && Meanings(o.toks) == Pending(s.mode)
  {
    hide Feed, Meanings, Pending, W.Separator, W.LineBreak;
    if c.Key? {
      FeedLineBreak(rlen, s, w);
    } else {
      FeedSeparator(rlen, s, w);
    }
  }

  lemma CoreDiverges(rlen: nat, s: State, w: W.State, c: W.Call, rest: string)
    requires Ready(s, c) && W.Legal(w, c) && !c.Fin? && !Readable(rlen, c)
    ensures
      var o := Feed(rlen, s, Core(c) + rest);
      o.toks == [] || Meaning(o.toks[0]) != Written(c)[0]
  {
    hide Feed, W.Quoted, Decodable, ValExpected;
    if c.Key? {
      FeedKey(rlen, s, c.v);
      FeedConcat(rlen, s, c.v + ": ", rest);
    } else {
      StringMeaning(rlen, s, c.LongStr?, c.v);
      assert Misses(rlen, s, W.Quoted(c.LongStr?, c.v) + rest, c.v);
    }
  }

  lemma AppendedIs(w: W.State, c: W.Call, rest: string)
    requires !c.Fin?
    ensures W.Appended(w, c) + rest == Head(w, c) + (Core(c) + rest)
  {
    hide W.LineBreak, W.Separator, W.Quoted;
    assert W.Appended(w, c) == Head(w, c) + Core(c);
  }

  /** An unreadable call: whatever follows, its datum is not the next one delivered. */
  lemma CallDiverges(rlen: nat, s: State, w: W.State, c: W.Call, rest: string)
    requires Synced(s, w) && W.Legal(w, c) && !Readable(rlen, c)
    ensures !(Want(s, c) <= Meanings(Feed(rlen, s, W.Appended(w, c) + rest).toks))
  {
    hide Feed, Synced, Meanings, Pending, W.Appended, Head, Core, W.Legal, Ready, Meaning;
    HeadReads(rlen, s, w, c);
    var o := Feed(rlen, s, Head(w, c));
    CoreDiverges(rlen, o.st, w, c, rest);
    var o' := Feed(rlen, o.st, Core(c) + rest);
    AppendedIs(w, c, rest);
    FeedConcat(rlen, s, Head(w, c), Core(c) + rest);
    MeaningsConcat(o.toks, o'.toks);
    FirstMeaning(o'.toks);
    PrefixAfter(Meanings(o.toks), Written(c), Meanings(o'.toks));
  }

  lemma FirstMeaning(ts: seq<Token>)
    ensures |Meanings(ts)| == |ts| && (ts != [] ==> Meanings(ts)[0] == Meaning(ts[0]))
  {
  }

  // ----- Whole runs -----

  /** After readable calls the reader is in step and has everything that was written. */
  lemma {:induction false} RunReads(rlen: nat, wlen: nat, calls: seq<W.Call>)
    requires Unfinished(wlen, calls) && AllReadable(rlen, wlen, calls)
    ensures
      var w, o := W.Run(wlen, calls), Feed(rlen, INIT, W.Run(wlen, calls).text);
      && |w.text| <= wlen
      && o.r == Ok && Synced(o.st, w)
      && Meanings(o.toks) + Pending(o.st.mode) == AllWritten(wlen, calls)
  {
    hide W.Step, NumValue;
    if calls == [] {
    } else {
      RunReads(rlen, wlen, calls[..|calls| - 1]);
      hide Feed, Meanings, Synced;
      StepReads(rlen, wlen, W.Run(wlen, calls[..|calls| - 1]), calls[|calls| - 1],
                AllWritten(wlen, calls[..|calls| - 1]));
    }
  }

  /** One more call, successful or not, keeps the reader in step. */
  lemma StepReads(rlen: nat, wlen: nat, w: W.State, c: W.Call, data: seq<Datum>)
    requires |w.text| <= wlen
    requires
      var (_, r) := W.Step(wlen, w, c);
      r == W.Ok ==> c != W.Fin && Readable(rlen, c)
    requires
      var o := Feed(rlen, INIT, w.text);
      o.r == Ok && Synced(o.st, w) && Meanings(o.toks) + Pending(o.st.mode) == data
    ensures
      var (w', r) := W.Step(wlen, w, c);
      var o := Feed(rlen, INIT, w'.text);
      && |w'.text| <= wlen
      && o.r == Ok && Synced(o.st, w')
      && Meanings(o.toks) + Pending(o.st.mode) == data + if r == W.Ok then Written(c) else []
  {
    hide Feed, W.Step, NumValue, Readable, Meanings, Pending, AtBoundary;
    var (w', r) := W.Step(wlen, w, c);
    var o := Feed(rlen, INIT, w.text);
    W.StepAppendsOrRollsBack(wlen, w, c);
    StepFlags(wlen, w, c);
    hide W.Appended, W.Legal;
    if r == W.Ok {
      CallReads(rlen, o.st, w, c);
      FeedConcat(rlen, INIT, w.text, W.Appended(w, c));
      var o' := Feed(rlen, o.st, W.Appended(w, c));
      MeaningsConcat(o.toks, o'.toks);
      assert Meanings(o.toks) + Meanings(o'.toks) + Pending(o'.st.mode) ==
             Meanings(o.toks) + (Meanings(o'.toks) + Pending(o'.st.mode));
      assert data + Written(c) == Meanings(o.toks) + Want(o.st, c);
    } else {
      assert w'.text == w.text;
      assert data + [] == data;
    }
  }

  lemma StepFlags(wlen: nat, w: W.State, c: W.Call)
    requires w.isFirstVal ==> w.gotKey
    ensures
      var (w', r) := W.Step(wlen, w, c);
      if r == W.Ok && c != W.Fin then w' == After(w, c).(text := w'.text)
      else w' == w.(text := w'.text) || (w.gotKey && w' == w.(text := w'.text, isFirstVal := false))
  {
  }

  /** After an unreadable call the reader never has everything that was written. */
  lemma {:induction false} RunDiverges(rlen: nat, wlen: nat, calls: seq<W.Call>, rest: string)
    requires Unfinished(wlen, calls) && !AllReadable(rlen, wlen, calls)
    ensures !(AllWritten(wlen, calls) <= Meanings(Feed(rlen, INIT, W.Run(wlen, calls).text + rest).toks))
  {
    hide Feed, W.Step, Meanings, NumValue, Synced, W.Appended, Pending;
    var before, c := calls[..|calls| - 1], calls[|calls| - 1];
    var w := W.Run(wlen, before);
    if AllReadable(rlen, wlen, before) {
      RunReads(rlen, wlen, before);
      W.StepAppendsOrRollsBack(wlen, w, c);
      hide W.Legal, Readable;
      var o, t := Feed(rlen, INIT, w.text), W.Appended(w, c) + rest;
      CallDiverges(rlen, o.st, w, c, rest);
      assert W.Run(wlen, calls).text + rest == w.text + t;
      FeedConcat(rlen, INIT, w.text, t);
      MeaningsConcat(o.toks, Feed(rlen, o.st, t).toks);
      assert AllWritten(wlen, calls) == Meanings(o.toks) + Want(o.st, c);
      PrefixAfter(Meanings(o.toks), Want(o.st, c), Meanings(Feed(rlen, o.st, t).toks));
    } else {
      W.CallAppendsOrRollsBack(wlen, calls);
      var grown := if W.LastResult(wlen, calls) == W.Ok then W.Appended(w, c) else "";
      RunDiverges(rlen, wlen, before, grown + rest);
      assert W.Run(wlen, calls).text + rest == w.text + (grown + rest);
    }
  }

  lemma PrefixAfter(a: seq<Datum>, b: seq<Datum>, c: seq<Datum>)
    ensures a + b <= a + c <==> b <= c
  {
    if a + b <= a + c {
      assert forall i | 0 <= i < |b| :: b[i] == (a + b)[|a| + i] == (a + c)[|a| + i] == c[i];
    }
  }

  /**
   The round trip over whole runs. Take any sequence of writer calls, some of
   which may fail and roll back, up to a first successful `wdb_fin`. The reader
   takes every character, reports the end at the final NUL and delivers exactly
   the data of the successful calls in order, if and only if every successful
   call was readable.
   */
  lemma RoundTrip(rlen: nat, wlen: nat, calls: seq<W.Call>)
    requires Unfinished(wlen, calls) && W.LastResult(wlen, calls + [W.Fin]) == W.Ok
    ensures
      var text := W.Run(wlen, calls + [W.Fin]).text;
      var o := Feed(rlen, INIT, text);
      (&& text != [] && Feed(rlen, INIT, text[..|text| - 1]).r == Ok
       && o.r == Fin && Meanings(o.toks) == AllWritten(wlen, calls))
      <==> AllReadable(rlen, wlen, calls)
  {
    hide Feed, W.Step, NumValue, Synced, Meanings, AtBoundary;
    assert (calls + [W.Fin])[..|calls|] == calls;
    W.CallAppendsOrRollsBack(wlen, calls + [W.Fin]);
    var w, text := W.Run(wlen, calls), W.Run(wlen, calls + [W.Fin]).text;
    assert text == w.text + "\n\0";
    hide W.Run, W.LastResult, W.Legal, W.Appended;
    if AllReadable(rlen, wlen, calls) {
      RunReads(rlen, wlen, calls);
      var o := Feed(rlen, INIT, w.text);
      SyncedAtBoundary(o.st, w);
      FeedEnd(rlen, o.st);
      assert text[..|text| - 1] == w.text + "\n";
      FeedConcat(rlen, INIT, w.text, "\n");
      FeedConcat(rlen, INIT, w.text, "\n\0");
      MeaningsConcat(o.toks, Feed(rlen, o.st, "\n\0").toks);
    } else {
      RunDiverges(rlen, wlen, calls, "\n\0");
    }
  }

  lemma SyncedAtBoundary(s: State, w: W.State)
    requires Synced(s, w)
    ensures AtBoundary(s)
  {
  }

  lemma FeedEnd(mlen: nat, s: State)
    requires AtBoundary(s)
    ensures Feed(mlen, s, "\n").r == Ok
    ensures
      var o := Feed(mlen, s, "\n\0");
      o.r == Fin && Meanings(o.toks) == Pending(s.mode)
  {
    StepSeparates(mlen, s, '\n');
    var s1 := Step(mlen, s, '\n').next;
    assert Step(mlen, s1, '\0').r == Fin && Step(mlen, s1, '\0').tok == None;
    hide Step;
    FeedSingle(mlen, s, '\n');
    FeedSingle(mlen, s1, '\0');
    hide Feed;
    FeedConcat(mlen, s, "\n", "\0");
    assert "\n" + "\0" == "\n\0";
    MeaningsConcat(Feed(mlen, s, "\n").toks, []);
  }
}
