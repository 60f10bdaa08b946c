/**
 Strings through the key/value writer and reader: exactly which strings come
 back, for both the quoted and the angle-bracketed form.
 */
module DbStrings {
  import opened Chars
  import opened DbReader
  import W = DbWriter
  import opened Options

  /** Does the reader decode what the writer wrote for `v`, given enough room? */
  predicate Decodable(long: bool, v: string) {
    forall i | 0 <= i < |v| && v[i] == '\\' :: long && i + 1 < |v| && v[i + 1] == '<'
  }

  /** The reader is inside a string, with `buf` decoded and, if `esc`, a backslash just read. */
  ghost predicate Inside(s: State, long: bool, buf: string, esc: bool) {
    if long then s.mode.InLong? && s.mode.buf == buf && s.mode.esc == esc && !s.mode.skip
    else s.mode == InStr(buf, esc)
  }

  /** What a character read inside a string contributes, if it is not a backslash or a delimiter. */
  function Decoded(esc: bool, ch: char): char {
    if esc then Unescape(ch) else ch
  }

  function Delimiter(long: bool): char {
    if long then '>' else '\"'
  }

  /** What a printable character does inside a string, other than ending it. */
  lemma StepInside(mlen: nat, s: State, long: bool, buf: string, esc: bool, ch: char)
    requires Inside(s, long, buf, esc)
    requires !IsControl(ch) || ch == '\t' || (long && ch == '\n')
    requires esc || ch != Delimiter(long)
    ensures
      var x := Step(mlen, s, ch);
      && x.tok == None
      && x.next == s.(mode := x.next.mode)
      && if !esc && ch == '\\' then x.r == Ok && Inside(x.next, long, buf, true)
         else if |buf| < mlen then x.r == Ok && Inside(x.next, long, buf + [Decoded(esc, ch)], false)
         else x.r == Syntax
    ensures long && !esc && ch == '\n' && |buf| < mlen ==> !Step(mlen, s, ch).next.mode.keep
  {
    if long {
      assert Step(mlen, s, ch) == NextLong(mlen, s, buf, esc, false, s.mode.keep, ch);
    } else {
      assert Step(mlen, s, ch) == NextStr(mlen, s, buf, esc, ch);
    }
    hide Step;
  }

  /** The delimiter ends the string; an angle-bracketed one may lose its last newline. */
  lemma StepClose(mlen: nat, s: State, long: bool, buf: string)
    requires Inside(s, long, buf, false)
    ensures
      var x := Step(mlen, s, Delimiter(long));
      var text := if long && buf != [] && buf[|buf| - 1] == '\n' && !s.mode.keep then buf[..|buf| - 1] else buf;
      x == if |text| < mlen then EndString(s, text) else Plain(s, Syntax)
  {
    if long {
      assert Step(mlen, s, '>') == NextLong(mlen, s, buf, false, false, s.mode.keep, '>');
    } else {
      assert Step(mlen, s, '\"') == NextStr(mlen, s, buf, false, '\"');
    }
    hide Step;
  }

  /** Feeding `text` goes without a token from one place inside a string to another. */
  ghost predicate Reads(mlen: nat, s: State, text: string, long: bool, buf: string) {
    var o := Feed(mlen, s, text);
    o.r == Ok && o.toks == [] && Inside(o.st, long, buf, false) && o.st == s.(mode := o.st.mode)
  }

  lemma ReadsThen(mlen: nat, s: State, a: string, long: bool, buf: string, b: string, buf': string)
    requires Reads(mlen, s, a, long, buf)
    requires Reads(mlen, Feed(mlen, s, a).st, b, long, buf')
    ensures Reads(mlen, s, a + b, long, buf')
  {
    hide Feed;
    FeedConcat(mlen, s, a, b);
  }

  lemma ReadsChar(mlen: nat, s: State, long: bool, buf: string, c: char)
    requires Inside(s, long, buf, false) && |buf| < mlen
    requires W.Writable(c) && c != '\\'
    ensures Reads(mlen, s, W.EncodeChar(long, c), long, buf + [c])
  {
    var e := W.EncodeChar(long, c);
    StepInside(mlen, s, long, buf, false, e[0]);
    var s1 := Step(mlen, s, e[0]).next;
    if |e| == 2 {
      StepInside(mlen, s1, long, buf, true, e[1]);
      hide Step;
      assert e[1..][1..] == [];
      assert Feed(mlen, s1, e[1..]) == Outcome(Step(mlen, s1, e[1]).next, [], Ok);
    } else {
      hide Step;
      assert e[1..] == [];
    }
  }

  /** A backslash and the `<` after it, written as three characters. */
  lemma ReadsBackslash(mlen: nat, s: State, buf: string)
    requires Inside(s, true, buf, false) && |buf| + 1 < mlen
    ensures Reads(mlen, s, "\\\\<", true, buf + "\\<")
  {
    var t := "\\\\<";
    StepInside(mlen, s, true, buf, false, t[0]);
    var s1 := Step(mlen, s, t[0]).next;
    StepInside(mlen, s1, true, buf, true, t[1]);
    var s2 := Step(mlen, s1, t[1]).next;
    StepInside(mlen, s2, true, buf + [t[1]], false, t[2]);
    hide Step;
    assert buf + [t[1]] + [t[2]] == buf + "\\<";
    assert t[1..][1..][1..] == [];
  }

  /** How many characters of a decodable string are read back first: a backslash takes its `<` along. */
  function HeadLen(v: string): nat {
    if v != [] && v[0] == '\\' then 2 else 1
  }

  lemma TailDecodable(long: bool, v: string, n: nat)
    requires n <= |v| && W.AllWritable(v) && Decodable(long, v)
    ensures W.AllWritable(v[n..]) && Decodable(long, v[n..])
  {
    forall i | 0 <= i < |v| - n && v[n..][i] == '\\'
      ensures long && i + 1 < |v| - n && v[n..][i + 1] == '<'
    {
      assert v[n + i] == '\\';
    }
  }

  lemma HeadSplit(long: bool, v: string)
    requires v != [] && W.AllWritable(v) && Decodable(long, v)
    ensures
      var n := HeadLen(v);
      && n <= |v|
      && W.Encode(long, v) == (if n == 2 then "\\\\<" else W.EncodeChar(long, v[0])) + W.Encode(long, v[n..])
  {
    var e0 := W.EncodeChar(long, v[0]);
    assert W.Encode(long, v) == e0 + W.Encode(long, v[1..]);
    if v[0] == '\\' {
      var e1 := W.EncodeChar(long, v[1]);
      assert v[1..][1..] == v[2..];
      assert W.Encode(long, v[1..]) == e1 + W.Encode(long, v[2..]);
      assert e0 == "\\" && e1 == "\\<";
      hide W.Encode, W.EncodeChar;
      assert e0 + (e1 + W.Encode(long, v[2..])) == e0 + e1 + W.Encode(long, v[2..]);
      assert e0 + e1 == "\\\\<";
    }
  }

  lemma ReadsHead(mlen: nat, s: State, long: bool, buf: string, v: string)
    requires Inside(s, long, buf, false)
    requires v != [] && W.AllWritable(v) && Decodable(long, v) && |buf| + |v| <= mlen
    ensures
      var n := HeadLen(v);
      Reads(mlen, s, if n == 2 then "\\\\<" else W.EncodeChar(long, v[0]), long, buf + v[..n])
  {
    hide Reads, W.EncodeChar;
    if v[0] == '\\' {
      ReadsBackslash(mlen, s, buf);
      assert v[..2] == "\\<";
    } else {
      ReadsChar(mlen, s, long, buf, v[0]);
      assert v[..1] == [v[0]];
    }
  }

  lemma ReadsNone(mlen: nat, s: State, long: bool, buf: string)
    requires Inside(s, long, buf, false)
    ensures Reads(mlen, s, "", long, buf)
  {
  }

  lemma ReadsInside(mlen: nat, s: State, text: string, long: bool, buf: string)
    requires Reads(mlen, s, text, long, buf)
    ensures Inside(Feed(mlen, s, text).st, long, buf, false)
  {
  }

  /** The encoded characters of a decodable string are read back as the string. */
  lemma {:induction false} ReadsBody(mlen: nat, s: State, long: bool, buf: string, v: string)
    requires Inside(s, long, buf, false)
    requires W.AllWritable(v) && Decodable(long, v) && |buf| + |v| <= mlen
    ensures Reads(mlen, s, W.Encode(long, v), long, buf + v)
    decreases |v|
  {
    hide Reads, Feed, Inside, W.EncodeChar, Decodable, W.AllWritable;
    if v == [] {
      assert buf + v == buf && W.Encode(long, v) == "";
      ReadsNone(mlen, s, long, buf);
    } else {
      HeadSplit(long, v);
      hide W.Encode;
      ReadsHead(mlen, s, long, buf, v);
      var n := HeadLen(v);
      TailDecodable(long, v, n);
      var head := if n == 2 then "\\\\<" else W.EncodeChar(long, v[0]);
      ReadsInside(mlen, s, head, long, buf + v[..n]);
      ReadsBody(mlen, Feed(mlen, s, head).st, long, buf + v[..n], v[n..]);
      assert buf + v[..n] + v[n..] == buf + v;
      ReadsThen(mlen, s, head, long, buf + v[..n], W.Encode(long, v[n..]), buf + v);
    }
  }

  // ----- Strings that do not come back -----

  /** Whatever follows, the first token delivered is not the string `v`. */
  ghost predicate Misses(mlen: nat, s: State, t: string, v: string) {
    var o := Feed(mlen, s, t);
    o.toks == [] || o.toks[0] != Str(v)
  }

  lemma MissesStep(mlen: nat, s: State, t: string, v: string)
    requires t != []
    requires
      var x := Step(mlen, s, t[0]);
      && (x.tok.Some? ==> x.tok.value != Str(v))
      && (x.tok.None? && x.r == Ok ==> Misses(mlen, x.next, t[1..], v))
    ensures Misses(mlen, s, t, v)
  {
    hide Step;
  }

  lemma MissesAfter(mlen: nat, s: State, a: string, long: bool, buf: string, b: string, v: string)
    requires Reads(mlen, s, a, long, buf) && Misses(mlen, Feed(mlen, s, a).st, b, v)
    ensures Misses(mlen, s, a + b, v)
  {
    hide Feed;
    FeedConcat(mlen, s, a, b);
  }

  lemma StepControl(mlen: nat, s: State, long: bool, buf: string, esc: bool, ch: char)
    requires Inside(s, long, buf, esc)
    requires IsControl(ch) && ch != '\t' && !(long && ch == '\n')
    ensures Step(mlen, s, ch) == Plain(s, Syntax)
  {
  }

  /** Once a decoded character differs from `v`, no later delimiter can deliver `v`. */
  lemma {:induction false} Mismatched(mlen: nat, s: State, long: bool, buf: string, esc: bool, t: string, v: string, p: nat)
    requires Inside(s, long, buf, esc)
    requires p < |buf| && p < |v| && buf[p] != v[p]
    ensures Misses(mlen, s, t, v)
    decreases |t|
  {
    if t != [] {
      var ch := t[0];
      if IsControl(ch) && ch != '\t' && !(long && ch == '\n') {
        StepControl(mlen, s, long, buf, esc, ch);
      } else if !esc && ch == Delimiter(long) {
        StepClose(mlen, s, long, buf);
      } else {
        StepInside(mlen, s, long, buf, esc, ch);
        hide Step;
        var x := Step(mlen, s, ch);
        if x.r == Ok {
          var buf' := if !esc && ch == '\\' then buf else buf + [Decoded(esc, ch)];
          Mismatched(mlen, x.next, long, buf', !esc && ch == '\\', t[1..], v, p);
        }
      }
      hide Step;
      MissesStep(mlen, s, t, v);
    }
  }

  /** A character that does not fit, or that decodes to something else than `v` has there. */
  lemma WrongChar(mlen: nat, s: State, long: bool, esc: bool, t: string, v: string, j: nat)
    requires j < |v| && Inside(s, long, v[..j], esc) && t != []
    requires !IsControl(t[0]) || t[0] == '\t' || (long && t[0] == '\n')
    requires esc || (t[0] != Delimiter(long) && t[0] != '\\')
    requires j >= mlen || Decoded(esc, t[0]) != v[j]
    ensures Misses(mlen, s, t, v)
  {
    StepInside(mlen, s, long, v[..j], esc, t[0]);
    hide Step;
    if j < mlen {
      Mismatched(mlen, Step(mlen, s, t[0]).next, long, v[..j] + [Decoded(esc, t[0])], false, t[1..], v, j);
    }
    MissesStep(mlen, s, t, v);
  }

  /** An early end: fewer characters than `v` has, or no room for the NUL. */
  lemma ClosedEarly(mlen: nat, s: State, long: bool, t: string, v: string, j: nat)
    requires j <= |v| && Inside(s, long, v[..j], false)
    requires t != [] && t[0] == Delimiter(long)
    requires j < |v| || (!long && j >= mlen)
    ensures Misses(mlen, s, t, v)
  {
    StepClose(mlen, s, long, v[..j]);
    hide Step;
    MissesStep(mlen, s, t, v);
  }

  /** The closing delimiter, reached with fewer characters than `v` has or without room. */
  lemma ClosesWrong(mlen: nat, s: State, long: bool, v: string, j: nat, rest: string)
    requires j <= |v| && Inside(s, long, v[..j], false)
    requires j < |v| || |v| >= mlen
    ensures Misses(mlen, s, W.Close(long) + rest, v)
  {
    var t := W.Close(long) + rest;
    if long {
      StepInside(mlen, s, true, v[..j], false, '\n');
      hide Step;
      var x := Step(mlen, s, t[0]);
      if x.r == Ok {
        var buf := v[..j] + "\n";
        StepClose(mlen, x.next, true, buf);
        assert buf[..|buf| - 1] == v[..j];
        MissesStep(mlen, x.next, t[1..], v);
      }
      MissesStep(mlen, s, t, v);
    } else {
      ClosedEarly(mlen, s, long, t, v, j);
    }
  }

  /** What is still to come for `v` from position `c` on. */
  function Stream(long: bool, v: string, c: nat, rest: string): string
    requires c <= |v|
  {
    W.Encode(long, v[c..]) + (W.Close(long) + rest)
  }

  lemma StreamHead(long: bool, v: string, c: nat, rest: string)
    requires c < |v| && W.AllWritable(v)
    ensures Stream(long, v, c, rest) == W.EncodeChar(long, v[c]) + Stream(long, v, c + 1, rest)
  {
    assert v[c..][1..] == v[c + 1..];
  }

  /**
   The decoder has produced `v[..j]` from the encoding of `v[..c]`: in step, or
   behind because it paired backslashes. If it is behind, or something
   undecodable or too long is still to come, it never delivers `v`.
   */
  lemma {:induction false} Strays(mlen: nat, s: State, long: bool, v: string, j: nat, c: nat, rest: string)
    requires j <= c <= |v| && W.AllWritable(v) && Inside(s, long, v[..j], false)
    requires forall k | j <= k < c :: v[k] == '\\'
    requires j < c || !Decodable(long, v[c..]) || |v| >= mlen
    ensures Misses(mlen, s, Stream(long, v, c, rest), v)
    decreases |v| - c
  {
    hide Misses, Feed, Step, Reads, W.EncodeChar;
    if c == |v| {
      assert Stream(long, v, c, rest) == W.Close(long) + rest;
      ClosesWrong(mlen, s, long, v, j, rest);
    } else if v[c] == '\\' {
      StraysAtBackslash(mlen, s, long, v, j, c, rest);
    } else if j >= mlen {
      NoRoom(mlen, s, long, v, j, c, rest);
    } else {
      var e, t1 := W.EncodeChar(long, v[c]), Stream(long, v, c + 1, rest);
      StreamHead(long, v, c, rest);
      ReadsChar(mlen, s, long, v[..j], v[c]);
      var buf := v[..j] + [v[c]];
      ReadsInside(mlen, s, e, long, buf);
      hide W.Encode, Inside;
      var s' := Feed(mlen, s, e).st;
      if j == c {
        assert buf == v[..c + 1];
        PlainDecodable(long, v, c);
        Strays(mlen, s', long, v, c + 1, c + 1, rest);
      } else {
        Mismatched(mlen, s', long, buf, false, t1, v, j);
      }
      MissesAfter(mlen, s, e, long, buf, t1, v);
    }
  }

  lemma PlainDecodable(long: bool, v: string, c: nat)
    requires c < |v| && v[c] != '\\'
    ensures Decodable(long, v[c + 1..]) ==> Decodable(long, v[c..])
  {
    if Decodable(long, v[c + 1..]) {
      forall i | 0 <= i < |v| - c && v[c..][i] == '\\'
        ensures long && i + 1 < |v| - c && v[c..][i + 1] == '<'
      {
        assert v[c + 1..][i - 1] == '\\';
      }
    }
  }

  /** A full buffer takes no other character than a backslash. */
  lemma NoRoom(mlen: nat, s: State, long: bool, v: string, j: nat, c: nat, rest: string)
    requires j <= c < |v| && W.AllWritable(v) && Inside(s, long, v[..j], false) && v[c] != '\\' && j >= mlen
    ensures Misses(mlen, s, Stream(long, v, c, rest), v)
  {
    StreamHead(long, v, c, rest);
    hide Misses, W.Encode;
    var t, e := Stream(long, v, c, rest), W.EncodeChar(long, v[c]);
    assert t[0] == e[0];
    if |e| == 1 {
      WrongChar(mlen, s, long, false, t, v, j);
    } else {
      assert t[1] == e[1];
      StepInside(mlen, s, long, v[..j], false, t[0]);
      hide Step;
      WrongChar(mlen, Step(mlen, s, t[0]).next, long, true, t[1..], v, j);
      MissesStep(mlen, s, t, v);
    }
  }

  lemma {:induction false} StraysAtBackslash(mlen: nat, s: State, long: bool, v: string, j: nat, c: nat, rest: string)
    requires j <= c < |v| && W.AllWritable(v) && Inside(s, long, v[..j], false)
    requires forall k | j <= k <= c :: v[k] == '\\'
    requires j < c || !Decodable(long, v[c..]) || |v| >= mlen
    ensures Misses(mlen, s, Stream(long, v, c, rest), v)
    decreases |v| - c, 0
  {
    var t, t1 := Stream(long, v, c, rest), Stream(long, v, c + 1, rest);
    StreamHead(long, v, c, rest);
    assert t == "\\" + t1;
    StepInside(mlen, s, long, v[..j], false, '\\');
    hide Step, Feed;
    var s1 := Step(mlen, s, '\\').next;
    if c + 1 == |v| {
      assert t1 == W.Close(long) + rest;
      WrongChar(mlen, s1, long, true, t1, v, j);
    } else {
      StreamHead(long, v, c + 1, rest);
      var e := W.EncodeChar(long, v[c + 1]);
      if e[0] != '\\' || j >= mlen {
        WrongChar(mlen, s1, long, true, t1, v, j);
      } else {
        StepInside(mlen, s1, long, v[..j], true, '\\');
        var s2 := Step(mlen, s1, '\\').next;
        assert v[..j] + ['\\'] == v[..j + 1];
        StraysPaired(mlen, s2, long, v, j, c, rest);
        MissesStep(mlen, s1, t1, v);
      }
    }
    MissesStep(mlen, s, t, v);
  }

  lemma EncodedBackslash(long: bool, ch: char)
    requires W.Writable(ch) && W.EncodeChar(long, ch)[0] == '\\'
    ensures
      var e := W.EncodeChar(long, ch);
      if |e| == 1 then ch == '\\'
      else !IsControl(e[1]) && e[1] != '\\' && ch != '\\' && (e[1] == ch <==> ch == Delimiter(long) || ch == '<')
           && (e[1] == '<' ==> long && ch == '<') && (ch == Delimiter(long) ==> e[1] == ch)
  {
  }

  /** Two backslashes have been paired; the second began the encoding of `v[c + 1]`. */
  lemma {:induction false} StraysPaired(mlen: nat, s: State, long: bool, v: string, j: nat, c: nat, rest: string)
    requires j <= c && c + 1 < |v| && W.AllWritable(v) && Inside(s, long, v[..j + 1], false)
    requires forall k | j <= k <= c :: v[k] == '\\'
    requires W.EncodeChar(long, v[c + 1])[0] == '\\'
    requires j < c || !Decodable(long, v[c..]) || |v| >= mlen
    ensures Misses(mlen, s, Stream(long, v, c + 1, rest)[1..], v)
    decreases |v| - c - 1, 2
  {
    hide Misses, Step, Reads, Inside;
    var t := Stream(long, v, c + 1, rest)[1..];
    StreamHead(long, v, c + 1, rest);
    EncodedBackslash(long, v[c + 1]);
    var e, t2 := W.EncodeChar(long, v[c + 1]), Stream(long, v, c + 2, rest);
    hide W.Encode, Stream, W.EncodeChar, Decodable;
    if |e| == 1 {
      assert t == t2;
      Strays(mlen, s, long, v, j + 1, c + 2, rest);
    } else {
      assert t == [e[1]] + t2;
      StraysEscaped(mlen, s, long, v, j, c, rest);
    }
  }

  /** What the paired backslash was to escape stands alone now. */
  lemma {:induction false} StraysEscaped(mlen: nat, s: State, long: bool, v: string, j: nat, c: nat, rest: string)
    requires j <= c && c + 1 < |v| && W.AllWritable(v) && Inside(s, long, v[..j + 1], false)
    requires forall k | j <= k <= c :: v[k] == '\\'
    requires W.EncodeChar(long, v[c + 1])[0] == '\\' && |W.EncodeChar(long, v[c + 1])| == 2
    requires j < c || !Decodable(long, v[c..]) || |v| >= mlen
    ensures Misses(mlen, s, [W.EncodeChar(long, v[c + 1])[1]] + Stream(long, v, c + 2, rest), v)
    decreases |v| - c - 1, 1
  {
    EncodedBackslash(long, v[c + 1]);
    hide Misses, Step, Reads, Inside, W.Encode, Stream, W.EncodeChar, Decodable;
    var e, t2 := W.EncodeChar(long, v[c + 1]), Stream(long, v, c + 2, rest);
    if e[1] == Delimiter(long) {
      ClosedEarly(mlen, s, long, [e[1]] + t2, v, j + 1);
    } else if j == c && e[1] == '<' && j + 1 < mlen {
      PairedAngle(mlen, s, long, v, c, rest);
    } else {
      WrongChar(mlen, s, long, false, [e[1]] + t2, v, j + 1);
    }
  }

  /** A backslash before `<` comes back; what follows must stray. */
  lemma {:induction false} PairedAngle(mlen: nat, s: State, long: bool, v: string, c: nat, rest: string)
    requires long && c + 1 < |v| && W.AllWritable(v) && Inside(s, long, v[..c + 1], false)
    requires v[c] == '\\' && v[c + 1] == '<' && c + 1 < mlen
    requires !Decodable(long, v[c..]) || |v| >= mlen
    ensures Misses(mlen, s, "<" + Stream(long, v, c + 2, rest), v)
    decreases |v| - c - 1, 0
  {
    hide Misses, Reads, W.Encode;
    StepInside(mlen, s, long, v[..c + 1], false, '<');
    hide Step;
    assert v[..c + 1] + ['<'] == v[..c + 2];
    PairDecodable(v, c);
    hide Decodable;
    Strays(mlen, Step(mlen, s, '<').next, long, v, c + 2, c + 2, rest);
    var t := "<" + Stream(long, v, c + 2, rest);
    assert t[1..] == Stream(long, v, c + 2, rest);
    MissesStep(mlen, s, t, v);
  }

  lemma PairDecodable(v: string, c: nat)
    requires c + 1 < |v| && v[c] == '\\' && v[c + 1] == '<'
    ensures Decodable(true, v[c + 2..]) ==> Decodable(true, v[c..])
  {
    if Decodable(true, v[c + 2..]) {
      forall i | 0 <= i < |v| - c && v[c..][i] == '\\'
        ensures i + 1 < |v| - c && v[c..][i + 1] == '<'
      {
        if i > 0 {
          assert v[c + 2..][i - 2] == '\\';
        }
      }
    }
  }

  // ----- Whole strings -----

  lemma ReadsOpen(mlen: nat, s: State, long: bool)
    requires s.mode == Idle && ValExpected(s)
    ensures
      var o := Feed(mlen, s, W.Open(long));
      o.r == Ok && o.toks == [] && Inside(o.st, long, "", false) && o.st == StartValue(s, o.st.mode)
  {
    if long {
      var s1 := StartValue(s, InLong("", false, true, false));
      assert Step(mlen, s, '<') == Plain(s1, Ok);
      assert Step(mlen, s1, '\n') == Plain(StartValue(s, InLong("", false, false, true)), Ok);
      hide Step;
      assert W.Open(long)[1..] == "\n" && "\n"[1..] == "";
    } else {
      assert Step(mlen, s, '\"') == Plain(StartValue(s, InStr("", false)), Ok);
      hide Step;
      assert W.Open(long)[1..] == "";
    }
  }

  lemma ReadsClose(mlen: nat, s: State, long: bool, v: string)
    requires Inside(s, long, v, false) && |v| < mlen
    ensures Feed(mlen, s, W.Close(long)) ==
            Outcome(s.(mode := Idle, expectColon := false, gotKey := true, gotFirstVal := true), [Str(v)], Ok)
  {
    if long {
      StepInside(mlen, s, true, v, false, '\n');
      var s1 := Step(mlen, s, '\n').next;
      StepClose(mlen, s1, true, v + "\n");
      hide Step;
      assert (v + "\n")[..|v|] == v;
      assert "\n>"[1..] == ">" && ">"[1..] == "";
    } else {
      StepClose(mlen, s, false, v);
      hide Step;
      assert "\""[1..] == "";
    }
  }

  /** The reader's state after a string value read from the idle state `s`. */
  function AfterString(s: State): State {
    s.(mode := Idle, expectColon := false, gotKey := true, gotFirstVal := true)
  }

  /**
   Strings invert exactly when they can: where a value is expected, the text
   written for `v` is read back as the one string `v` if `v` is decodable and
   fits with its NUL. Otherwise `v` is never delivered, whatever text follows.
   */
  lemma StringMeaning(mlen: nat, s: State, long: bool, v: string)
    requires s.mode == Idle && ValExpected(s) && W.AllWritable(v)
    ensures Decodable(long, v) && |v| < mlen ==>
              Feed(mlen, s, W.Quoted(long, v)) == Outcome(AfterString(s), [Str(v)], Ok)
    ensures !(Decodable(long, v) && |v| < mlen) ==>
              forall rest: string :: Misses(mlen, s, W.Quoted(long, v) + rest, v)
  {
    hide Feed;
    ReadsOpen(mlen, s, long);
    var s1 := Feed(mlen, s, W.Open(long)).st;
    if Decodable(long, v) && |v| < mlen {
      ReadsBody(mlen, s1, long, "", v);
      assert "" + v == v;
      var s2 := Feed(mlen, s1, W.Encode(long, v)).st;
      ReadsClose(mlen, s2, long, v);
      FeedConcat(mlen, s, W.Open(long), W.Encode(long, v));
      FeedConcat(mlen, s, W.Open(long) + W.Encode(long, v), W.Close(long));
    } else {
      forall rest: string
        ensures Misses(mlen, s, W.Quoted(long, v) + rest, v)
      {
        assert v[0..] == v;
        Strays(mlen, s1, long, v, 0, 0, rest);
        assert W.Quoted(long, v) + rest == W.Open(long) + Stream(long, v, 0, rest);
        FeedConcat(mlen, s, W.Open(long), Stream(long, v, 0, rest));
      }
    }
  }

  /**
   Why no reader could do better with backslashes: a newline and a backslash
   before an `n` are written alike, and the newline is what comes back.
   */
  lemma BackslashLost(mlen: nat, s: State)
    requires s.mode == Idle && ValExpected(s) && mlen > 1
    ensures W.Quoted(false, "\\n") == W.Quoted(false, "\n")
    ensures Feed(mlen, s, W.Quoted(false, "\\n")) == Outcome(AfterString(s), [Str("\n")], Ok)
  {
    hide Feed;
    assert "\\n"[1..] == "n" && "n"[1..] == "" && "\n"[1..] == "";
    assert W.Encode(false, "n") == "n";
    assert W.Encode(false, "\\n") == "\\n" == W.Encode(false, "\n");
    StringMeaning(mlen, s, false, "\n");
  }
}
