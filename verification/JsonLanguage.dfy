/**
 The language of the JSON reader of `src/rjson.c`, exactly: which grammatical
 objects it takes, in any layout, and which events it reports for them.
 */
module JsonLanguage {
  import opened Chars
  import opened JsonGrammar
  import opened JsonLevels
  import opened JsonLookahead
  import N = JsonNumbers
  import opened JsonReader
  import opened JsonReading
  import S = JsonSoundness
  import opened Options

  // ----- What is taken -----

  /** The character that the first character or escape of a string stands for, if the reader knows it. */
  function FirstChar(body: string): Option<char> {
    var n := StrItem(body);
    if n == 1 then if IsControl(body[0]) then None else Some(body[0])
    else if n == 2 then Unescape(body[1])
    else None
  }

  /** What stands between the quotes of a string, decoded; escapes by number and characters above 126 are not. */
  function Decode(body: string): Option<string>
    decreases |body|
  {
    if body == [] then Some("")
    else if StrItem(body) == 0 then None
    else
      var c, rest := FirstChar(body), Decode(body[StrItem(body)..]);
      if c.None? || rest.None? then None else Some([c.value] + rest.value)
  }

  /** A quoted string as a client gets it. */
  function Content(t: string): Option<string> {
    if |t| < 2 then None else Decode(t[1..|t| - 1])
  }

  predicate TakesStr(mlen: nat, t: string) {
    Content(t).Some? && |Content(t).value| < mlen
  }

  /** Is the value taken, with room for `room` more open brackets? */
  predicate Takes(mlen: nat, room: int, v: Val) {
    match v
    case StrVal(t) => TakesStr(mlen, t)
    case NumVal(n) => N.Readable(n)
    case WordVal(_) => true
    case ObjVal(ms, _) => room > 0 && TakesMembers(mlen, room - 1, ms)
    case ArrVal(es) => room > 0 && TakesElems(mlen, room - 1, es)
    case EmptyArr(_) => false
  }

  predicate TakesMembers(mlen: nat, room: int, ms: Members) {
    match ms
    case NoMembers => true
    case Members(init, m) => TakesMembers(mlen, room, init) && TakesMember(mlen, room, m)
  }

  predicate TakesMember(mlen: nat, room: int, m: Member) {
    TakesStr(mlen, m.key) && Takes(mlen, room, m.v)
  }

  predicate TakesElems(mlen: nat, room: int, es: Elems) {
    match es
    case OneElem(e) => Takes(mlen, room, e.v)
    case Elems(init, e) => TakesElems(mlen, room, init) && Takes(mlen, room, e.v)
  }

  // ----- What is reported -----

  function Repeated(e: Option<Event>, n: nat): seq<Event> {
    if n == 0 then [] else Delivered(e) + Repeated(e, n - 1)
  }

  function StrOf(t: string): string {
    if Content(t).Some? then Content(t).value else ""
  }

  function NumOf(n: Number): real {
    if IsNumber(n) then N.Reported(n) else 0.0
  }

  /** What a client still sees before the next key. */
  function Shown(ms: Members): Option<Event> {
    if ms.NoMembers? then Some(ObjStart) else None
  }

  function TailEvents(ms: Members, tail: Tail): seq<Event> {
    if tail.Tail? then Repeated(Shown(ms), |tail.blank|) else []
  }

  /** The events of a value: every blank after `{` or after a key reports the event before it once more. */
  function Events(v: Val): seq<Event>
    decreases v
  {
    match v
    case StrVal(t) => [Str(StrOf(t))]
    case NumVal(n) => [Num(NumOf(n))]
    case WordVal(w) => [WordEvent(w)]
    case ObjVal(ms, tail) => [ObjStart] + (MembersEvents(ms) + TailEvents(ms, tail)) + [ObjEnd]
    case ArrVal(es) => [ArrStart] + ElemsEvents(es) + [ArrEnd]
    case EmptyArr(_) => [ArrStart, ArrEnd]
  }

  function MembersEvents(ms: Members): seq<Event>
    decreases ms
  {
    match ms
    case NoMembers => []
    case Members(init, m) => MembersEvents(init) + MemberEvents(Shown(init), m)
  }

  function KeyEvents(shown: Option<Event>, m: Member): seq<Event> {
    Repeated(shown, |m.w1|) + [Str(StrOf(m.key))] + Repeated(Some(Str(StrOf(m.key))), |m.w2|)
  }

  function MemberEvents(shown: Option<Event>, m: Member): seq<Event>
    decreases m
  {
    KeyEvents(shown, m) + Events(m.v)
  }

  function ElemsEvents(es: Elems): seq<Event>
    decreases es
  {
    match es
    case OneElem(e) => Events(e.v)
    case Elems(init, e) => ElemsEvents(init) + Events(e.v)
  }

  // ----- Blanks -----

  /** A reader between tokens: where blanks may stand. */
  predicate Between(s: State) {
    || s.mode == Idle
    || (s.mode == WantKey && Top(s.lvls) == Some(ObjLvl) && s.valExpected)
    || (s.mode == WantColon && Top(s.lvls) == Some(ObjLvl) && !s.valExpected)
  }

  predicate SamePlace(s: State, s': State) {
    s'.mode == s.mode && s'.lvls == s.lvls && s'.valExpected == s.valExpected
  }

  lemma {:induction false} ReadBlanks(mlen: nat, s: State, w: string, rest: string) returns (s': State)
    requires Between(s) && IsBlank(w)
    ensures SamePlace(s, s') && (s.mode != Idle || w == "" ==> s'.cur == s.cur)
    ensures Continues(mlen, s, w + rest, if s.mode == Idle then [] else Repeated(s.cur, |w|), s', rest)
    decreases |w|
  {
    hide DirectFeed, Continues;
    if w == [] {
      s' := s;
      assert w + rest == rest;
      Stays(mlen, s, rest);
    } else {
      var tail := w[1..] + rest;
      assert w + rest == [w[0]] + tail;
      OneStep(mlen, s, w[0], tail);
      var x := Core(mlen, s, w[0]);
      var s1 := Advance(x);
      assert x.res == Ok && SamePlace(s, s1) && s1.cur == (if s.mode == Idle then None else s.cur);
      hide Core;
      s' := ReadBlanks(mlen, s1, w[1..], rest);
      var e, e1 := Delivered(s1.cur), if s.mode == Idle then [] else Repeated(s.cur, |w| - 1);
      Chain(mlen, s, w + rest, e, s1, tail, e1, s', rest);
      assert s.mode == Idle ==> e + e1 == [];
    }
  }

  // ----- Failures -----

  /** The run ends in an error or, for want of levels, in a panic. */
  predicate Bad(mlen: nat, s: State, text: string) {
    DirectFeed(mlen, s, text).res == Syntax || DirectFeed(mlen, s, text).res == Panic
  }

  lemma FailsIsBad(mlen: nat, s: State, text: string)
    requires Fails(mlen, s, text)
    ensures Bad(mlen, s, text)
  {
    hide DirectFeed;
  }

  lemma ChainBad(mlen: nat, s: State, t: string, e: seq<Event>, s1: State, t1: string)
    requires Continues(mlen, s, t, e, s1, t1) && Bad(mlen, s1, t1)
    ensures Bad(mlen, s, t)
  {
    hide DirectFeed;
  }

  lemma NoRoom(mlen: nat, s: State, lvl: Lvl, rest: string)
    requires s.mode == Idle && s.valExpected && |s.lvls| == MAX_DEPTH
    ensures Bad(mlen, s, OpenText(lvl) + rest)
  {
    var ch := if lvl == ObjLvl then '{' else '[';
    assert (OpenText(lvl) + rest)[0] == ch;
  }

  // ----- Strings -----

  predicate InText(s: State, buf: string, isKey: bool) {
    s.mode == InStr(buf, false, isKey) && s.lvls != [] && (isKey ==> Top(s.lvls) == Some(ObjLvl))
  }

  /** A character that stands for itself. */
  lemma ReadPlain(mlen: nat, s: State, buf: string, isKey: bool, c: char, rest: string) returns (s': State)
    requires InText(s, buf, isKey) && c >= ' ' && c != '\"' && c != '\\'
    ensures
      if !IsControl(c) && |buf| < mlen then
        s'.lvls == s.lvls && InText(s', buf + [c], isKey) && Continues(mlen, s, [c] + rest, [], s', rest)
      else Fails(mlen, s, [c] + rest)
  {
    hide DirectFeed;
    OneStep(mlen, s, c, rest);
    s' := Advance(Core(mlen, s, c));
  }

  /** A backslash and what it escapes. */
  lemma ReadEscape(mlen: nat, s: State, buf: string, isKey: bool, c: char, rest: string) returns (s': State)
    requires InText(s, buf, isKey) && c > ' ' && !IsControl(c)
    ensures
      var u, text := Unescape(c), ['\\', c] + rest;
      if u.Some? && |buf| < mlen then
        s'.lvls == s.lvls && InText(s', buf + [u.value], isKey) && Continues(mlen, s, text, [], s', rest)
      else Fails(mlen, s, text)
  {
    hide DirectFeed, Unescape;
    var text, text1 := ['\\', c] + rest, [c] + rest;
    assert text == ['\\'] + text1;
    OneStep(mlen, s, '\\', text1);
    var s1 := Advance(Core(mlen, s, '\\'));
    OneStep(mlen, s1, c, rest);
    s' := Advance(Core(mlen, s1, c));
    if Unescape(c).Some? && |buf| < mlen {
      Chain(mlen, s, text, [], s1, text1, [], s', rest);
    } else {
      ChainFails(mlen, s, text, [], s1, text1);
    }
  }

  /** The first character or escape of what stands between the quotes. */
  lemma ReadItem(mlen: nat, s: State, buf: string, isKey: bool, body: string, rest: string) returns (s': State)
    requires InText(s, buf, isKey) && StrItem(body) > 0
    ensures
      var n, c := StrItem(body), FirstChar(body);
      if c.Some? && |buf| < mlen then
        s'.lvls == s.lvls && InText(s', buf + [c.value], isKey) && Continues(mlen, s, body + rest, [], s', body[n..] + rest)
      else Fails(mlen, s, body + rest)
  {
    hide DirectFeed, Core, Continues, Fails;
    var n := StrItem(body);
    if n == 1 {
      assert body + rest == [body[0]] + (body[1..] + rest);
      s' := ReadPlain(mlen, s, buf, isKey, body[0], body[1..] + rest);
    } else {
      assert body + rest == ['\\', body[1]] + (body[2..] + rest);
      s' := ReadEscape(mlen, s, buf, isKey, body[1], body[2..] + rest);
      assert n == 6 ==> Unescape(body[1]) == None && FirstChar(body) == None;
    }
  }

  lemma {:induction false} ReadBody(mlen: nat, s: State, buf: string, isKey: bool, body: string, rest: string)
    returns (s': State)
    requires InText(s, buf, isKey) && IsStrBody(body)
    ensures
      var c, text := Decode(body), body + ("\"" + rest);
      if c.Some? && |buf| + |c.value| < mlen then
        && PastStr(s, s', isKey) && s'.cur == Some(Str(buf + c.value))
        && Continues(mlen, s, text, [Str(buf + c.value)], s', rest)
      else Fails(mlen, s, text)
    decreases |body|
  {
    hide DirectFeed, Core, Continues, Fails, StrItem, FirstChar;
    var end := "\"" + rest;
    if body == [] {
      assert body + end == end && buf + "" == buf;
      s' := StrEnd(mlen, s, buf, isKey, rest);
    } else {
      var tail := body[StrItem(body)..];
      s' := ReadItem(mlen, s, buf, isKey, body, end);
      var c := FirstChar(body);
      if c.Some? && |buf| < mlen {
        var s1 := s';
        s' := ReadBody(mlen, s1, buf + [c.value], isKey, tail, rest);
        var d := Decode(tail);
        if d.Some? && |buf| + 1 + |d.value| < mlen {
          var all := Str(buf + ([c.value] + d.value));
          assert buf + [c.value] + d.value == buf + ([c.value] + d.value);
          Chain(mlen, s, body + end, [], s1, tail + end, [all], s', rest);
          assert [] + [all] == [all];
        } else {
          ChainFails(mlen, s, body + end, [], s1, tail + end);
        }
      }
    }
  }

  /** A quoted string, as a value or as a key. */
  lemma ReadQuoted(mlen: nat, s: State, isKey: bool, t: string, rest: string) returns (s': State)
    requires s.valExpected && s.lvls != [] && IsString(t)
    requires if isKey then s.mode == WantKey && Top(s.lvls) == Some(ObjLvl) else s.mode == Idle
    ensures
      if TakesStr(mlen, t) then
        && PastStr(s, s', isKey) && s'.cur == Some(Str(StrOf(t)))
        && Continues(mlen, s, t + rest, [Str(StrOf(t))], s', rest)
      else Fails(mlen, s, t + rest)
  {
    hide DirectFeed, Continues, Fails, Decode, IsStrBody;
    var body := t[1..|t| - 1];
    var text1 := body + ("\"" + rest);
    assert t + rest == ['\"'] + text1;
    OneStep(mlen, s, '\"', text1);
    var x := Core(mlen, s, '\"');
    var s1 := Advance(x);
    assert x.res == Ok && x.st.cur.None? && s1.lvls == s.lvls && InText(s1, "", isKey);
    hide Core;
    s' := ReadBody(mlen, s1, "", isKey, body, rest);
    var str := StrOf(t);
    if TakesStr(mlen, t) {
      assert "" + str == str;
      Chain(mlen, s, t + rest, [], s1, text1, [Str(str)], s', rest);
      assert [] + [Str(str)] == [Str(str)];
    } else {
      ChainFails(mlen, s, t + rest, [], s1, text1);
    }
  }

  // ----- Values -----

  predicate AtVal(s: State) {
    s.mode == Idle && s.valExpected && 0 < |s.lvls| <= MAX_DEPTH
  }

  predicate AtKey(s: State) {
    s.mode == WantKey && s.valExpected && Top(s.lvls) == Some(ObjLvl) && |s.lvls| <= MAX_DEPTH
  }

  function Room(s: State): int {
    MAX_DEPTH - |s.lvls|
  }

  /** A value, or something else, has been read to its end, or the run is lost. */
  predicate Reaches(mlen: nat, s: State, text: string, good: bool, evs: seq<Event>, s': State, rest: string) {
    if good then Continues(mlen, s, text, evs, s', rest) else Bad(mlen, s, text)
  }

  /** First one thing, then another. */
  lemma Then(mlen: nat, s: State, t: string, g: bool, e: seq<Event>, s1: State, t1: string, g1: bool, e1: seq<Event>,
             s2: State, t2: string)
    requires Reaches(mlen, s, t, g, e, s1, t1) && (g ==> Reaches(mlen, s1, t1, g1, e1, s2, t2))
    ensures Reaches(mlen, s, t, g && g1, e + e1, s2, t2)
  {
    hide Continues, Bad;
    if g && g1 {
      Chain(mlen, s, t, e, s1, t1, e1, s2, t2);
    } else if g {
      ChainBad(mlen, s, t, e, s1, t1);
    }
  }

  lemma ThenBlanks(mlen: nat, s: State, t: string, g: bool, e: seq<Event>, s1: State, w: string, rest: string)
    returns (s': State)
    requires Reaches(mlen, s, t, g, e, s1, w + rest) && IsBlank(w) && (g ==> s1.mode == Idle)
    ensures Reaches(mlen, s, t, g, e, s', rest) && (g ==> SamePlace(s1, s'))
  {
    hide Continues, Bad;
    s' := s1;
    if g {
      s' := ReadBlanks(mlen, s1, w, rest);
      Chain(mlen, s, t, e, s1, w + rest, [], s', rest);
      assert e + [] == e;
    }
  }

  /** May this character come right after a value? */
  predicate Follows(rest: string) {
    rest != [] && EndsNum(rest[0])
  }

  lemma BlanksFollow(w: string, rest: string)
    requires IsBlank(w) && Follows(rest)
    ensures Follows(w + rest)
  {
    assert (w + rest)[0] == if w == "" then rest[0] else w[0];
  }

  /** A key with its blanks, the colon and the blanks before the value. */
  lemma ReadKey(mlen: nat, s: State, m: Member, rest: string) returns (s': State)
    requires AtKey(s) && MemberValid(m)
    ensures Reaches(mlen, s, m.w1 + (m.key + (m.w2 + (":" + (m.w3 + rest)))), TakesStr(mlen, m.key), KeyEvents(s.cur, m), s', rest)
    ensures TakesStr(mlen, m.key) ==> AtVal(s') && s'.lvls == s.lvls
  {
    hide DirectFeed, Continues, Fails, Bad, TakesStr, StrOf, IsString, Valid, Repeated;
    var t4 := m.w3 + rest;
    var t3 := ":" + t4;
    var t2 := m.w2 + t3;
    var t1 := m.key + t2;
    var t := m.w1 + t1;
    var s1 := ReadBlanks(mlen, s, m.w1, t1);
    s' := ReadQuoted(mlen, s1, true, m.key, t2);
    var e1, k := Repeated(s.cur, |m.w1|), Str(StrOf(m.key));
    if TakesStr(mlen, m.key) {
      var s2 := s';
      Chain(mlen, s, t, e1, s1, t1, [k], s2, t2);
      var s3 := ReadBlanks(mlen, s2, m.w2, t3);
      Chain(mlen, s, t, e1 + [k], s2, t2, Repeated(Some(k), |m.w2|), s3, t3);
      var s4 := ReadColon(mlen, s3, t4);
      s' := ReadBlanks(mlen, s4, m.w3, rest);
      Chain(mlen, s3, t3, [], s4, t4, [], s', rest);
      var none: seq<Event> := [];
      assert none + none == none;
      Chain(mlen, s, t, KeyEvents(s.cur, m), s3, t3, [], s', rest);
      assert KeyEvents(s.cur, m) + [] == KeyEvents(s.cur, m);
    } else {
      FailsIsBad(mlen, s1, t1);
      ChainBad(mlen, s, t, e1, s1, t1);
    }
  }

  lemma MemberSplits(m: Member, rest: string)
    ensures MemberText(m) + rest == m.w1 + (m.key + (m.w2 + (":" + (m.w3 + (Text(m.v) + (m.w4 + rest))))))
  {
    hide Text;
    Regroup(m.w1, m.key, m.w2, ":", m.w3, Text(m.v), m.w4, rest);
  }

  lemma Regroup(a: string, b: string, c: string, d: string, e: string, f: string, g: string, h: string)
    ensures a + b + c + d + e + f + g + h == a + (b + (c + (d + (e + (f + (g + h))))))
  {
  }

  lemma {:induction false} ReadMember(mlen: nat, s: State, m: Member, rest: string) returns (s': State)
    requires AtKey(s) && MemberValid(m) && Follows(rest)
    ensures Reaches(mlen, s, MemberText(m) + rest, TakesMember(mlen, Room(s), m), MemberEvents(s.cur, m), s', rest)
    ensures TakesMember(mlen, Room(s), m) ==> PastVal(s, s')
    decreases m, 0
  {
    hide DirectFeed, Reaches, TakesStr, Takes, KeyEvents, Events, MemberText, Text, Valid, IsString;
    var t2 := m.w4 + rest;
    var t1 := Text(m.v) + t2;
    var t := MemberText(m) + rest;
    MemberSplits(m, rest);
    BlanksFollow(m.w4, rest);
    var s1 := ReadKey(mlen, s, m, t1);
    var s2 := s1;
    var g1, g2 := TakesStr(mlen, m.key), Takes(mlen, Room(s), m.v);
    if g1 {
      s2 := ReadVal(mlen, s1, m.v, t2);
    }
    Then(mlen, s, t, g1, KeyEvents(s.cur, m), s1, t1, g2, Events(m.v), s2, t2);
    s' := ThenBlanks(mlen, s, t, g1 && g2, MemberEvents(s.cur, m), s2, m.w4, rest);
  }

  lemma {:induction false} ReadVal(mlen: nat, s: State, v: Val, rest: string) returns (s': State)
    requires AtVal(s) && Valid(v) && Follows(rest)
    ensures Reaches(mlen, s, Text(v) + rest, Takes(mlen, Room(s), v), Events(v), s', rest)
    ensures Takes(mlen, Room(s), v) ==> PastVal(s, s')
    decreases v, 1
  {
    hide DirectFeed, Continues, Fails, Bad, TakesStr, IsString, N.Reported, NumberText, Content;
    s' := s;
    match v {
      case StrVal(t) =>
        s' := ReadQuoted(mlen, s, false, t, rest);
        if !TakesStr(mlen, t) {
          FailsIsBad(mlen, s, t + rest);
        }
      case NumVal(n) =>
        s' := N.ReadNumber(mlen, s, n, rest);
        if !N.Readable(n) {
          FailsIsBad(mlen, s, NumberText(n) + rest);
        }
      case WordVal(w) => s' := ReadWord(mlen, s, w, rest);
      case ObjVal(ms, tail) => s' := ReadObj(mlen, s, ms, tail, rest);
      case ArrVal(es) => s' := ReadArr(mlen, s, es, rest);
      case EmptyArr(w) => EmptyArrBad(mlen, s, w, rest);
    }
  }

  /** What stands between the braces of an object. */
  function InnerText(ms: Members, tail: Tail): string {
    if tail.NoTail? then MembersText(ms) else MembersLead(ms) + tail.blank
  }

  lemma ObjSplits(ms: Members, tail: Tail, rest: string)
    ensures Text(ObjVal(ms, tail)) + rest == "{" + (InnerText(ms, tail) + ("}" + rest))
  {
    hide MembersText, MembersLead;
    if tail.Tail? {
      assert "{" + MembersLead(ms) + tail.blank + "}" + rest == "{" + (MembersLead(ms) + tail.blank + ("}" + rest));
    } else {
      assert "{" + MembersText(ms) + "}" + rest == "{" + (MembersText(ms) + ("}" + rest));
    }
  }

  /** The members so far, each with the comma behind it. */
  lemma {:induction false} ReadLead(mlen: nat, s: State, ms: Members, rest: string) returns (s': State)
    requires AtKey(s) && s.cur == Some(ObjStart) && MembersValid(ms)
    ensures Reaches(mlen, s, MembersLead(ms) + rest, TakesMembers(mlen, Room(s), ms), MembersEvents(ms), s', rest)
    ensures TakesMembers(mlen, Room(s), ms) ==> AtKey(s') && s'.lvls == s.lvls && s'.cur == Shown(ms)
    decreases ms, 0
  {
    hide DirectFeed, Continues, Bad, MemberText, MemberEvents, TakesMember, MemberValid;
    s' := s;
    if ms.NoMembers? {
      assert "" + rest == rest;
      Stays(mlen, s, rest);
    } else {
      var t2 := "," + rest;
      var t1 := MemberText(ms.last) + t2;
      var t := MembersLead(ms) + rest;
      assert t == MembersLead(ms.init) + t1 by {
        ThreeJoin(MembersLead(ms.init), MemberText(ms.last), ",", rest);
      }
      var s1 := ReadLead(mlen, s, ms.init, t1);
      hide Reaches, MembersLead;
      var g, g1 := TakesMembers(mlen, Room(s), ms.init), TakesMember(mlen, Room(s), ms.last);
      var e, e1 := MembersEvents(ms.init), MemberEvents(Shown(ms.init), ms.last);
      var s2 := s1;
      if g {
        s2 := ReadMember(mlen, s1, ms.last, t2);
      }
      Then(mlen, s, t, g, e, s1, t1, g1, e1, s2, t2);
      s' := ThenComma(mlen, s, t, g && g1, e + e1, s2, rest);
    }
  }

  lemma ThreeJoin(a: string, b: string, c: string, d: string)
    ensures a + b + c + d == a + (b + (c + d))
  {
  }

  lemma ThenComma(mlen: nat, s: State, t: string, g: bool, e: seq<Event>, s1: State, rest: string) returns (s': State)
    requires Reaches(mlen, s, t, g, e, s1, "," + rest)
    requires g ==> s1.mode == Idle && !s1.valExpected && s1.lvls != []
    ensures Reaches(mlen, s, t, g, e, s', rest)
    ensures g ==> s'.lvls == s1.lvls && s'.valExpected && s'.cur == None
    ensures g ==> s'.mode == if Top(s1.lvls) == Some(ObjLvl) then WantKey else Idle
  {
    hide Continues, Bad;
    s' := s1;
    if g {
      s' := ReadComma(mlen, s1, rest);
      Chain(mlen, s, t, e, s1, "," + rest, [], s', rest);
      assert e + [] == e;
    }
  }

  /** The members of an object with nothing behind the last one. */
  lemma {:induction false} ReadMembers(mlen: nat, s: State, ms: Members, rest: string) returns (s': State)
    requires AtKey(s) && s.cur == Some(ObjStart) && MembersValid(ms) && Follows(rest)
    ensures Reaches(mlen, s, MembersText(ms) + rest, TakesMembers(mlen, Room(s), ms), MembersEvents(ms), s', rest)
    ensures TakesMembers(mlen, Room(s), ms) ==> s'.lvls == s.lvls && Closable(s', ObjLvl)
    decreases ms, 1
  {
    hide DirectFeed, Continues, Bad, MemberText, MemberEvents, TakesMember, MemberValid, MembersLead;
    s' := s;
    if ms.NoMembers? {
      assert "" + rest == rest;
      Stays(mlen, s, rest);
    } else {
      var t, t1 := MembersText(ms) + rest, MemberText(ms.last) + rest;
      assert t == MembersLead(ms.init) + t1;
      hide Reaches, MembersText;
      var s1 := ReadLead(mlen, s, ms.init, t1);
      var g, g1 := TakesMembers(mlen, Room(s), ms.init), TakesMember(mlen, Room(s), ms.last);
      s' := s1;
      if g {
        s' := ReadMember(mlen, s1, ms.last, rest);
      }
      Then(mlen, s, t, g, MembersEvents(ms.init), s1, t1, g1, MemberEvents(Shown(ms.init), ms.last), s', rest);
    }
  }

  /** Everything between the braces of an object. */
  lemma ReadInner(mlen: nat, s: State, ms: Members, tail: Tail, rest: string) returns (s': State)
    requires AtKey(s) && s.cur == Some(ObjStart) && MembersValid(ms) && (tail.Tail? ==> IsBlank(tail.blank)) && Follows(rest)
    ensures Reaches(mlen, s, InnerText(ms, tail) + rest, TakesMembers(mlen, Room(s), ms),
                    MembersEvents(ms) + TailEvents(ms, tail), s', rest)
    ensures TakesMembers(mlen, Room(s), ms) ==> s'.lvls == s.lvls && Closable(s', ObjLvl)
    decreases ms, 2
  {
    hide DirectFeed, Continues, Bad, TakesMembers, MembersEvents, MembersValid, MembersText, MembersLead;
    if tail.NoTail? {
      s' := ReadMembers(mlen, s, ms, rest);
      assert MembersEvents(ms) + [] == MembersEvents(ms);
    } else {
      var t, t1 := InnerText(ms, tail) + rest, tail.blank + rest;
      assert t == MembersLead(ms) + t1;
      s' := ReadLead(mlen, s, ms, t1);
      if TakesMembers(mlen, Room(s), ms) {
        var s1 := s';
        s' := ReadBlanks(mlen, s1, tail.blank, rest);
        Chain(mlen, s, t, MembersEvents(ms), s1, t1, TailEvents(ms, tail), s', rest);
      }
    }
  }

  lemma {:induction false} ReadObj(mlen: nat, s: State, ms: Members, tail: Tail, rest: string) returns (s': State)
    requires AtVal(s) && Valid(ObjVal(ms, tail))
    ensures
      var v := ObjVal(ms, tail);
      && Reaches(mlen, s, Text(v) + rest, Takes(mlen, Room(s), v), Events(v), s', rest)
      && (Takes(mlen, Room(s), v) ==> PastVal(s, s'))
    decreases ObjVal(ms, tail), 0
  {
    hide DirectFeed, Continues, Bad, InnerText, TakesMembers, MembersEvents, TailEvents, MembersValid;
    var t, t1, t2 := Text(ObjVal(ms, tail)) + rest, InnerText(ms, tail) + ("}" + rest), "}" + rest;
    ObjSplits(ms, tail, rest);
    hide Text;
    s' := s;
    if Room(s) == 0 {
      NoRoom(mlen, s, ObjLvl, t1);
    } else {
      var s1 := ReadOpen(mlen, s, ObjLvl, t1);
      var s2 := ReadInner(mlen, s1, ms, tail, t2);
      var inner := MembersEvents(ms) + TailEvents(ms, tail);
      if TakesMembers(mlen, Room(s1), ms) {
        s' := ReadClose(mlen, s2, ObjLvl, rest);
        Chain(mlen, s, t, [ObjStart], s1, t1, inner, s2, t2);
        Chain(mlen, s, t, [ObjStart] + inner, s2, t2, [ObjEnd], s', rest);
      } else {
        ChainBad(mlen, s, t, [ObjStart], s1, t1);
      }
    }
  }

  lemma {:induction false} ReadElem(mlen: nat, s: State, e: Elem, rest: string) returns (s': State)
    requires AtVal(s) && ElemValid(e) && Follows(rest)
    ensures Reaches(mlen, s, ElemText(e) + rest, Takes(mlen, Room(s), e.v), Events(e.v), s', rest)
    ensures Takes(mlen, Room(s), e.v) ==> PastVal(s, s')
    decreases e
  {
    hide DirectFeed, Continues, Bad, Takes, Events, Text, Valid;
    var t2 := e.w2 + rest;
    var t1 := Text(e.v) + t2;
    var t := ElemText(e) + rest;
    assert t == e.w1 + t1 by { ThreeJoin(e.w1, Text(e.v), e.w2, rest); }
    BlanksFollow(e.w2, rest);
    var s1 := ReadBlanks(mlen, s, e.w1, t1);
    var s2 := ReadVal(mlen, s1, e.v, t2);
    Then(mlen, s, t, true, [], s1, t1, Takes(mlen, Room(s), e.v), Events(e.v), s2, t2);
    assert [] + Events(e.v) == Events(e.v);
    s' := ThenBlanks(mlen, s, t, Takes(mlen, Room(s), e.v), Events(e.v), s2, e.w2, rest);
  }

  lemma {:induction false} ReadElems(mlen: nat, s: State, es: Elems, rest: string) returns (s': State)
    requires AtVal(s) && Top(s.lvls) == Some(ArrLvl) && ElemsValid(es) && Follows(rest)
    ensures Reaches(mlen, s, ElemsText(es) + rest, TakesElems(mlen, Room(s), es), ElemsEvents(es), s', rest)
    ensures TakesElems(mlen, Room(s), es) ==> PastVal(s, s')
    decreases es
  {
    hide DirectFeed, Continues, Bad, Takes, Events, ElemText, ElemValid;
    if es.OneElem? {
      s' := ReadElem(mlen, s, es.e, rest);
    } else {
      var t2 := ElemText(es.last) + rest;
      var t1 := "," + t2;
      var t := ElemsText(es) + rest;
      assert t == ElemsText(es.init) + t1 by {
        ThreeJoin(ElemsText(es.init), ",", ElemText(es.last), rest);
      }
      var s1 := ReadElems(mlen, s, es.init, t1);
      hide Reaches, ElemsText;
      var g, g1 := TakesElems(mlen, Room(s), es.init), Takes(mlen, Room(s), es.last.v);
      var s2 := ThenComma(mlen, s, t, g, ElemsEvents(es.init), s1, t2);
      s' := s2;
      if g {
        s' := ReadElem(mlen, s2, es.last, rest);
      }
      Then(mlen, s, t, g, ElemsEvents(es.init), s2, t2, g1, Events(es.last.v), s', rest);
    }
  }

  lemma {:induction false} ReadArr(mlen: nat, s: State, es: Elems, rest: string) returns (s': State)
    requires AtVal(s) && ElemsValid(es)
    ensures
      var v := ArrVal(es);
      && Reaches(mlen, s, Text(v) + rest, Takes(mlen, Room(s), v), Events(v), s', rest)
      && (Takes(mlen, Room(s), v) ==> PastVal(s, s'))
    decreases ArrVal(es), 0
  {
    hide DirectFeed, Continues, Bad, ElemsText, TakesElems, ElemsEvents, ElemsValid;
    var t, t1, t2 := Text(ArrVal(es)) + rest, ElemsText(es) + ("]" + rest), "]" + rest;
    assert t == "[" + t1;
    s' := s;
    if Room(s) == 0 {
      NoRoom(mlen, s, ArrLvl, t1);
    } else {
      var s1 := ReadOpen(mlen, s, ArrLvl, t1);
      var s2 := ReadElems(mlen, s1, es, t2);
      if TakesElems(mlen, Room(s1), es) {
        s' := ReadClose(mlen, s2, ArrLvl, rest);
        Chain(mlen, s, t, [ArrStart], s1, t1, ElemsEvents(es), s2, t2);
        Chain(mlen, s, t, [ArrStart] + ElemsEvents(es), s2, t2, [ArrEnd], s', rest);
      } else {
        ChainBad(mlen, s, t, [ArrStart], s1, t1);
      }
    }
  }

  lemma EmptyArrBad(mlen: nat, s: State, w: string, rest: string)
    requires AtVal(s) && IsBlank(w)
    ensures Bad(mlen, s, Text(EmptyArr(w)) + rest)
  {
    hide DirectFeed, Continues, Bad, Fails;
    var t, t1, t2 := Text(EmptyArr(w)) + rest, w + ("]" + rest), "]" + rest;
    assert t == "[" + t1;
    if Room(s) == 0 {
      NoRoom(mlen, s, ArrLvl, t1);
    } else {
      var s1 := ReadOpen(mlen, s, ArrLvl, t1);
      var s2 := ReadBlanks(mlen, s1, w, t2);
      MisplacedFails(mlen, s2, ']', rest);
      assert [']'] + rest == t2;
      FailsIsBad(mlen, s2, t2);
      ChainBad(mlen, s1, t1, [], s2, t2);
      ChainBad(mlen, s, t, [ArrStart], s1, t1);
    }
  }

  // ----- Whole texts -----

  lemma ReadText(mlen: nat, w: string, ms: Members, tail: Tail, rest: string)
    requires IsBlank(w) && Valid(ObjVal(ms, tail))
    ensures
      var v := ObjVal(ms, tail);
      var o := DirectFeed(mlen, INIT, w + (Text(v) + rest));
      if Takes(mlen, MAX_DEPTH, v) then o.res == Fin && o.events == Events(v) else o.res == Syntax || o.res == Panic
  {
    hide DirectFeed, InnerText, TakesMembers, MembersEvents, TailEvents, MembersValid;
    var t0, t1, t2 := Text(ObjVal(ms, tail)) + rest, InnerText(ms, tail) + ("}" + rest), "}" + rest;
    ObjSplits(ms, tail, rest);
    hide Text;
    var s0 := ReadBlanks(mlen, INIT, w, t0);
    var s1 := ReadOpen(mlen, s0, ObjLvl, t1);
    Chain(mlen, INIT, w + t0, [], s0, t0, [ObjStart], s1, t1);
    assert [] + [ObjStart] == [ObjStart] && s1.lvls == [ObjLvl];
    var s2 := ReadInner(mlen, s1, ms, tail, t2);
    if TakesMembers(mlen, Room(s1), ms) {
      Chain(mlen, INIT, w + t0, [ObjStart], s1, t1, MembersEvents(ms) + TailEvents(ms, tail), s2, t2);
      LastClose(mlen, s2, rest);
    } else {
      ChainBad(mlen, INIT, w + t0, [ObjStart], s1, t1);
    }
  }

  /** `text` starts with an object that the reader takes. */
  ghost predicate Starts(mlen: nat, text: string, w: string, v: Val, rest: string) {
    && IsBlank(w) && v.ObjVal? && Valid(v) && Takes(mlen, MAX_DEPTH, v)
    && text == w + (Text(v) + rest)
  }

  /**
   The events, for every layout: a text that starts with an object the reader
   takes is finished, with exactly the events of that object.
   */
  lemma ReportsEvents(mlen: nat, text: string, w: string, v: Val, rest: string)
    requires Terminated(text) && Starts(mlen, text, w, v, rest)
    ensures
      var o := Feed(mlen, INIT, text);
      o.res == Fin && o.events == Events(v)
  {
    hide DirectFeed, Feed, Takes, Events, Valid, Text;
    ReadText(mlen, w, v.ms, v.tail, rest);
    assert v == ObjVal(v.ms, v.tail);
    Transparent(mlen, text);
    var ref := DirectFeed(mlen, INIT, text);
    assert [] + ref.events == ref.events;
  }

  /**
   The language, exactly: on a NUL-terminated text the reader reports the end
   after some events if and only if the text starts, after blanks, with an object
   of the grammar that is at most 24 brackets deep, has no empty array, no zero
   without a fraction and only strings that can be decoded and fit.
   */
  lemma ExactLanguage(mlen: nat, text: string)
    requires Terminated(text)
    ensures
      var o := Feed(mlen, INIT, text);
      o.res == Fin && o.events != [] <==> exists w: string, v: Val, rest: string :: Starts(mlen, text, w, v, rest)
  {
    hide DirectFeed, Feed, Takes, Valid, Text;
    var o := Feed(mlen, INIT, text);
    if o.res == Fin && o.events != [] {
      S.Sound(mlen, text);
      var k :| o.calls - 1 <= k <= o.calls && 0 <= k <= |text| && IsObjectText(text[..k]);
      var w: string, v: Val :| IsBlank(w) && v.ObjVal? && Valid(v) && text[..k] == w + Text(v);
      var rest := text[k..];
      assert text == text[..k] + rest && text == w + (Text(v) + rest);
      assert v == ObjVal(v.ms, v.tail);
      ReadText(mlen, w, v.ms, v.tail, rest);
      Transparent(mlen, text);
      assert Starts(mlen, text, w, v, rest);
    }
    if exists w: string, v: Val, rest: string :: Starts(mlen, text, w, v, rest) {
      var w: string, v: Val, rest: string :| Starts(mlen, text, w, v, rest);
      ReportsEvents(mlen, text, w, v, rest);
      assert |Events(v)| > 0;
    }
  }

  // ----- Each event once -----

  /** The events of a value, each once. */
  function Once(v: Val): seq<Event>
    decreases v
  {
    match v
    case ObjVal(ms, _) => [ObjStart] + OnceMembers(ms) + [ObjEnd]
    case ArrVal(es) => [ArrStart] + OnceElems(es) + [ArrEnd]
    case _ => Events(v)
  }

  function OnceMembers(ms: Members): seq<Event>
    decreases ms
  {
    match ms
    case NoMembers => []
    case Members(init, m) => OnceMembers(init) + [Str(StrOf(m.key))] + Once(m.v)
  }

  function OnceElems(es: Elems): seq<Event>
    decreases es
  {
    match es
    case OneElem(e) => Once(e.v)
    case Elems(init, e) => OnceElems(init) + Once(e.v)
  }

  /** The blanks right after an opening brace and those between a key and its colon. */
  function Blanks(v: Val): nat
    decreases v
  {
    match v
    case ObjVal(ms, tail) => BlanksMembers(ms) + if tail.Tail? && ms.NoMembers? then |tail.blank| else 0
    case ArrVal(es) => BlanksElems(es)
    case _ => 0
  }

  function BlanksMembers(ms: Members): nat
    decreases ms
  {
    match ms
    case NoMembers => 0
    case Members(init, m) =>
      BlanksMembers(init) + (if init.NoMembers? then |m.w1| else 0) + |m.w2| + Blanks(m.v)
  }

  function BlanksElems(es: Elems): nat
    decreases es
  {
    match es
    case OneElem(e) => Blanks(e.v)
    case Elems(init, e) => BlanksElems(init) + Blanks(e.v)
  }

  lemma {:induction false} RepeatedLength(e: Option<Event>, n: nat)
    ensures |Repeated(e, n)| == if e.Some? then n else 0
  {
    if n > 0 {
      RepeatedLength(e, n - 1);
    }
  }

  /** `a` is `b` with `n` events more. */
  predicate More(a: seq<Event>, b: seq<Event>, n: nat) {
    |a| == |b| + n && (n == 0 ==> a == b)
  }

  lemma MoreConcat(a: seq<Event>, b: seq<Event>, n: nat, a': seq<Event>, b': seq<Event>, n': nat)
    requires More(a, b, n) && More(a', b', n')
    ensures More(a + a', b + b', n + n')
  {
  }

  lemma MoreRepeated(e: Option<Event>, n: nat)
    ensures More(Repeated(e, n), [], if e.Some? then n else 0)
  {
    RepeatedLength(e, n);
    hide Repeated;
  }

  lemma MoreKey(shown: Option<Event>, m: Member)
    ensures More(KeyEvents(shown, m), [Str(StrOf(m.key))], (if shown.Some? then |m.w1| else 0) + |m.w2|)
  {
    hide Repeated, More, StrOf;
    var k := Str(StrOf(m.key));
    MoreRepeated(shown, |m.w1|);
    MoreRepeated(Some(k), |m.w2|);
    var n := if shown.Some? then |m.w1| else 0;
    assert More([k], [k], 0) by { Same([k]); }
    MoreConcat(Repeated(shown, |m.w1|), [], n, [k], [k], 0);
    MoreConcat(Repeated(shown, |m.w1|) + [k], [] + [k], n, Repeated(Some(k), |m.w2|), [], |m.w2|);
    assert [] + [k] + [] == [k];
  }

  lemma Same(a: seq<Event>)
    ensures More(a, a, 0)
  {
  }

  lemma {:induction false} CountVal(v: Val)
    ensures More(Events(v), Once(v), Blanks(v))
    decreases v
  {
    hide More, Repeated;
    match v {
      case ObjVal(ms, tail) =>
        CountMembers(ms);
        var inner, n := MembersEvents(ms) + TailEvents(ms, tail), if tail.Tail? && ms.NoMembers? then |tail.blank| else 0;
        assert More(TailEvents(ms, tail), [], n) by {
          MoreRepeated(Shown(ms), if tail.Tail? then |tail.blank| else 0);
          Same([]);
        }
        MoreConcat(MembersEvents(ms), OnceMembers(ms), BlanksMembers(ms), TailEvents(ms, tail), [], n);
        assert OnceMembers(ms) + [] == OnceMembers(ms);
        Bracketed(ObjStart, inner, OnceMembers(ms), Blanks(v), ObjEnd);
      case ArrVal(es) =>
        CountElems(es);
        Bracketed(ArrStart, ElemsEvents(es), OnceElems(es), Blanks(v), ArrEnd);
      case _ => Same(Events(v));
    }
  }

  lemma Bracketed(open: Event, a: seq<Event>, b: seq<Event>, n: nat, close: Event)
    requires More(a, b, n)
    ensures More([open] + a + [close], [open] + b + [close], n)
  {
  }

  lemma {:induction false} CountMembers(ms: Members)
    ensures More(MembersEvents(ms), OnceMembers(ms), BlanksMembers(ms))
    decreases ms
  {
    hide More, KeyEvents, StrOf;
    if ms.NoMembers? {
      Same([]);
    } else {
      var init, m := ms.init, ms.last;
      var k := (if init.NoMembers? then |m.w1| else 0) + |m.w2|;
      CountMembers(init);
      MoreKey(Shown(init), m);
      CountVal(m.v);
      MoreConcat(KeyEvents(Shown(init), m), [Str(StrOf(m.key))], k, Events(m.v), Once(m.v), Blanks(m.v));
      MoreConcat(MembersEvents(init), OnceMembers(init), BlanksMembers(init),
                 MemberEvents(Shown(init), m), [Str(StrOf(m.key))] + Once(m.v), k + Blanks(m.v));
      assert OnceMembers(init) + ([Str(StrOf(m.key))] + Once(m.v)) == OnceMembers(ms);
    }
  }

  lemma {:induction false} CountElems(es: Elems)
    ensures More(ElemsEvents(es), OnceElems(es), BlanksElems(es))
    decreases es
  {
    hide More;
    if es.OneElem? {
      CountVal(es.e.v);
    } else {
      CountElems(es.init);
      CountVal(es.last.v);
      MoreConcat(ElemsEvents(es.init), OnceElems(es.init), BlanksElems(es.init),
                 Events(es.last.v), Once(es.last.v), Blanks(es.last.v));
    }
  }

  /** Each event is reported once exactly if no blank follows an opening brace or a key. */
  lemma OnceExactly(v: Val)
    ensures Events(v) == Once(v) <==> Blanks(v) == 0
  {
    CountVal(v);
    hide Events, Once, Blanks;
  }

  /** One blank in an empty object, and its start is reported twice. */
  lemma BlankRepeats(mlen: nat)
    ensures Feed(mlen, INIT, "{ }\0").res == Fin && Feed(mlen, INIT, "{ }\0").events == [ObjStart, ObjStart, ObjEnd]
  {
    hide Feed;
    var v := ObjVal(NoMembers, Tail(" "));
    assert Text(v) == "{ }" && "{ }\0" == "" + (Text(v) + "\0");
    assert Repeated(Some(ObjStart), 1) == [ObjStart];
    assert Events(v) == [ObjStart, ObjStart, ObjEnd];
    assert MembersValid(NoMembers) && IsBlank(" ") && Valid(v);
    assert TakesMembers(mlen, MAX_DEPTH - 1, NoMembers) && Takes(mlen, MAX_DEPTH, v);
    assert Starts(mlen, "{ }\0", "", v, "\0");
    ReportsEvents(mlen, "{ }\0", "", v, "\0");
  }
}
