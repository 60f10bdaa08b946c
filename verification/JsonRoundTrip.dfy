/**
 What the reader of `src/rjson.c` makes of a document written by the compact
 writer of `src/wjson.c`: it reads the document back exactly when `Good` holds,
 and otherwise answers with a syntax error.
 */
module JsonRoundTrip {
  import opened Chars
  import opened CStrings
  import opened Decimal
  import G = JsonGrammar
  import opened JsonLevels
  import opened JsonLookahead
  import N = JsonNumbers
  import opened JsonReader
  import opened JsonReading
  import opened JsonTree
  import W = JsonWriter
  import JsonWriterRuns
  import opened Options

  // ----- What should be read back -----

  function Events(v: Tree): seq<Event> {
    match v
    case StrTree(s) => [Str(s)]
    case IntTree(n) => [Num(n as real)]
    case BoolTree(b) => [Bool(b)]
    case NullTree => [Null]
    case ObjTree(fs) => [ObjStart] + FieldEvents(fs) + [ObjEnd]
    case ArrTree(es) => [ArrStart] + ItemEvents(es) + [ArrEnd]
  }

  function FieldEvents(fs: Fields): seq<Event> {
    match fs
    case NoFields => []
    case Field(key, v, rest) => [Str(key)] + Events(v) + FieldEvents(rest)
  }

  function ItemEvents(es: Items): seq<Event> {
    match es
    case NoItems => []
    case Item(v, rest) => Events(v) + ItemEvents(rest)
  }

  // ----- What can be read back -----

  predicate GoodChar(c: char) {
    !IsControl(c) || c == '\U{8}' || c == '\U{C}' || c == '\n' || c == '\r' || c == '\t'
  }

  /** A string the reader takes: no control character without an escape, and shorter than its buffer. */
  predicate GoodStr(mlen: nat, s: string) {
    |s| < mlen && forall c <- s :: GoodChar(c)
  }

  /** No bare zero, no empty array, and an array only as the last member of its object. */
  predicate Good(mlen: nat, v: Tree) {
    match v
    case StrTree(s) => GoodStr(mlen, s)
    case IntTree(n) => n != 0
    case BoolTree(_) => true
    case NullTree => true
    case ObjTree(fs) => GoodFields(mlen, fs)
    case ArrTree(es) => es.Item? && GoodItems(mlen, es)
  }

  predicate GoodFields(mlen: nat, fs: Fields) {
    match fs
    case NoFields => true
    case Field(key, v, rest) =>
      GoodStr(mlen, key) && Good(mlen, v) && (v.ArrTree? ==> rest.NoFields?) && GoodFields(mlen, rest)
  }

  predicate GoodItems(mlen: nat, es: Items) {
    match es
    case NoItems => true
    case Item(v, rest) => Good(mlen, v) && GoodItems(mlen, rest)
  }

  // ----- Strings -----

  lemma StrChar(mlen: nat, s: State, buf: string, isKey: bool, c: char, rest: string) returns (s': State)
    requires s.mode == InStr(buf, false, isKey) && (isKey ==> Top(s.lvls) == Some(ObjLvl))
    requires c != '\0'
    ensures
      if GoodChar(c) && |buf| < mlen then
        && s'.mode == InStr(buf + [c], false, isKey) && s'.lvls == s.lvls
        && Continues(mlen, s, W.EscapeChar(c) + rest, [], s', rest)
      else Fails(mlen, s, W.EscapeChar(c) + rest)
  {
    hide DirectFeed;
    var e := W.EscapeChar(c);
    if |e| == 1 {
      OneStep(mlen, s, c, rest);
      s' := Advance(Core(mlen, s, c));
    } else {
      OneStep(mlen, s, '\\', [e[1]] + rest);
      assert e + rest == ['\\'] + ([e[1]] + rest);
      var s1 := Advance(Core(mlen, s, '\\'));
      OneStep(mlen, s1, e[1], rest);
      s' := Advance(Core(mlen, s1, e[1]));
      if |buf| < mlen {
        Chain(mlen, s, e + rest, [], s1, [e[1]] + rest, [], s', rest);
      } else {
        ChainFails(mlen, s, e + rest, [], s1, [e[1]] + rest);
      }
    }
  }

  lemma {:induction false} StrBody(mlen: nat, s: State, buf: string, isKey: bool, str: string, rest: string)
    returns (s': State)
    requires s.mode == InStr(buf, false, isKey) && (isKey ==> Top(s.lvls) == Some(ObjLvl))
    requires NoNul(str)
    ensures
      if |buf| + |str| < mlen && forall c <- str :: GoodChar(c) then
        && PastStr(s, s', isKey)
        && Continues(mlen, s, W.Escape(str) + "\"" + rest, [Str(buf + str)], s', rest)
      else Fails(mlen, s, W.Escape(str) + "\"" + rest)
    decreases |str|
  {
    hide DirectFeed, Core, W.EscapeChar, GoodChar, Continues, Fails;
    if str == [] {
      assert W.Escape(str) + "\"" + rest == "\"" + rest && buf + str == buf;
      s' := StrEnd(mlen, s, buf, isKey, rest);
    } else {
      var tail := W.Escape(str[1..]) + "\"" + rest;
      assert W.Escape(str) + "\"" + rest == W.EscapeChar(str[0]) + tail;
      var s1 := StrChar(mlen, s, buf, isKey, str[0], tail);
      if GoodChar(str[0]) && |buf| < mlen {
        s' := StrBody(mlen, s1, buf + [str[0]], isKey, str[1..], rest);
        assert buf + [str[0]] + str[1..] == buf + str;
        assert str == [str[0]] + str[1..];
        if |buf| + |str| < mlen && forall c <- str[1..] :: GoodChar(c) {
          Chain(mlen, s, W.EscapeChar(str[0]) + tail, [], s1, tail, [Str(buf + str)], s', rest);
          assert [] + [Str(buf + str)] == [Str(buf + str)];
        } else {
          ChainFails(mlen, s, W.EscapeChar(str[0]) + tail, [], s1, tail);
        }
      } else {
        assert str[0] in str;
        s' := s1;
      }
    }
  }

  /** A quoted string, as a value or as a key. */
  lemma ReadStr(mlen: nat, s: State, isKey: bool, str: string, rest: string) returns (s': State)
    requires s.valExpected && s.lvls != [] && NoNul(str)
    requires if isKey then s.mode == WantKey && Top(s.lvls) == Some(ObjLvl) else s.mode == Idle
    ensures
      if GoodStr(mlen, str) then
        PastStr(s, s', isKey) && Continues(mlen, s, W.Quote(str) + rest, [Str(str)], s', rest)
      else Fails(mlen, s, W.Quote(str) + rest)
  {
    hide DirectFeed, GoodChar, W.Escape;
    var body := W.Escape(str) + "\"" + rest;
    assert W.Quote(str) + rest == ['\"'] + body;
    OneStep(mlen, s, '\"', body);
    var s1 := Advance(Core(mlen, s, '\"'));
    assert s1.mode == InStr("", false, isKey) && s1.lvls == s.lvls && Core(mlen, s, '\"').st.cur.None?;
    s' := StrBody(mlen, s1, "", isKey, str, rest);
    assert "" + str == str;
    hide Core;
    if GoodStr(mlen, str) {
      Chain(mlen, s, ['\"'] + body, [], s1, body, [Str(str)], s', rest);
      assert [] + [Str(str)] == [Str(str)];
    } else {
      ChainFails(mlen, s, ['\"'] + body, [], s1, body);
    }
  }

  // ----- Numbers -----

  /** What the writer prints for `n`, as a number of the grammar. */
  function NumberOf(n: int): G.Number {
    G.Number(if n < 0 then "-" else "", OfNat(if n < 0 then -n else n), None, G.NoExp)
  }

  lemma NumberOfGood(n: int)
    ensures G.IsNumber(NumberOf(n)) && G.NumberText(NumberOf(n)) == OfInt(n)
    ensures N.Readable(NumberOf(n)) <==> n != 0
    ensures N.Reported(NumberOf(n)) == n as real
  {
    NumeralLength(if n < 0 then -n else n);
    hide OfNat, Pow10;
    assert OfInt(n) + "" + "" == OfInt(n);
  }

  lemma NumeralLength(n: nat)
    ensures OfNat(n)[0] == '0' ==> |OfNat(n)| == 1
    ensures OfNat(n) == "0" <==> n == 0
  {
  }

  lemma ReadInt(mlen: nat, s: State, n: int, rest: string) returns (s': State)
    requires s.mode == Idle && s.valExpected && s.lvls != []
    requires rest != [] && EndsNum(rest[0])
    ensures
      if n != 0 then PastVal(s, s') && Continues(mlen, s, OfInt(n) + rest, [Num(n as real)], s', rest)
      else Fails(mlen, s, OfInt(n) + rest)
  {
    NumberOfGood(n);
    hide NumberOf, OfInt, N.Reported, N.Readable, DirectFeed;
    s' := N.ReadNumber(mlen, s, NumberOf(n), rest);
  }

  // ----- Values -----

  predicate NoNulTree(v: Tree) {
    match v
    case StrTree(s) => NoNul(s)
    case ObjTree(fs) => NoNulFields(fs)
    case ArrTree(es) => NoNulItems(es)
    case _ => true
  }

  predicate NoNulFields(fs: Fields) {
    match fs
    case NoFields => true
    case Field(key, v, rest) => NoNul(key) && NoNulTree(v) && NoNulFields(rest)
  }

  predicate NoNulItems(es: Items) {
    match es
    case NoItems => true
    case Item(v, rest) => NoNulTree(v) && NoNulItems(rest)
  }

  predicate AtVal(s: State, v: Tree) {
    s.mode == Idle && s.valExpected && s.lvls != [] && |s.lvls| + Depth(v) <= MAX_DEPTH
  }

  /** One value: read back if it is good, refused if not. */
  lemma {:induction false} ReadValue(mlen: nat, s: State, v: Tree, rest: string) returns (s': State)
    requires AtVal(s, v) && NoNulTree(v)
    requires v.IntTree? ==> rest != [] && EndsNum(rest[0])
    ensures
      if Good(mlen, v) then PastVal(s, s') && Continues(mlen, s, Text(v) + rest, Events(v), s', rest)
      else Fails(mlen, s, Text(v) + rest)
    decreases v, 1
  {
    hide DirectFeed, Continues, Fails;
    s' := s;
    match v {
      case StrTree(str) => s' := ReadStr(mlen, s, false, str, rest);
      case IntTree(n) => s' := ReadInt(mlen, s, n, rest);
      case BoolTree(b) => s' := ReadWord(mlen, s, if b then TrueWord else FalseWord, rest);
      case NullTree => s' := ReadWord(mlen, s, NullWord, rest);
      case ObjTree(fs) => s' := ReadObj(mlen, s, fs, rest);
      case ArrTree(es) => s' := ReadArr(mlen, s, es, rest);
    }
  }

  lemma ObjParts(fs: Fields, rest: string)
    ensures Text(ObjTree(fs)) + rest == "{" + (FieldsText(fs, false) + ("}" + rest))
    ensures Events(ObjTree(fs)) == [ObjStart] + FieldEvents(fs) + [ObjEnd]
  {
    hide FieldsText, FieldEvents;
    var t := FieldsText(fs, false);
    assert "{" + t + "}" + rest == "{" + (t + ("}" + rest));
  }

  lemma {:induction false} ReadObj(mlen: nat, s: State, fs: Fields, rest: string) returns (s': State)
    requires AtVal(s, ObjTree(fs)) && NoNulFields(fs)
    ensures
      var v := ObjTree(fs);
      if GoodFields(mlen, fs) then PastVal(s, s') && Continues(mlen, s, Text(v) + rest, Events(v), s', rest)
      else Fails(mlen, s, Text(v) + rest)
    decreases ObjTree(fs), 0
  {
    hide DirectFeed, Continues, Fails;
    var text, text1, text2 := Text(ObjTree(fs)) + rest, FieldsText(fs, false) + ("}" + rest), "}" + rest;
    ObjParts(fs, rest);
    hide Text, Events;
    var s1 := ReadOpen(mlen, s, ObjLvl, text1);
    var s2 := ReadFields(mlen, s1, fs, true, false, text2);
    hide FieldsText, FieldEvents, GoodFields;
    if GoodFields(mlen, fs) {
      s' := ReadClose(mlen, s2, ObjLvl, rest);
      Chain(mlen, s, text, [ObjStart], s1, text1, FieldEvents(fs), s2, text2);
      Chain(mlen, s, text, [ObjStart] + FieldEvents(fs), s2, text2, [ObjEnd], s', rest);
    } else {
      s' := s;
      ChainFails(mlen, s, text, [ObjStart], s1, text1);
    }
  }

  lemma ArrParts(es: Items, rest: string)
    ensures Text(ArrTree(es)) + rest == "[" + (ItemsText(es, false) + ("]" + rest))
    ensures Events(ArrTree(es)) == [ArrStart] + ItemEvents(es) + [ArrEnd]
  {
    hide ItemsText, ItemEvents;
    var t := ItemsText(es, false);
    assert "[" + t + "]" + rest == "[" + (t + ("]" + rest));
  }

  lemma {:induction false} ReadArr(mlen: nat, s: State, es: Items, rest: string) returns (s': State)
    requires AtVal(s, ArrTree(es)) && NoNulItems(es)
    ensures
      var v := ArrTree(es);
      if es.Item? && GoodItems(mlen, es) then PastVal(s, s') && Continues(mlen, s, Text(v) + rest, Events(v), s', rest)
      else Fails(mlen, s, Text(v) + rest)
    decreases ArrTree(es), 0
  {
    hide DirectFeed, Continues, Fails;
    var text, text1, text2 := Text(ArrTree(es)) + rest, ItemsText(es, false) + ("]" + rest), "]" + rest;
    ArrParts(es, rest);
    hide Text, Events;
    var s1 := ReadOpen(mlen, s, ArrLvl, text1);
    if es.NoItems? {
      s' := s;
      assert text1 == [']'] + rest;
      MisplacedFails(mlen, s1, ']', rest);
      ChainFails(mlen, s, text, [ArrStart], s1, text1);
    } else {
      var s2 := ReadItems(mlen, s1, es, false, text2);
      hide ItemsText, ItemEvents, GoodItems;
      if GoodItems(mlen, es) {
        s' := ReadClose(mlen, s2, ArrLvl, rest);
        Chain(mlen, s, text, [ArrStart], s1, text1, ItemEvents(es), s2, text2);
        Chain(mlen, s, text, [ArrStart] + ItemEvents(es), s2, text2, [ArrEnd], s', rest);
      } else {
        s' := s;
        ChainFails(mlen, s, text, [ArrStart], s1, text1);
      }
    }
  }

  /** A key, its colon and its value. */
  lemma {:induction false} ReadMember(mlen: nat, s: State, key: string, v: Tree, rest: string) returns (s': State)
    requires s.mode == WantKey && s.valExpected && Top(s.lvls) == Some(ObjLvl)
    requires |s.lvls| + Depth(v) <= MAX_DEPTH && NoNul(key) && NoNulTree(v)
    requires v.IntTree? ==> rest != [] && EndsNum(rest[0])
    ensures
      var text := W.Quote(key) + (":" + (Text(v) + rest));
      if GoodStr(mlen, key) && Good(mlen, v) then
        PastVal(s, s') && Continues(mlen, s, text, [Str(key)] + Events(v), s', rest)
      else Fails(mlen, s, text)
    decreases v, 2
  {
    hide DirectFeed, Continues, Fails, W.Quote, GoodStr, Good, Text, Events;
    var text2 := Text(v) + rest;
    var text1 := ":" + text2;
    var text := W.Quote(key) + text1;
    s' := s;
    var s1 := ReadStr(mlen, s, true, key, text1);
    if GoodStr(mlen, key) {
      var s2 := ReadColon(mlen, s1, text2);
      Chain(mlen, s, text, [Str(key)], s1, text1, [], s2, text2);
      assert [Str(key)] + [] == [Str(key)];
      s' := ReadValue(mlen, s2, v, rest);
      if Good(mlen, v) {
        Chain(mlen, s, text, [Str(key)], s2, text2, Events(v), s', rest);
      } else {
        ChainFails(mlen, s, text, [Str(key)], s2, text2);
      }
    }
  }

  /** The comma before a value or a key, where there is one. */
  lemma ReadSeparator(mlen: nat, s: State, comma: bool, rest: string) returns (s': State)
    requires s.lvls != [] && if comma then s.mode == Idle && !s.valExpected else s.valExpected
    ensures s'.lvls == s.lvls && s'.valExpected
    ensures s'.mode == if !comma then s.mode else if Top(s.lvls) == Some(ObjLvl) then WantKey else Idle
    ensures Continues(mlen, s, Comma(comma) + rest, [], s', rest)
  {
    hide DirectFeed, Continues;
    if comma {
      s' := ReadComma(mlen, s, rest);
    } else {
      s' := s;
      assert "" + rest == rest;
      Stays(mlen, s, rest);
    }
  }

  lemma FieldText(comma: string, key: string, v: string, more: string, rest: string)
    ensures comma + key + ":" + v + more + rest == comma + (key + (":" + (v + (more + rest))))
  {
  }

  lemma ItemText(comma: string, v: string, more: string, rest: string)
    ensures comma + v + more + rest == comma + (v + (more + rest))
  {
  }

  lemma QuoteStarts(str: string, rest: string)
    ensures var text := W.Quote(str) + rest; text == ['\"'] + text[1..]
  {
  }

  /** The members of an object from its first one on, or after some of them. */
  lemma {:induction false} ReadFields(mlen: nat, s: State, fs: Fields, first: bool, comma: bool, rest: string)
    returns (s': State)
    requires Top(s.lvls) == Some(ObjLvl) && |s.lvls| + FieldsDepth(fs) <= MAX_DEPTH && NoNulFields(fs)
    requires if first then s.mode == WantKey && s.valExpected && !comma else s.mode == Idle && !s.valExpected
    requires rest != [] && rest[0] == '}'
    ensures
      var text := FieldsText(fs, comma) + rest;
      if GoodFields(mlen, fs) && (fs.Field? ==> first || comma) then
        s'.lvls == s.lvls && Closable(s', ObjLvl) && Continues(mlen, s, text, FieldEvents(fs), s', rest)
      else Fails(mlen, s, text)
    decreases fs
  {
    hide DirectFeed, Fails, Continues, W.Quote, GoodStr, Text, Events, Good, NoNulTree;
    s' := s;
    if fs.NoFields? {
      assert "" + rest == rest;
      Stays(mlen, s, rest);
    } else {
      var more := FieldsText(fs.rest, !fs.v.ArrTree?) + rest;
      assert fs.v.IntTree? ==> EndsNum(more[0]);
      var text1 := W.Quote(fs.key) + (":" + (Text(fs.v) + more));
      var text := FieldsText(fs, comma) + rest;
      FieldText(Comma(comma), W.Quote(fs.key), Text(fs.v), FieldsText(fs.rest, !fs.v.ArrTree?), rest);
      assert text == Comma(comma) + text1;
      if first || comma {
        var s1 := ReadSeparator(mlen, s, comma, text1);
        var s2 := ReadMember(mlen, s1, fs.key, fs.v, more);
        s' := ReadMore(mlen, s, s1, s2, fs, text, text1, rest);
      } else {
        QuoteStarts(fs.key, ":" + (Text(fs.v) + more));
        assert text == text1;
        MisplacedFails(mlen, s, '\"', text1[1..]);
      }
    }
  }

  /** The members after one that has been read, with `s1` and `s2` the states before and after that one. */
  lemma {:induction false} ReadMore(mlen: nat, s: State, s1: State, s2: State, fs: Fields, text: string, text1: string,
                                    rest: string)
    returns (s': State)
    requires fs.Field? && Top(s.lvls) == Some(ObjLvl) && |s.lvls| + FieldsDepth(fs.rest) <= MAX_DEPTH
    requires NoNulFields(fs.rest) && rest != [] && rest[0] == '}'
    requires Continues(mlen, s, text, [], s1, text1) && s1.lvls == s.lvls
    requires
      if GoodStr(mlen, fs.key) && Good(mlen, fs.v) then
        && PastVal(s1, s2)
        && Continues(mlen, s1, text1, [Str(fs.key)] + Events(fs.v), s2, FieldsText(fs.rest, !fs.v.ArrTree?) + rest)
      else Fails(mlen, s1, text1)
    ensures
      if GoodFields(mlen, fs) then
        s'.lvls == s.lvls && Closable(s', ObjLvl) && Continues(mlen, s, text, FieldEvents(fs), s', rest)
      else Fails(mlen, s, text)
    decreases fs, 0
  {
    var evs := [Str(fs.key)] + Events(fs.v);
    var more := FieldsText(fs.rest, !fs.v.ArrTree?) + rest;
    assert GoodFields(mlen, fs) <==>
           && GoodStr(mlen, fs.key) && Good(mlen, fs.v) && GoodFields(mlen, fs.rest)
           && (fs.rest.Field? ==> !fs.v.ArrTree?);
    assert FieldEvents(fs) == evs + FieldEvents(fs.rest);
    hide DirectFeed, Fails, Continues, GoodStr, Text, Events, Good, GoodFields, FieldEvents, FieldsText;
    s' := s;
    if GoodStr(mlen, fs.key) && Good(mlen, fs.v) {
      Chain(mlen, s, text, [], s1, text1, evs, s2, more);
      assert [] + evs == evs;
      s' := ReadFields(mlen, s2, fs.rest, false, !fs.v.ArrTree?, rest);
      if GoodFields(mlen, fs) {
        Chain(mlen, s, text, evs, s2, more, FieldEvents(fs.rest), s', rest);
      } else {
        ChainFails(mlen, s, text, evs, s2, more);
      }
    } else {
      ChainFails(mlen, s, text, [], s1, text1);
    }
  }

  /** The elements of an array from its first one on, or after some of them. */
  lemma {:induction false} ReadItems(mlen: nat, s: State, es: Items, comma: bool, rest: string) returns (s': State)
    requires Top(s.lvls) == Some(ArrLvl) && |s.lvls| + ItemsDepth(es) <= MAX_DEPTH && NoNulItems(es)
    requires s.mode == Idle && s.valExpected == !comma && (comma || es.Item?)
    requires rest != [] && rest[0] == ']'
    ensures
      var text := ItemsText(es, comma) + rest;
      if GoodItems(mlen, es) then
        s'.lvls == s.lvls && Closable(s', ArrLvl) && Continues(mlen, s, text, ItemEvents(es), s', rest)
      else Fails(mlen, s, text)
    decreases es
  {
    hide DirectFeed, Fails, Continues, Text, Events, Good, NoNulTree;
    s' := s;
    if es.NoItems? {
      assert "" + rest == rest;
      Stays(mlen, s, rest);
    } else {
      var more := ItemsText(es.rest, true) + rest;
      assert EndsNum(more[0]);
      var text, text1 := ItemsText(es, comma) + rest, Text(es.v) + more;
      ItemText(Comma(comma), Text(es.v), ItemsText(es.rest, true), rest);
      assert text == Comma(comma) + text1;
      var s1 := ReadSeparator(mlen, s, comma, text1);
      var s2 := ReadValue(mlen, s1, es.v, more);
      assert ItemEvents(es) == Events(es.v) + ItemEvents(es.rest);
      if Good(mlen, es.v) {
        Chain(mlen, s, text, [], s1, text1, Events(es.v), s2, more);
        assert [] + Events(es.v) == Events(es.v);
        s' := ReadItems(mlen, s2, es.rest, true, rest);
        hide ItemsText, ItemEvents;
        if GoodItems(mlen, es.rest) {
          Chain(mlen, s, text, Events(es.v), s2, more, ItemEvents(es.rest), s', rest);
        } else {
          ChainFails(mlen, s, text, Events(es.v), s2, more);
        }
      } else {
        ChainFails(mlen, s, text, [], s1, text1);
      }
    }
  }

  // ----- Documents -----

  lemma ReadDocument(mlen: nat, fs: Fields)
    requires Depth(ObjTree(fs)) <= MAX_DEPTH && NoNulFields(fs)
    ensures
      var o := DirectFeed(mlen, INIT, Text(ObjTree(fs)) + "\0");
      if GoodFields(mlen, fs) then o.res == Fin && o.events == Events(ObjTree(fs)) else o.res == Syntax
  {
    hide DirectFeed, FieldsText, FieldEvents, GoodFields;
    var text, text1, text2 := Text(ObjTree(fs)) + "\0", FieldsText(fs, false) + "}\0", "}\0";
    assert text == "{" + text1;
    var s1 := ReadOpen(mlen, INIT, ObjLvl, text1);
    assert s1.lvls == [ObjLvl];
    var s2 := ReadFields(mlen, s1, fs, true, false, text2);
    if GoodFields(mlen, fs) {
      Chain(mlen, INIT, text, [ObjStart], s1, text1, FieldEvents(fs), s2, text2);
      assert text2 == "}" + "\0";
      LastClose(mlen, s2, "\0");
    } else {
      ChainFails(mlen, INIT, text, [ObjStart], s1, text1);
    }
  }

  // ----- The written text is a C string -----

  lemma {:induction false} EscapeNoNul(s: string)
    requires NoNul(s)
    ensures NoNul(W.Escape(s))
    decreases |s|
  {
    if s != [] {
      EscapeNoNul(s[1..]);
    }
  }

  lemma NumeralNoNul(n: int)
    ensures NoNul(OfInt(n))
  {
  }

  lemma {:induction false} TextNoNul(v: Tree)
    requires NoNulTree(v)
    ensures NoNul(Text(v))
    decreases v
  {
    match v
    case StrTree(s) => EscapeNoNul(s);
    case IntTree(n) => NumeralNoNul(n);
    case BoolTree(_) =>
    case NullTree =>
    case ObjTree(fs) => FieldsTextNoNul(fs, false);
    case ArrTree(es) => ItemsTextNoNul(es, false);
  }

  lemma {:induction false} FieldsTextNoNul(fs: Fields, comma: bool)
    requires NoNulFields(fs)
    ensures NoNul(FieldsText(fs, comma))
    decreases fs
  {
    if fs.Field? {
      EscapeNoNul(fs.key);
      TextNoNul(fs.v);
      FieldsTextNoNul(fs.rest, !fs.v.ArrTree?);
    }
  }

  lemma {:induction false} ItemsTextNoNul(es: Items, comma: bool)
    requires NoNulItems(es)
    ensures NoNul(ItemsText(es, comma))
    decreases es
  {
    if es.Item? {
      TextNoNul(es.v);
      ItemsTextNoNul(es.rest, true);
    }
  }

  /**
   The round trip, exactly. Take any document that the compact writer accepted
   call by call, into a buffer of any size, and feed its text and the closing NUL
   to a reader with string buffers of `rlen` characters. The reader ends with fin
   after exactly the document's events, each once and in order, if and only if
   the document is good; otherwise it answers with a syntax error.
   */
  lemma RoundTrip(wlen: nat, rlen: nat, fs: Fields)
    requires NoNulFields(fs)
    requires AllOk(JsonWriterRuns.Run(W.Setup(wlen, false), Calls(ObjTree(fs))).1)
    ensures
      var text := JsonWriterRuns.Run(W.Setup(wlen, false), Calls(ObjTree(fs))).0.text;
      var o := Feed(rlen, INIT, text + "\0");
      && (o.res == Fin && o.events == Events(ObjTree(fs)) <==> Good(rlen, ObjTree(fs)))
      && (!Good(rlen, ObjTree(fs)) ==> o.res == Syntax)
  {
    hide DirectFeed, Feed, JsonWriterRuns.Run, Calls, Events, Text, GoodFields, FieldsDepth;
    WritesTree(wlen, fs);
    var text := Text(ObjTree(fs));
    TextNoNul(ObjTree(fs));
    ReadDocument(rlen, fs);
    Transparent(rlen, text + "\0");
    var ref, o := DirectFeed(rlen, INIT, text + "\0"), Feed(rlen, INIT, text + "\0");
    assert ref.res == Fin ==> [] + ref.events == o.events;
  }

  /** Three documents that are written without complaint and refused by the reader. */
  function Lost(): seq<Fields> {
    [Field("", IntTree(0), NoFields),
     Field("", ArrTree(NoItems), NoFields),
     Field("", ArrTree(Item(NullTree, NoItems)), Field("", NullTree, NoFields))]
  }

  /** A bare zero; an empty array; a member after an array, where the writer leaves out the comma. */
  lemma LostTexts()
    ensures Text(ObjTree(Lost()[0])) == "{\"\":0}"
    ensures Text(ObjTree(Lost()[1])) == "{\"\":[]}"
    ensures Text(ObjTree(Lost()[2])) == "{\"\":[null]\"\":null}"
  {
    assert FieldsText(Field("", NullTree, NoFields), false) == "\"\":null";
    assert Text(ArrTree(Item(NullTree, NoItems))) == "[null]";
    assert OfInt(0) == "0";
  }

  lemma LostDocuments(wlen: nat, rlen: nat, k: nat)
    requires k < 3 && wlen >= 20
    ensures
      var (c, rs) := JsonWriterRuns.Run(W.Setup(wlen, false), Calls(ObjTree(Lost()[k])));
      AllOk(rs) && Feed(rlen, INIT, c.text + "\0").res == Syntax
  {
    hide Feed, JsonWriterRuns.Run, Calls, Events, Text;
    var fs := Lost()[k];
    LostTexts();
    WritesTree(wlen, fs);
    assert Depth(ObjTree(fs)) <= 2;
    RoundTrip(wlen, rlen, fs);
    assert !Good(rlen, fs.v) || (fs.v.ArrTree? && fs.rest.Field?);
    assert !GoodFields(rlen, fs);
  }
}
