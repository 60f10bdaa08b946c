/**
 The JSON reader is sound: a text it finishes is a grammatical object. Along a
 run, the characters read so far are kept as a partial syntax tree: the open
 objects and arrays, each with the members read so far, and the token being read.
 */
module JsonSoundness {
  import opened Chars
  import opened Decimal
  import opened JsonGrammar
  import opened JsonLevels
  import opened JsonLookahead
  import opened JsonReader
  import opened JsonReaderRuns
  import opened Options

  /** How far the current member or element of an open object or array has come. */
  datatype Part =
    | BeforeKey(w1: string)
    | InKey(w1: string)
    | AfterKey(w1: string, key: string, w2: string)
    | BeforeVal(w1: string, key: string, w2: string, w3: string)
    | InVal(w1: string, key: string, w2: string, w3: string)
    | AfterVal(m: Member)
    | BeforeElem(w1: string)
    | InElem(w1: string)
    | AfterElem(e: Elem)

  datatype Open = ObjOpen(ms: Members, part: Part) | ArrOpen(es: Option<Elems>, part: Part)

  datatype Token = NoToken | StrToken(body: string) | NumToken(n: Number) | WordToken(w: Word, at: nat)

  datatype Build = Build(pre: string, opens: seq<Open>, tok: Token)

  function PartText(p: Part): string {
    match p
    case BeforeKey(w1) => w1
    case InKey(w1) => w1
    case AfterKey(w1, key, w2) => w1 + key + w2
    case BeforeVal(w1, key, w2, w3) => w1 + key + w2 + ":" + w3
    case InVal(w1, key, w2, w3) => w1 + key + w2 + ":" + w3
    case AfterVal(m) => MemberText(m)
    case BeforeElem(w1) => w1
    case InElem(w1) => w1
    case AfterElem(e) => ElemText(e)
  }

  function OpenText(o: Open): string {
    match o
    case ObjOpen(ms, p) => "{" + MembersLead(ms) + PartText(p)
    case ArrOpen(None, p) => "[" + PartText(p)
    case ArrOpen(Some(es), p) => "[" + (ElemsText(es) + ",") + PartText(p)
  }

  function OpensText(os: seq<Open>): string {
    if os == [] then "" else OpensText(os[..|os| - 1]) + OpenText(os[|os| - 1])
  }

  function TokenText(t: Token): string {
    match t
    case NoToken => ""
    case StrToken(body) => "\"" + body
    case NumToken(n) => NumberText(n)
    case WordToken(w, at) => if at <= |WordText(w)| then WordText(w)[..at] else ""
  }

  function BuildText(b: Build): string {
    b.pre + OpensText(b.opens) + TokenText(b.tok)
  }

  predicate PartValid(p: Part) {
    match p
    case BeforeKey(w1) => IsBlank(w1)
    case InKey(w1) => IsBlank(w1)
    case AfterKey(w1, key, w2) => IsBlank(w1) && IsString(key) && IsBlank(w2)
    case BeforeVal(w1, key, w2, w3) => IsBlank(w1) && IsString(key) && IsBlank(w2) && IsBlank(w3)
    case InVal(w1, key, w2, w3) => IsBlank(w1) && IsString(key) && IsBlank(w2) && IsBlank(w3)
    case AfterVal(m) => MemberValid(m)
    case BeforeElem(w1) => IsBlank(w1)
    case InElem(w1) => IsBlank(w1)
    case AfterElem(e) => ElemValid(e)
  }

  predicate OpenValid(l: Lvl, o: Open) {
    && PartValid(o.part)
    && match o
       case ObjOpen(ms, p) => l == ObjLvl && MembersValid(ms) && !p.BeforeElem? && !p.InElem? && !p.AfterElem?
       case ArrOpen(es, p) => l == ArrLvl && (es.Some? ==> ElemsValid(es.value)) && (p.BeforeElem? || p.InElem? || p.AfterElem?)
  }

  /** A value is being read inside this object or array. */
  predicate Waiting(o: Open) {
    o.part.InVal? || o.part.InElem?
  }

  /** The partial tree without its innermost part. */
  ghost predicate Base(lvls: seq<Lvl>, b: Build) {
    && IsBlank(b.pre)
    && |lvls| == |b.opens|
    && (forall i | 0 <= i < |lvls| :: OpenValid(lvls[i], b.opens[i]))
    && (forall i | 0 <= i < |lvls| - 1 :: Waiting(b.opens[i]))
  }

  function TopOpen(b: Build): Open
    requires b.opens != []
  {
    b.opens[|b.opens| - 1]
  }

  function SetTop(b: Build, o: Open): Build
    requires b.opens != []
  {
    b.(opens := b.opens[..|b.opens| - 1] + [o])
  }

  /** The innermost part and the token are the ones the reader's state stands for. */
  ghost predicate Fits(s: State, b: Build)
    requires b.opens != []
  {
    var p := TopOpen(b).part;
    match s.mode
    case Idle =>
      && b.tok == NoToken
      && (s.valExpected ==> p.BeforeVal? || p.BeforeElem?)
      && (!s.valExpected ==> p.AfterVal? || p.AfterElem?)
    case WantKey => b.tok == NoToken && p.BeforeKey?
    case WantColon => b.tok == NoToken && p.AfterKey?
    case InStr(_, esc, isKey) =>
      && (if isKey then p.InKey? else Waiting(TopOpen(b)))
      && b.tok.StrToken?
      && if esc then b.tok.body != [] && b.tok.body[|b.tok.body| - 1] == '\\' && IsStrBody(b.tok.body[..|b.tok.body| - 1])
         else IsStrBody(b.tok.body)
    case InNum(d) => Waiting(TopOpen(b)) && b.tok.NumToken? && Partial(d, b.tok.n)
    case InWord(w, at) => Waiting(TopOpen(b)) && b.tok == WordToken(w, at)
  }

  ghost predicate Rel(s: State, b: Build) {
    && Base(s.lvls, b)
    && if s.lvls == [] then s.mode == Idle && b.tok == NoToken else Fits(s, b)
  }

  // ----- Numbers -----

  predicate WholeOk(w: string) {
    AllDigits(w) && w != [] && (w[0] == '0' ==> |w| == 1)
  }

  /** The number read so far, as the scanner's data describes it. */
  predicate Partial(d: NumData, n: Number) {
    && (forall i | 0 <= i < |n.signs| :: n.signs[i] == '-')
    && match d.part
       case IntPart =>
         && n.frac.None? && n.exp.NoExp?
         && AllDigits(n.whole) && |n.whole| == d.digitPos && (n.whole != [] ==> n.whole[0] != '0')
       case LeadingZero => n.frac.None? && n.exp.NoExp? && n.whole == "0" && d.digitPos == 0
       case FracPart =>
         && WholeOk(n.whole) && n.exp.NoExp?
         && n.frac.Some? && AllDigits(n.frac.value) && |n.frac.value| == d.digitPos
       case ExpPart =>
         && WholeOk(n.whole) && (n.frac.Some? ==> AllDigits(n.frac.value) && n.frac.value != [])
         && n.exp.Exp? && (n.exp.mark == 'e' || n.exp.mark == 'E')
         && (forall i | 0 <= i < |n.exp.signs| :: n.exp.signs[i] == '+' || n.exp.signs[i] == '-')
         && AllDigits(n.exp.digits) && |n.exp.digits| == d.digitPos
  }

  /** The number with one more character at its end. */
  function WithChar(n: Number, ch: char): Number {
    if n.exp.Exp? then
      if IsDigit(ch) then n.(exp := n.exp.(digits := n.exp.digits + [ch]))
      else n.(exp := n.exp.(signs := n.exp.signs + [ch]))
    else if ch == 'e' || ch == 'E' then n.(exp := Exp(ch, "", ""))
    else if n.frac.Some? then n.(frac := Some(n.frac.value + [ch]))
    else if ch == '.' then n.(frac := Some(""))
    else if IsDigit(ch) then n.(whole := n.whole + [ch])
    else n.(signs := n.signs + [ch])
  }

  lemma WithCharText(n: Number, ch: char)
    requires n.exp.Exp? && !IsDigit(ch) ==> n.exp.digits == []
    requires n.exp.NoExp? && n.frac.None? && !IsDigit(ch) && ch != '.' && ch != 'e' && ch != 'E' ==> n.whole == []
    ensures NumberText(WithChar(n, ch)) == NumberText(n) + [ch]
  {
    var n' := WithChar(n, ch);
    if n.exp.Exp? {
      assert ExpText(n'.exp) == ExpText(n.exp) + [ch];
    } else if n.frac.Some? {
      assert FracText(n'.frac) + ExpText(n'.exp) == FracText(n.frac) + [ch];
    }
  }

  lemma NumberGrows(d: NumData, n: Number, ch: char)
    requires Partial(d, n) && NumStep(d, ch).Some?
    ensures Partial(NumStep(d, ch).value, WithChar(n, ch))
    ensures NumberText(WithChar(n, ch)) == NumberText(n) + [ch]
  {
    hide Signed, AddFracDigit, NumberText;
    WithCharText(n, ch);
    NumberGrowsPartial(d, n, ch);
  }

  lemma NumberGrowsPartial(d: NumData, n: Number, ch: char)
    requires Partial(d, n) && NumStep(d, ch).Some?
    ensures Partial(NumStep(d, ch).value, WithChar(n, ch))
  {
    hide Signed, DigitValue;
    match d.part
    case LeadingZero =>
    case IntPart =>
    case FracPart =>
    case ExpPart =>
  }

  // ----- Growing the tree -----

  function WithPart(o: Open, p: Part): Open {
    match o
    case ObjOpen(ms, _) => ObjOpen(ms, p)
    case ArrOpen(es, _) => ArrOpen(es, p)
  }

  /** The innermost part and the token replaced, everything else as it was. */
  function Replace(b: Build, o: Open, tok: Token): Build
    requires b.opens != []
  {
    SetTop(b, o).(tok := tok)
  }

  lemma ReplaceGood(lvls: seq<Lvl>, b: Build, o: Open, tok: Token, extra: string)
    requires Base(lvls, b) && b.opens != [] && OpenValid(lvls[|lvls| - 1], o)
    requires OpenText(o) + TokenText(tok) == OpenText(TopOpen(b)) + TokenText(b.tok) + extra
    ensures Base(lvls, Replace(b, o, tok)) && TopOpen(Replace(b, o, tok)) == o
    ensures BuildText(Replace(b, o, tok)) == BuildText(b) + extra
  {
    hide OpenText, TokenText, OpenValid;
    var b', rest := Replace(b, o, tok), b.opens[..|b.opens| - 1];
    assert b'.opens[..|rest|] == rest;
    assert OpensText(b'.opens) == OpensText(rest) + OpenText(o);
    calc {
      BuildText(b');
      b.pre + (OpensText(rest) + OpenText(o)) + TokenText(tok);
      b.pre + OpensText(rest) + (OpenText(o) + TokenText(tok));
      b.pre + OpensText(rest) + (OpenText(TopOpen(b)) + TokenText(b.tok) + extra);
      b.pre + (OpensText(rest) + OpenText(TopOpen(b))) + TokenText(b.tok) + extra;
    }
  }

  lemma PartGrows(o: Open, p: Part, extra: string)
    requires PartText(p) == PartText(o.part) + extra
    ensures OpenText(WithPart(o, p)) == OpenText(o) + extra
  {
    hide PartText, MembersLead, ElemsText;
    match o
    case ObjOpen(ms, q) =>
      assert "{" + MembersLead(ms) + (PartText(q) + extra) == "{" + MembersLead(ms) + PartText(q) + extra;
    case ArrOpen(None, q) =>
      assert "[" + (PartText(q) + extra) == "[" + PartText(q) + extra;
    case ArrOpen(Some(es), q) =>
      assert "[" + (ElemsText(es) + ",") + (PartText(q) + extra) == "[" + (ElemsText(es) + ",") + PartText(q) + extra;
  }

  /** Only the innermost part changes, and it grows by `extra`. */
  lemma PartReplaced(lvls: seq<Lvl>, b: Build, p: Part, extra: string) returns (b': Build)
    requires Base(lvls, b) && b.opens != [] && b.tok == NoToken
    requires PartText(p) == PartText(TopOpen(b).part) + extra
    requires OpenValid(lvls[|lvls| - 1], WithPart(TopOpen(b), p))
    ensures b' == Replace(b, WithPart(TopOpen(b), p), NoToken)
    ensures Base(lvls, b') && b'.opens != [] && TopOpen(b').part == p && b'.tok == NoToken
    ensures BuildText(b') == BuildText(b) + extra
  {
    hide PartText, OpenText, OpenValid;
    PartGrows(TopOpen(b), p, extra);
    b' := Replace(b, WithPart(TopOpen(b), p), NoToken);
    ReplaceGood(lvls, b, WithPart(TopOpen(b), p), NoToken, extra);
  }

  function AddBlank(p: Part, ch: char): Part {
    match p
    case BeforeKey(w1) => BeforeKey(w1 + [ch])
    case AfterKey(w1, key, w2) => AfterKey(w1, key, w2 + [ch])
    case BeforeVal(w1, key, w2, w3) => BeforeVal(w1, key, w2, w3 + [ch])
    case AfterVal(m) => AfterVal(m.(w4 := m.w4 + [ch]))
    case BeforeElem(w1) => BeforeElem(w1 + [ch])
    case AfterElem(e) => AfterElem(e.(w2 := e.w2 + [ch]))
    case _ => p
  }

  lemma AddBlankGood(l: Lvl, o: Open, ch: char)
    requires OpenValid(l, o) && IsWhitespace(ch) && !o.part.InKey? && !Waiting(o)
    ensures PartText(AddBlank(o.part, ch)) == PartText(o.part) + [ch]
    ensures OpenValid(l, WithPart(o, AddBlank(o.part, ch)))
  {
    hide Text;
  }

  lemma BlankBefore(s: State, b: Build, ch: char)
    requires Rel(s, b) && IsWhitespace(ch) && s.lvls == []
    ensures Rel(s, b.(pre := b.pre + [ch])) && BuildText(b.(pre := b.pre + [ch])) == BuildText(b) + [ch]
  {
    assert OpensText(b.opens) == "";
    hide OpensText;
  }

  /** A blank where blanks may stand. */
  lemma BlankRead(s: State, b: Build, ch: char) returns (b': Build)
    requires Rel(s, b) && IsWhitespace(ch) && (s.mode == Idle || s.mode == WantKey || s.mode == WantColon)
    ensures Rel(s, b') && BuildText(b') == BuildText(b) + [ch]
  {
    if s.lvls == [] {
      b' := b.(pre := b.pre + [ch]);
      BlankBefore(s, b, ch);
      hide Rel, BuildText;
    } else {
      AddBlankGood(s.lvls[|s.lvls| - 1], TopOpen(b), ch);
      hide PartText, OpenValid, OpensText;
      b' := PartReplaced(s.lvls, b, AddBlank(TopOpen(b).part, ch), [ch]);
    }
  }

  /** The part in which a value has been begun, or has been completed with `v`. */
  function Begun(p: Part): Part {
    match p
    case BeforeVal(w1, key, w2, w3) => InVal(w1, key, w2, w3)
    case BeforeElem(w1) => InElem(w1)
    case _ => p
  }

  function Completed(p: Part, v: Val): Part {
    match p
    case InVal(w1, key, w2, w3) => AfterVal(Member(w1, key, w2, w3, v, ""))
    case InElem(w1) => AfterElem(Elem(w1, v, ""))
    case _ => p
  }

  lemma CompletedGood(l: Lvl, o: Open, v: Val)
    requires OpenValid(l, o) && Waiting(o) && Valid(v)
    ensures OpenValid(l, WithPart(o, Completed(o.part, v)))
    ensures OpenText(WithPart(o, Completed(o.part, v))) == OpenText(o) + Text(v)
  {
    hide Text, Valid, OpenText;
    assert PartText(Completed(o.part, v)) == PartText(o.part) + Text(v);
    PartGrows(o, Completed(o.part, v), Text(v));
  }

  /** The innermost value is complete: the token's text and `extra` are the value `v`. */
  lemma ValueRead(lvls: seq<Lvl>, b: Build, v: Val, extra: string) returns (b': Build)
    requires Base(lvls, b) && b.opens != [] && Waiting(TopOpen(b)) && Valid(v)
    requires Text(v) == TokenText(b.tok) + extra
    ensures Base(lvls, b') && b'.opens != [] && b'.tok == NoToken
    ensures TopOpen(b').part.AfterVal? || TopOpen(b').part.AfterElem?
    ensures BuildText(b') == BuildText(b) + extra
  {
    var o := TopOpen(b);
    CompletedGood(lvls[|lvls| - 1], o, v);
    hide OpenText, TokenText, Valid, Text, OpenValid;
    var o' := WithPart(o, Completed(o.part, v));
    assert OpenText(o') + TokenText(NoToken) == OpenText(o) + TokenText(b.tok) + extra by {
      assert TokenText(NoToken) == "" by { NoTokenText(); }
    }
    b' := Replace(b, o', NoToken);
    ReplaceGood(lvls, b, o', NoToken, extra);
  }

  lemma NoTokenText()
    ensures TokenText(NoToken) == ""
  {
  }

  lemma BegunGood(l: Lvl, o: Open)
    requires OpenValid(l, o) && (o.part.BeforeVal? || o.part.BeforeElem?)
    ensures
      var o' := WithPart(o, Begun(o.part));
      OpenValid(l, o') && Waiting(o') && OpenText(o') == OpenText(o)
  {
    hide OpenText, MembersValid, ElemsValid, MemberValid, ElemValid;
    var p := Begun(o.part);
    assert PartText(p) == PartText(o.part) + "";
    PartGrows(o, p, "");
    assert OpenText(o) + "" == OpenText(o);
  }

  /** A token is begun where a value is expected. */
  lemma TokenBegun(lvls: seq<Lvl>, b: Build, tok: Token) returns (b': Build)
    requires Base(lvls, b) && b.opens != [] && b.tok == NoToken
    requires TopOpen(b).part.BeforeVal? || TopOpen(b).part.BeforeElem?
    ensures Base(lvls, b') && b'.opens != [] && Waiting(TopOpen(b')) && b'.tok == tok
    ensures BuildText(b') == BuildText(b) + TokenText(tok)
  {
    hide OpenValid, OpenText, TokenText, BuildText;
    var o := TopOpen(b);
    var o' := WithPart(o, Begun(o.part));
    BegunGood(lvls[|lvls| - 1], o);
    NoTokenText();
    assert OpenText(o') + TokenText(tok) == OpenText(o) + "" + TokenText(tok);
    ReplaceGood(lvls, b, o', tok, TokenText(tok));
    hide Base;
    b' := Replace(b, o', tok);
  }

  function NewOpen(l: Lvl): Open {
    if l == ObjLvl then ObjOpen(NoMembers, BeforeKey("")) else ArrOpen(None, BeforeElem(""))
  }

  function Bracket(l: Lvl): char {
    if l == ObjLvl then '{' else '['
  }

  lemma PushedBase(lvls: seq<Lvl>, b: Build, o: Open, l: Lvl)
    requires Base(lvls, b) && (b.opens != [] ==> Waiting(TopOpen(b))) && OpenValid(l, o)
    ensures Base(lvls + [l], b.(opens := b.opens + [o]))
  {
    hide OpenValid, Waiting;
  }

  lemma PushedText(b: Build, o: Open)
    requires b.tok == NoToken
    ensures BuildText(b.(opens := b.opens + [o])) == BuildText(b) + OpenText(o)
  {
    hide OpenText, TokenText;
    NoTokenText();
    var opens' := b.opens + [o];
    assert opens'[..|b.opens|] == b.opens;
    assert OpensText(opens') == OpensText(b.opens) + OpenText(o);
    hide OpensText;
    assert b.pre + (OpensText(b.opens) + OpenText(o)) + "" == b.pre + OpensText(b.opens) + "" + OpenText(o);
  }

  lemma Pushed(lvls: seq<Lvl>, b: Build, l: Lvl)
    requires Base(lvls, b) && b.tok == NoToken && (b.opens != [] ==> Waiting(TopOpen(b)))
    ensures
      var b' := b.(opens := b.opens + [NewOpen(l)]);
      && Base(lvls + [l], b') && TopOpen(b') == NewOpen(l)
      && BuildText(b') == BuildText(b) + [Bracket(l)]
  {
    hide OpenText, Base, BuildText;
    PushedBase(lvls, b, NewOpen(l), l);
    PushedText(b, NewOpen(l));
    NewOpenText(l);
  }

  /** An object or array is opened at the top level or where a value is expected. */
  lemma Opened(lvls: seq<Lvl>, b: Build, l: Lvl) returns (b': Build)
    requires Base(lvls, b) && b.tok == NoToken
    requires b.opens != [] ==> TopOpen(b).part.BeforeVal? || TopOpen(b).part.BeforeElem?
    ensures Base(lvls + [l], b') && b'.opens != [] && b'.tok == NoToken && TopOpen(b') == NewOpen(l)
    ensures BuildText(b') == BuildText(b) + [Bracket(l)]
  {
    hide OpenText, TokenText, Base, BuildText;
    var b1 := b;
    if b.opens != [] {
      b1 := TokenBegun(lvls, b, NoToken);
      NoTokenText();
    }
    Pushed(lvls, b1, l);
    b' := b1.(opens := b1.opens + [NewOpen(l)]);
  }

  lemma NewOpenText(l: Lvl)
    ensures OpenText(NewOpen(l)) == [Bracket(l)]
  {
  }

  /** The innermost object or array is closed: its text and `extra` are the value `v`. */
  lemma Closed(lvls: seq<Lvl>, b: Build, v: Val, extra: string) returns (b': Build)
    requires Base(lvls, b) && b.opens != [] && b.tok == NoToken
    requires Valid(v) && Text(v) == OpenText(TopOpen(b)) + extra
    ensures |lvls| == 1 ==> BuildText(b) + extra == b.pre + Text(v)
    ensures |lvls| > 1 ==>
              && Base(Pop(lvls), b') && b'.opens != [] && b'.tok == NoToken
              && (TopOpen(b').part.AfterVal? || TopOpen(b').part.AfterElem?)
              && BuildText(b') == BuildText(b) + extra
  {
    hide OpenText, TokenText, Valid, Text, OpenValid;
    NoTokenText();
    var rest := b.opens[..|b.opens| - 1];
    var b0 := b.(opens := rest);
    assert BuildText(b) + extra == BuildText(b0) + Text(v);
    b' := b0;
    if |lvls| > 1 {
      b' := ValueRead(Pop(lvls), b0, v, Text(v));
    }
  }

  /** The object that a closing brace completes here. */
  function ObjectOf(o: Open): Val
    requires o.ObjOpen? && (o.part.AfterVal? || o.part.BeforeKey?)
  {
    if o.part.AfterVal? then ObjVal(Members(o.ms, o.part.m), NoTail) else ObjVal(o.ms, Tail(o.part.w1))
  }

  lemma ObjectOfGood(l: Lvl, o: Open)
    requires OpenValid(l, o) && o.ObjOpen? && (o.part.AfterVal? || o.part.BeforeKey?)
    ensures Valid(ObjectOf(o)) && Text(ObjectOf(o)) == OpenText(o) + "}"
  {
    if o.part.AfterVal? {
      assert MembersText(Members(o.ms, o.part.m)) == MembersLead(o.ms) + MemberText(o.part.m);
    }
    hide MemberText, MembersLead, MembersText;
  }

  function ElemsOf(o: Open): Elems
    requires o.ArrOpen? && o.part.AfterElem?
  {
    if o.es.None? then OneElem(o.part.e) else Elems(o.es.value, o.part.e)
  }

  lemma ElemsOfGood(l: Lvl, o: Open)
    requires OpenValid(l, o) && o.ArrOpen? && o.part.AfterElem?
    ensures ElemsValid(ElemsOf(o)) && OpenText(o) == "[" + ElemsText(ElemsOf(o))
  {
    if o.es.Some? {
      assert ElemsText(ElemsOf(o)) == ElemsText(o.es.value) + "," + ElemText(o.part.e);
    }
    hide ElemText;
  }

  lemma CommaInObject(l: Lvl, o: Open)
    requires OpenValid(l, o) && o.ObjOpen? && o.part.AfterVal?
    ensures
      var o' := ObjOpen(Members(o.ms, o.part.m), BeforeKey(""));
      OpenValid(l, o') && OpenText(o') == OpenText(o) + ","
  {
    var lead := MembersLead(o.ms);
    assert MembersLead(Members(o.ms, o.part.m)) == lead + MemberText(o.part.m) + ",";
    hide MembersLead, MemberText, MemberValid;
    assert "{" + (lead + MemberText(o.part.m) + ",") + "" == "{" + lead + MemberText(o.part.m) + ",";
  }

  lemma CommaInArray(l: Lvl, o: Open)
    requires OpenValid(l, o) && o.ArrOpen? && o.part.AfterElem?
    ensures
      var o' := ArrOpen(Some(ElemsOf(o)), BeforeElem(""));
      OpenValid(l, o') && OpenText(o') == OpenText(o) + ","
  {
    ElemsOfGood(l, o);
    hide ElemsText, ElemsOf, ElemsValid;
    var t := ElemsText(ElemsOf(o));
    assert "[" + (t + ",") + "" == "[" + t + ",";
  }

  /** A comma after a member or an element. */
  lemma CommaRead(lvls: seq<Lvl>, b: Build) returns (b': Build)
    requires Base(lvls, b) && b.opens != [] && b.tok == NoToken
    requires TopOpen(b).part.AfterVal? || TopOpen(b).part.AfterElem?
    ensures Base(lvls, b') && b'.opens != [] && b'.tok == NoToken
    ensures if lvls[|lvls| - 1] == ObjLvl then TopOpen(b').part.BeforeKey? else TopOpen(b').part.BeforeElem?
    ensures BuildText(b') == BuildText(b) + ","
  {
    hide OpenText, BuildText, TokenText, MembersValid, ElemsValid, PartValid;
    var o, l := TopOpen(b), lvls[|lvls| - 1];
    assert OpenValid(l, o);
    var o';
    if o.ObjOpen? {
      o' := ObjOpen(Members(o.ms, o.part.m), BeforeKey(""));
      CommaInObject(l, o);
    } else {
      o' := ArrOpen(Some(ElemsOf(o)), BeforeElem(""));
      CommaInArray(l, o);
    }
    NoTokenText();
    assert OpenText(o) + "," + "" == OpenText(o) + "" + ",";
    ReplaceGood(lvls, b, o', NoToken, ",");
    hide Base;
    b' := Replace(b, o', NoToken);
  }

  // ----- One character -----

  lemma {:induction false} StrBodyConcat(a: string, b: string)
    requires IsStrBody(a) && IsStrBody(b)
    ensures IsStrBody(a + b)
    decreases |a|
  {
    if a == [] {
      assert a + b == b;
    } else {
      StrItemConcat(a, b);
      hide StrItem;
      var n := StrItem(a);
      assert (a + b)[n..] == a[n..] + b;
      StrBodyConcat(a[n..], b);
    }
  }

  lemma StrItemConcat(a: string, b: string)
    requires StrItem(a) > 0
    ensures StrItem(a + b) == StrItem(a)
  {
  }

  lemma SingleItem(t: string)
    requires t != [] && StrItem(t) == |t|
    ensures IsStrBody(t)
  {
    hide StrItem;
    assert t[|t|..] == [];
  }

  /** The reader accepts this character in a string: the body stays grammatical. */
  lemma StrBodyGrows(body: string, esc: bool, ch: char)
    requires if esc then body != [] && body[|body| - 1] == '\\' && IsStrBody(body[..|body| - 1]) else IsStrBody(body)
    requires !IsControl(ch)
    ensures !esc && ch == '\\' ==> (body + [ch])[..|body|] == body
    ensures !esc && ch != '\\' && ch != '\"' ==> IsStrBody(body + [ch])
    ensures esc && Unescape(ch).Some? ==> IsStrBody(body + [ch])
  {
    hide IsStrBody;
    if esc && Unescape(ch).Some? {
      var a := body[..|body| - 1];
      SingleItem(['\\', ch]);
      StrBodyConcat(a, ['\\', ch]);
      assert body + [ch] == a + ['\\', ch];
    } else if !esc && ch != '\\' && ch != '\"' {
      SingleItem([ch]);
      StrBodyConcat(body, [ch]);
    }
  }

  lemma QuotedIsString(body: string)
    requires IsStrBody(body)
    ensures IsString("\"" + body + "\"")
  {
    var t := "\"" + body + "\"";
    assert t[1..|t| - 1] == body;
  }

  lemma TokenGrows(lvls: seq<Lvl>, b: Build, tok: Token, ch: char) returns (b': Build)
    requires Base(lvls, b) && b.opens != [] && TokenText(tok) == TokenText(b.tok) + [ch]
    ensures b' == b.(tok := tok) && Base(lvls, b')
    ensures BuildText(b') == BuildText(b) + [ch]
  {
    b' := b.(tok := tok);
    hide TokenText, OpensText;
  }

  lemma GrowStr(mlen: nat, s: State, b: Build, ch: char) returns (b': Build)
    requires Rel(s, b) && s.mode.InStr? && s.lvls != []
    requires NextStr(mlen, s, s.mode.buf, s.mode.esc, s.mode.isKey, ch).res == Ok
    ensures
      var x := NextStr(mlen, s, s.mode.buf, s.mode.esc, s.mode.isKey, ch);
      Rel(x.st, b') && BuildText(b') == BuildText(b) + [ch]
  {
    hide BuildText, Unescape, Base, IsStrBody;
    if !s.mode.esc && ch == '\"' {
      b' := EndStr(s, b);
    } else {
      var x := NextStr(mlen, s, s.mode.buf, s.mode.esc, s.mode.isKey, ch);
      b' := GrowStrChar(s, b, ch, x.st.mode.buf);
    }
  }

  /** A character of a string, or the backslash before one. */
  lemma GrowStrChar(s: State, b: Build, ch: char, buf: string) returns (b': Build)
    requires Rel(s, b) && s.mode.InStr? && s.lvls != []
    requires !IsControl(ch) && (s.mode.esc || ch != '\"') && (s.mode.esc ==> Unescape(ch).Some?)
    ensures
      var s' := s.(cur := None, mode := InStr(buf, !s.mode.esc && ch == '\\', s.mode.isKey));
      Rel(s', b') && BuildText(b') == BuildText(b) + [ch]
  {
    hide IsStrBody, Unescape, OpensText, OpenValid;
    StrBodyGrows(b.tok.body, s.mode.esc, ch);
    b' := TokenGrows(s.lvls, b, StrToken(b.tok.body + [ch]), ch);
    hide Base, BuildText;
    assert TopOpen(b') == TopOpen(b);
  }

  /** The closing quote of a string. */
  lemma EndStr(s: State, b: Build) returns (b': Build)
    requires Rel(s, b) && s.mode.InStr? && !s.mode.esc && s.lvls != []
    ensures Base(s.lvls, b') && b'.opens != [] && b'.tok == NoToken
    ensures if s.mode.isKey then TopOpen(b').part.AfterKey? else TopOpen(b').part.AfterVal? || TopOpen(b').part.AfterElem?
    ensures BuildText(b') == BuildText(b) + "\""
  {
    var body := b.tok.body;
    QuotedIsString(body);
    hide IsString, IsStrBody, OpensText;
    if s.mode.isKey {
      b' := KeyRead(s.lvls, b);
    } else {
      b' := ValueRead(s.lvls, b, StrVal("\"" + body + "\""), "\"");
    }
  }

  /** The closing quote of a key. */
  lemma KeyRead(lvls: seq<Lvl>, b: Build) returns (b': Build)
    requires Base(lvls, b) && b.opens != [] && TopOpen(b).part.InKey?
    requires b.tok.StrToken? && IsString("\"" + b.tok.body + "\"")
    ensures Base(lvls, b') && b'.opens != [] && b'.tok == NoToken && TopOpen(b').part.AfterKey?
    ensures BuildText(b') == BuildText(b) + "\""
  {
    hide IsString, OpensText;
    var o, key := TopOpen(b), "\"" + b.tok.body + "\"";
    var p := AfterKey(o.part.w1, key, "");
    assert OpenValid(lvls[|lvls| - 1], WithPart(o, p));
    assert PartText(p) == PartText(o.part) + key;
    PartGrows(o, p, key);
    hide OpenText, OpenValid;
    b' := Replace(b, WithPart(o, p), NoToken);
    ReplaceGood(lvls, b, WithPart(o, p), NoToken, "\"");
  }

  lemma GrowNum(s: State, b: Build, ch: char) returns (b': Build)
    requires Rel(s, b) && s.mode.InNum? && s.lvls != []
    requires NumStep(s.mode.data, ch).Some?
    ensures
      var s' := s.(mode := InNum(NumStep(s.mode.data, ch).value));
      Rel(s', b') && BuildText(b') == BuildText(b) + [ch]
  {
    NumberGrows(s.mode.data, b.tok.n, ch);
    hide NumStep, Partial, NumberText, WithChar, OpensText, Base;
    b' := TokenGrows(s.lvls, b, NumToken(WithChar(b.tok.n, ch)), ch);
  }

  /** A number that may end is a grammatical number. */
  lemma EndNumber(s: State, b: Build, ch: char) returns (b': Build)
    requires Rel(s, b) && s.lvls != [] && NumEnds(s, ch)
    ensures Rel(NumReported(s), b') && BuildText(b') == BuildText(b)
  {
    assert IsNumber(b.tok.n);
    hide IsNumber, NumberText, NumValue, OpensText, Partial;
    assert TokenText(b.tok) + "" == TokenText(b.tok);
    b' := ValueRead(s.lvls, b, NumVal(b.tok.n), "");
  }

  lemma GrowWord(s: State, b: Build, ch: char) returns (b': Build)
    requires Rel(s, b) && s.mode.InWord? && s.lvls != []
    requires NextWord(s, s.mode.word, s.mode.at, ch).res == Ok
    ensures
      var x := NextWord(s, s.mode.word, s.mode.at, ch);
      Rel(x.st, b') && BuildText(b') == BuildText(b) + [ch]
  {
    var w, at := s.mode.word, s.mode.at;
    assert WordText(w)[..at + 1] == WordText(w)[..at] + [ch];
    hide OpensText, WordEvent;
    if at == |WordText(w)| - 1 {
      assert WordText(w)[..at + 1] == WordText(w);
      hide WordText;
      b' := ValueRead(s.lvls, b, WordVal(w), [ch]);
    } else {
      hide WordText, Base;
      b' := TokenGrows(s.lvls, b, WordToken(w, at + 1), ch);
    }
  }

  lemma GrowWant(s: State, b: Build, ch: char) returns (b': Build)
    requires Rel(s, b) && s.lvls != [] && (s.mode == WantKey || s.mode == WantColon) && ch != '}'
    requires (if s.mode == WantKey then NextWantKey(s, ch) else NextWantColon(s, ch)).res == Ok
    ensures
      var x := if s.mode == WantKey then NextWantKey(s, ch) else NextWantColon(s, ch);
      Rel(x.st, b') && BuildText(b') == BuildText(b) + [ch]
  {
    if IsWhitespace(ch) {
      b' := BlankRead(s, b, ch);
    } else {
      hide Rel, BuildText;
      if s.mode == WantKey {
        b' := GrowKeyStart(s, b, ch);
      } else {
        b' := GrowColon(s, b, ch);
      }
    }
  }

  lemma GrowKeyStart(s: State, b: Build, ch: char) returns (b': Build)
    requires Rel(s, b) && s.lvls != [] && s.mode == WantKey && ch != '}' && !IsWhitespace(ch) && NextWantKey(s, ch).res == Ok
    ensures Rel(NextWantKey(s, ch).st, b') && BuildText(b') == BuildText(b) + [ch]
  {
    hide OpensText;
    var o, l := TopOpen(b), s.lvls[|s.lvls| - 1];
    var o' := WithPart(o, InKey(o.part.w1));
    assert OpenValid(l, o') && OpenText(o') == OpenText(o);
    hide OpenText, OpenValid;
    b' := Replace(b, o', StrToken(""));
    ReplaceGood(s.lvls, b, o', StrToken(""), "\"");
  }

  lemma GrowColon(s: State, b: Build, ch: char) returns (b': Build)
    requires Rel(s, b) && s.lvls != [] && s.mode == WantColon && !IsWhitespace(ch) && NextWantColon(s, ch).res == Ok
    ensures Rel(NextWantColon(s, ch).st, b') && BuildText(b') == BuildText(b) + [ch]
  {
    hide OpensText;
    var o, l := TopOpen(b), s.lvls[|s.lvls| - 1];
    var p := BeforeVal(o.part.w1, o.part.key, o.part.w2, "");
    assert OpenValid(l, WithPart(o, p)) && PartText(p) == PartText(o.part) + ":";
    hide OpenText, OpenValid;
    b' := PartReplaced(s.lvls, b, p, ":");
  }

  /** A closing bracket that leaves something open. */
  lemma GrowClose(s: State, b: Build, ch: char) returns (b': Build)
    requires Rel(s, b) && |s.lvls| > 1 && (s.mode == WantKey || (s.mode == Idle && !s.valExpected))
    requires if ch == '}' then Top(s.lvls) == Some(ObjLvl) else s.mode == Idle && ch == ']' && Top(s.lvls) == Some(ArrLvl)
    ensures Base(Pop(s.lvls), b') && b'.opens != [] && b'.tok == NoToken
    ensures TopOpen(b').part.AfterVal? || TopOpen(b').part.AfterElem?
    ensures BuildText(b') == BuildText(b) + [ch]
  {
    var o, l := TopOpen(b), s.lvls[|s.lvls| - 1];
    assert OpenValid(l, o);
    hide OpensText;
    if ch == '}' {
      ObjectOfGood(l, o);
      hide OpenText, Text, Valid;
      b' := Closed(s.lvls, b, ObjectOf(o), "}");
    } else {
      ElemsOfGood(l, o);
      hide OpenText;
      b' := Closed(s.lvls, b, ArrVal(ElemsOf(o)), "]");
    }
  }

  /** The brace that closes the top-level object. */
  lemma FinishedObject(s: State, b: Build)
    requires Rel(s, b) && s.lvls == [ObjLvl] && (s.mode == WantKey || (s.mode == Idle && !s.valExpected))
    ensures IsObjectText(BuildText(b) + "}")
  {
    var o := TopOpen(b);
    assert OpenValid(ObjLvl, o);
    ObjectOfGood(ObjLvl, o);
    hide OpensText, OpenText, Text, Valid;
    var _ := Closed(s.lvls, b, ObjectOf(o), "}");
    assert BuildText(b) + "}" == b.pre + Text(ObjectOf(o));
  }

  /** A character other than a blank, a closing bracket or the end of a number, in the idle state. */
  lemma GrowIdle(mlen: nat, s: State, b: Build, ch: char) returns (b': Build)
    requires Rel(s, b) && s.mode == Idle && (s.lvls != [] ==> s.lvls[0] == ObjLvl)
    requires !IsWhitespace(ch) && ch != '}' && ch != ']' && NextIdle(mlen, s, ch).res == Ok
    ensures Rel(NextIdle(mlen, s, ch).st, b') && BuildText(b') == BuildText(b) + [ch]
  {
    hide Rel, BuildText, NextIdle;
    if s.valExpected && WordFor(ch).Some? {
      b' := GrowIdleWord(mlen, s, b, ch);
    } else if s.valExpected && IsNumStart(ch) {
      b' := GrowIdleNum(mlen, s, b, ch);
    } else {
      b' := GrowIdlePunctuation(mlen, s, b, ch);
    }
  }

  lemma GrowIdleWord(mlen: nat, s: State, b: Build, ch: char) returns (b': Build)
    requires Rel(s, b) && s.mode == Idle && (s.lvls != [] ==> s.lvls[0] == ObjLvl)
    requires s.valExpected && WordFor(ch).Some? && NextIdle(mlen, s, ch).res == Ok
    ensures Rel(NextIdle(mlen, s, ch).st, b') && BuildText(b') == BuildText(b) + [ch]
  {
    hide OpensText, OpenText, OpenValid;
    var w := WordFor(ch).value;
    var s1 := s.(cur := None, mode := InWord(w, 0));
    assert NextIdle(mlen, s, ch) == NextWord(s1, w, 0, ch);
    hide NextIdle;
    var b1 := TokenBegun(s.lvls, b, WordToken(w, 0));
    assert TokenText(WordToken(w, 0)) == "";
    b' := GrowWord(s1, b1, ch);
  }

  lemma GrowIdleNum(mlen: nat, s: State, b: Build, ch: char) returns (b': Build)
    requires Rel(s, b) && s.mode == Idle && (s.lvls != [] ==> s.lvls[0] == ObjLvl)
    requires s.valExpected && WordFor(ch).None? && IsNumStart(ch) && NextIdle(mlen, s, ch).res == Ok
    ensures Rel(NextIdle(mlen, s, ch).st, b') && BuildText(b') == BuildText(b) + [ch]
  {
    hide OpensText, OpenText, OpenValid;
    var s1 := s.(cur := None, mode := InNum(NUM_START));
    var n := Number("", "", None, NoExp);
    assert NextIdle(mlen, s, ch) == NextNum(s1, NUM_START, ch);
    assert NumStep(NUM_START, ch).Some?;
    hide NextIdle;
    var b1 := TokenBegun(s.lvls, b, NumToken(n));
    assert NumberText(n) == "";
    b' := GrowNum(s1, b1, ch);
  }

  lemma GrowIdlePunctuation(mlen: nat, s: State, b: Build, ch: char) returns (b': Build)
    requires Rel(s, b) && s.mode == Idle
    requires s.valExpected ==> WordFor(ch).None? && !IsNumStart(ch)
    requires !IsWhitespace(ch) && ch != '}' && ch != ']' && NextIdle(mlen, s, ch).res == Ok
    ensures Rel(NextIdle(mlen, s, ch).st, b') && BuildText(b') == BuildText(b) + [ch]
  {
    hide OpensText, OpenText, OpenValid, NextWord, NextNum, WordFor, BuildText;
    match ch
    case '{' => b' := Opened(s.lvls, b, ObjLvl);
    case '[' => b' := Opened(s.lvls, b, ArrLvl);
    case '\"' => b' := TokenBegun(s.lvls, b, StrToken(""));
    case ',' => b' := CommaRead(s.lvls, b);
  }

  /** One character through the automaton, the reader going on. */
  lemma Grow(mlen: nat, s: State, b: Build, ch: char) returns (b': Build)
    requires Inv(mlen, s) && Rel(s, b) && !NumEnds(s, ch) && Core(mlen, s, ch).res == Ok
    ensures Rel(Core(mlen, s, ch).st, b') && BuildText(b') == BuildText(b) + [ch]
  {
    hide BuildText, NumStep, Unescape;
    match s.mode
    case Idle =>
      if IsWhitespace(ch) {
        b' := BlankRead(s, b, ch);
      } else if ch == '}' || ch == ']' {
        b' := GrowClose(s, b, ch);
        hide Base;
      } else {
        hide Base, NextIdle;
        b' := GrowIdle(mlen, s, b, ch);
      }
    case WantKey =>
      if ch == '}' {
        b' := GrowClose(s, b, ch);
        hide Base;
      } else {
        hide Base;
        b' := GrowWant(s, b, ch);
      }
    case WantColon =>
      hide Base;
      b' := GrowWant(s, b, ch);
    case InStr(_, _, _) =>
      hide Base, NextStr;
      b' := GrowStr(mlen, s, b, ch);
    case InNum(_) =>
      hide Base;
      b' := GrowNum(s, b, ch);
    case InWord(_, _) =>
      hide Base, NextWord;
      b' := GrowWord(s, b, ch);
  }

  /** The automaton finishes only at the brace that closes the top-level object. */
  lemma FinishesAtBrace(mlen: nat, s: State, b: Build, ch: char)
    requires Inv(mlen, s) && Rel(s, b) && Core(mlen, s, ch).res == Fin
    ensures IsObjectText(BuildText(b) + [ch])
  {
    hide BuildText, IsObjectText, NumStep, Unescape, WordFor, NumValue;
    assert ch == '}' && s.lvls == [ObjLvl] && (s.mode == WantKey || (s.mode == Idle && !s.valExpected));
    hide Core;
    FinishedObject(s, b);
  }

  // ----- Whole texts -----

  /** The first character of a run, once a number it may end has been reported. */
  lemma FeedFirst(mlen: nat, s: State, text: string)
    requires text != [] && text[0] != '\0'
    ensures
      var o := DirectFeed(mlen, s, text);
      var x := Core(mlen, if NumEnds(s, text[0]) then NumReported(s) else s, text[0]);
      if x.res != Ok then o.res == x.res && o.calls == 1
      else
        var rest := DirectFeed(mlen, Advance(x), text[1..]);
        && o.res == rest.res && o.calls == rest.calls + 1
        && (s.lvls == [] && x.st.lvls == [] && x.st.cur.None? && !NumEnds(s, text[0]) ==> o.events == rest.events)
  {
    hide Core, NumValue;
  }

  lemma SplitFirst(t: string, text: string, n: nat)
    requires 0 < n <= |text|
    ensures t + text[..n] == t + [text[0]] + text[1..][..n - 1]
  {
  }

  lemma {:induction false} SoundFrom(mlen: nat, s: State, b: Build, text: string)
    requires Inv(mlen, s) && s.buffered.None? && Rel(s, b) && (s.lvls == [] ==> s.cur.None?)
    requires DirectFeed(mlen, s, text).res == Fin
    ensures
      var o := DirectFeed(mlen, s, text);
      o.calls <= |text| && (s.lvls != [] || o.events != [] ==> IsObjectText(BuildText(b) + text[..o.calls]))
    decreases |text|
  {
    hide Core, BuildText, IsObjectText, NumValue, Rel, Inv;
    var ch := text[0];
    if ch != '\0' {
      FeedFirst(mlen, s, text);
      hide DirectFeed, NumReported;
      var s0, b0 := s, b;
      if NumEnds(s, ch) {
        NumReportedInv(mlen, s);
        s0 := NumReported(s);
        b0 := EndNumber(s, b, ch);
      }
      var x := Core(mlen, s0, ch);
      if x.res == Fin {
        FinishesAtBrace(mlen, s0, b0, ch);
        assert text[..1] == [ch];
      } else {
        Progress(mlen, s0, ch);
        var b' := Grow(mlen, s0, b0, ch);
        RelIgnoresPosition(x, b');
        var rest := text[1..];
        SoundFrom(mlen, Advance(x), b', rest);
        var n := DirectFeed(mlen, Advance(x), rest).calls;
        SplitFirst(BuildText(b0), text, n + 1);
      }
    }
  }

  lemma NumReportedInv(mlen: nat, s: State)
    requires Inv(mlen, s) && s.mode.InNum?
    ensures s.lvls != [] && Inv(mlen, NumReported(s))
  {
    hide NumValue;
  }

  lemma RelIgnoresPosition(x: Result, b: Build)
    requires Rel(x.st, b)
    ensures Rel(Advance(x), b)
  {
  }

  lemma Progress(mlen: nat, s: State, ch: char)
    requires Inv(mlen, s) && s.buffered.None? && !NumEnds(s, ch) && ch != '\0' && Core(mlen, s, ch).res == Ok
    ensures
      var x := Core(mlen, s, ch);
      && Inv(mlen, Advance(x)) && Advance(x).buffered.None?
      && (x.st.lvls == [] ==> s.lvls == [] && x.st.cur.None?)
  {
    hide Core;
    CoreKeeps(mlen, s, ch);
    CoreOnNumEnd(mlen, s, ch);
  }

  /**
   Soundness: when the reader reports the end of a text it has taken events
   from, the text up to that call, or up to the one before it, is a grammatical
   object after some blanks.
   */
  lemma Sound(mlen: nat, text: string)
    requires Terminated(text)
    requires Feed(mlen, INIT, text).res == Fin && Feed(mlen, INIT, text).events != []
    ensures
      var o := Feed(mlen, INIT, text);
      exists k | o.calls - 1 <= k <= o.calls :: 0 <= k <= |text| && IsObjectText(text[..k])
  {
    hide Feed, DirectFeed, IsObjectText;
    Transparent(mlen, text);
    var b := Build("", [], NoToken);
    assert BuildText(b) == "";
    SoundFrom(mlen, INIT, b, text);
    var k := DirectFeed(mlen, INIT, text).calls;
    assert BuildText(b) + text[..k] == text[..k];
    assert IsObjectText(text[..k]);
  }
}
