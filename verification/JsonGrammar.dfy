/**
 The JSON grammar of sections 2 to 7 of RFC 8259 as syntax trees with their
 text, relaxed in two places: an object may have a comma after its last member,
 and signs in numbers and exponents may be repeated.
 */
module JsonGrammar {
  import opened Chars
  import opened Decimal
  import opened JsonReader
  import opened Options

  // ----- Tokens -----

  predicate IsBlank(w: string) {
    forall i | 0 <= i < |w| :: IsWhitespace(w[i])
  }

  predicate IsHex(c: char) {
    IsDigit(c) || 'a' <= c <= 'f' || 'A' <= c <= 'F'
  }

  /** The length of the character or escape that `t` starts with, or 0 if it starts with neither. */
  function StrItem(t: string): (n: nat)
    ensures n <= |t|
  {
    if t == [] || t[0] < ' ' || t[0] == '\"' then 0
    else if t[0] != '\\' then 1
    else if |t| >= 2 && t[1] in "\"\\/bfnrt" then 2
    else if |t| >= 6 && t[1] == 'u' && (forall i | 2 <= i < 6 :: IsHex(t[i])) then 6
    else 0
  }

  /** What may stand between the quotes of a string. */
  predicate IsStrBody(t: string) {
    t == [] || (StrItem(t) > 0 && IsStrBody(t[StrItem(t)..]))
  }

  predicate IsString(t: string) {
    |t| >= 2 && t[0] == '\"' && t[|t| - 1] == '\"' && IsStrBody(t[1..|t| - 1])
  }

  datatype Exp = NoExp | Exp(mark: char, signs: string, digits: string)

  datatype Number = Number(signs: string, whole: string, frac: Option<string>, exp: Exp)

  predicate IsNumber(n: Number) {
    && (forall i | 0 <= i < |n.signs| :: n.signs[i] == '-')
    && AllDigits(n.whole) && n.whole != [] && (n.whole[0] == '0' ==> |n.whole| == 1)
    && (n.frac.Some? ==> AllDigits(n.frac.value) && n.frac.value != [])
    && (n.exp.Exp? ==>
          && (n.exp.mark == 'e' || n.exp.mark == 'E')
          && (forall i | 0 <= i < |n.exp.signs| :: n.exp.signs[i] == '+' || n.exp.signs[i] == '-')
          && AllDigits(n.exp.digits) && n.exp.digits != [])
  }

  function FracText(f: Option<string>): string {
    if f.Some? then "." + f.value else ""
  }

  function ExpText(e: Exp): string {
    if e.Exp? then [e.mark] + e.signs + e.digits else ""
  }

  function NumberText(n: Number): string {
    n.signs + n.whole + FracText(n.frac) + ExpText(n.exp)
  }

  // ----- Trees -----

  datatype Val =
    | StrVal(t: string)
    | NumVal(n: Number)
    | WordVal(w: Word)
    | ObjVal(ms: Members, tail: Tail)
    | ArrVal(es: Elems)
    | EmptyArr(blank: string)

  /** What stands before a closing brace: nothing, or blanks after `{` or after a last comma. */
  datatype Tail = NoTail | Tail(blank: string)

  datatype Members = NoMembers | Members(init: Members, last: Member)

  /** blank key blank : blank value blank */
  datatype Member = Member(w1: string, key: string, w2: string, w3: string, v: Val, w4: string)

  datatype Elems = OneElem(e: Elem) | Elems(init: Elems, last: Elem)

  /** blank value blank */
  datatype Elem = Elem(w1: string, v: Val, w2: string)

  function Text(v: Val): string {
    match v
    case StrVal(t) => t
    case NumVal(n) => NumberText(n)
    case WordVal(w) => WordText(w)
    case ObjVal(ms, NoTail) => "{" + MembersText(ms) + "}"
    case ObjVal(ms, Tail(w)) => "{" + MembersLead(ms) + w + "}"
    case ArrVal(es) => "[" + ElemsText(es) + "]"
    case EmptyArr(w) => "[" + w + "]"
  }

  function MembersText(ms: Members): string {
    match ms
    case NoMembers => ""
    case Members(init, m) => MembersLead(init) + MemberText(m)
  }

  /** The members so far, with the comma that another one (or a trailing comma) needs. */
  function MembersLead(ms: Members): string {
    match ms
    case NoMembers => ""
    case Members(init, m) => MembersLead(init) + MemberText(m) + ","
  }

  function MemberText(m: Member): string {
    m.w1 + m.key + m.w2 + ":" + m.w3 + Text(m.v) + m.w4
  }

  function ElemsText(es: Elems): string {
    match es
    case OneElem(e) => ElemText(e)
    case Elems(init, e) => ElemsText(init) + "," + ElemText(e)
  }

  function ElemText(e: Elem): string {
    e.w1 + Text(e.v) + e.w2
  }

  predicate Valid(v: Val) {
    match v
    case StrVal(t) => IsString(t)
    case NumVal(n) => IsNumber(n)
    case WordVal(_) => true
    case ObjVal(ms, tail) => MembersValid(ms) && (tail.Tail? ==> IsBlank(tail.blank))
    case ArrVal(es) => ElemsValid(es)
    case EmptyArr(w) => IsBlank(w)
  }

  predicate MembersValid(ms: Members) {
    match ms
    case NoMembers => true
    case Members(init, m) => MembersValid(init) && MemberValid(m)
  }

  predicate MemberValid(m: Member) {
    IsBlank(m.w1) && IsString(m.key) && IsBlank(m.w2) && IsBlank(m.w3) && Valid(m.v) && IsBlank(m.w4)
  }

  predicate ElemsValid(es: Elems) {
    match es
    case OneElem(e) => ElemValid(e)
    case Elems(init, e) => ElemsValid(init) && ElemValid(e)
  }

  predicate ElemValid(e: Elem) {
    IsBlank(e.w1) && Valid(e.v) && IsBlank(e.w2)
  }

  /** `text` is, after some blanks, the text of a grammatical object. */
  ghost predicate IsObjectText(text: string) {
    exists w: string, v: Val :: IsBlank(w) && v.ObjVal? && Valid(v) && text == w + Text(v)
  }
}
