/** NUL-terminated strings in fixed buffers. */
module CStrings {

  /** The C string at the start of a buffer: everything before the first NUL. */
  function CString(s: string): string {
    if s == [] || s[0] == '\0' then [] else [s[0]] + CString(s[1..])
  }

  predicate NoNul(s: string) {
    forall i | 0 <= i < |s| :: s[i] != '\0'
  }

  lemma {:induction false} CStringOf(t: string, rest: string)
    requires NoNul(t)
    ensures CString(t + ['\0'] + rest) == t
  {
    if t != [] {
      assert (t + ['\0'] + rest)[1..] == t[1..] + ['\0'] + rest;
      CStringOf(t[1..], rest);
    }
  }

  lemma {:induction false} CStringWhole(t: string)
    requires NoNul(t)
    ensures CString(t) == t
  {
    if t != [] {
      CStringWhole(t[1..]);
    }
  }
}
