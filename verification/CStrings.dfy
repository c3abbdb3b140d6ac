/** NUL-terminated strings in a character buffer. */
module CStrings {

  /** The buffer holds the string s and its terminator. */
  ghost predicate Text(buf: seq<char>, s: string) {
    |s| < |buf| && buf[..|s|] == s && buf[|s|] == '\0' && '\0' !in s
  }

  /** The string that a callee finds in the buffer. */
  function CString(buf: seq<char>): string {
    if buf == [] || buf[0] == '\0' then "" else [buf[0]] + CString(buf[1..])
  }

  lemma {:induction false} CStringIs(buf: seq<char>, s: string)
    requires Text(buf, s)
    ensures CString(buf) == s
    decreases |s|
  {
    if s != "" {
      assert buf[0] == s[0] && s[0] in s;
      assert buf[1..][..|s| - 1] == s[1..];
      CStringIs(buf[1..], s[1..]);
    }
  }
}
