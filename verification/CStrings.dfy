/** Strings in character buffers, ended by a NUL. */
module CStrings {
  predicate NulFree(s: string) {
    forall k :: 0 <= k < |s| ==> s[k] != '\0'
  }

  /** The C string that starts at `at`. */
  function CString(buf: seq<char>, at: nat): string
    requires at <= |buf|
    decreases |buf| - at
  {
    if at == |buf| || buf[at] == '\0' then [] else [buf[at]] + CString(buf, at + 1)
  }

  lemma {:induction false} CStringReads(buf: seq<char>, at: nat, s: string)
    requires at + |s| < |buf| && buf[at..at + |s|] == s && buf[at + |s|] == '\0' && NulFree(s)
    ensures CString(buf, at) == s
    decreases |s|
  {
    if s != [] {
      assert buf[at] == buf[at..at + |s|][0] == s[0];
      assert buf[at + 1..at + 1 + |s[1..]|] == buf[at..at + |s|][1..];
      CStringReads(buf, at + 1, s[1..]);
    }
  }
}
