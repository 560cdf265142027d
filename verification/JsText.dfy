/** The few string operations of the JavaScript runtime that the modelled code calls. */
module JsText {

  /** White space and line ends, as String.prototype.trim sees them. */
  predicate IsSpace(c: char) {
    c in {'\t', '\n', '\U{0B}', '\U{0C}', '\r', ' ', '\U{A0}', '\U{1680}', '\U{2028}', '\U{2029}', '\U{202F}',
        '\U{205F}',
          '\U{3000}', '\U{FEFF}'}
    || '\U{2000}' <= c <= '\U{200A}'
  }

  function TrimStart(s: string): string {
    if s != [] && IsSpace(s[0]) then TrimStart(s[1..]) else s
  }

  function TrimEnd(s: string): string {
    if s != [] && IsSpace(s[|s| - 1]) then TrimEnd(s[..|s| - 1]) else s
  }

  function Trim(s: string): string {
    TrimEnd(TrimStart(s))
  }

  /** Nothing to trim. */
  predicate Trimmed(s: string) {
    s != [] ==> !IsSpace(s[0]) && !IsSpace(s[|s| - 1])
  }

  lemma TrimmedStays(s: string)
    requires Trimmed(s)
    ensures Trim(s) == s
  {}

  predicate AllSpace(s: string) {
    forall k :: 0 <= k < |s| ==> IsSpace(s[k])
  }

  lemma {:induction false} TrimStartExactly(s: string) returns (i: nat)
    ensures i <= |s| && AllSpace(s[..i]) && TrimStart(s) == s[i..] && (i < |s| ==> !IsSpace(s[i]))
  {
    i := 0;
    if s != [] && IsSpace(s[0]) {
      i := TrimStartExactly(s[1..]);
      assert s[..i + 1] == [s[0]] + s[1..][..i];
      i := i + 1;
    }
  }

  lemma {:induction false} TrimEndExactly(s: string) returns (j: nat)
    ensures j <= |s| && AllSpace(s[j..]) && TrimEnd(s) == s[..j] && (j > 0 ==> !IsSpace(s[j - 1]))
  {
    var n := |s| - 1;
    j := |s|;
    if s != [] && IsSpace(s[n]) {
      j := TrimEndExactly(s[..n]);
      assert s[j..] == s[..n][j..] + [s[n]];
      assert s[..n][..j] == s[..j];
    } else {
      assert s[..j] == s;
    }
  }

  /** Trimming takes all space off both ends and nothing else. */
  lemma TrimsExactly(s: string) returns (i: nat, j: nat)
    ensures i <= j <= |s| && Trim(s) == s[i..j] && AllSpace(s[..i]) && AllSpace(s[j..])
    ensures i < j ==> !IsSpace(s[i]) && !IsSpace(s[j - 1])
  {
    i := TrimStartExactly(s);
    var rest := s[i..];
    j := TrimEndExactly(rest);
    assert rest[..j] == s[i..i + j] && rest[j..] == s[i + j..];
    j := i + j;
  }

  /** Only space trims to nothing. */
  lemma BlankIff(s: string)
    ensures Trim(s) == "" <==> AllSpace(s)
  {
    var i, j := TrimsExactly(s);
    assert s == s[..i] + s[i..j] + s[j..];
  }
}
