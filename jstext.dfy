/** The JavaScript character classes and string operations the core relies on:
    the regular-expression classes `\s`, `\w`, `\d` (without the `u` flag) and
    `String.prototype.trim`. */
module JsText {

  /** `\s`: the WhiteSpace and LineTerminator code points of ECMAScript
      (ECMA-262, sections 12.2 and 12.3); `trim` strips exactly the same set. */
  predicate IsSpace(c: char) {
    c == '\t' || c == '\n' || c == '\U{000B}' || c == '\U{000C}' || c == '\r' || c == ' ' ||
    c == '\U{00A0}' || c == '\U{1680}' || ('\U{2000}' <= c <= '\U{200A}') ||
    c == '\U{2028}' || c == '\U{2029}' || c == '\U{202F}' || c == '\U{205F}' ||
    c == '\U{3000}' || c == '\U{FEFF}'
  }

  /** `\d` without the `u` flag: ASCII digits only. */
  predicate IsDigit(c: char) {
    '0' <= c <= '9'
  }

  /** `\w` without the `u` flag: ASCII letters, digits and underscore. */
  predicate IsWordChar(c: char) {
    ('a' <= c <= 'z') || ('A' <= c <= 'Z') || IsDigit(c) || c == '_'
  }

  lemma WordCharNotSpace(c: char)
    requires IsWordChar(c)
    ensures !IsSpace(c)
  {
  }

  /** All characters of `s` satisfy `IsSpace`. */
  ghost predicate AllSpace(s: string) {
    forall i :: 0 <= i < |s| ==> IsSpace(s[i])
  }

  /** `s` neither starts nor ends with a `\s` character. */
  predicate Trimmed(s: string) {
    s == [] || (!IsSpace(s[0]) && !IsSpace(s[|s| - 1]))
  }

  /** Drops the leading `\s` characters. */
  function TrimStart(s: string): (r: string)
    ensures |r| <= |s| && r == s[|s| - |r|..]
    ensures AllSpace(s[..|s| - |r|])
    ensures r == [] || !IsSpace(r[0])
  {
    if s != [] && IsSpace(s[0]) then TrimStart(s[1..]) else s
  }

  /** Drops the trailing `\s` characters. */
  function TrimEnd(s: string): (r: string)
    ensures |r| <= |s| && r == s[..|r|]
    ensures AllSpace(s[|r|..])
    ensures r == [] || !IsSpace(r[|r| - 1])
  {
    if s != [] && IsSpace(s[|s| - 1]) then TrimEnd(s[..|s| - 1]) else s
  }

  /** `String.prototype.trim`. */
  function Trim(s: string): string {
    TrimEnd(TrimStart(s))
  }

  /** What `trim` returns: a contiguous slice of its input, with only `\s`
      characters cut away on either side, that itself begins and ends with a
      non-space character. */
  lemma TrimSlice(s: string)
    ensures Trimmed(Trim(s))
    ensures exists i, j :: 0 <= i <= j <= |s| && Trim(s) == s[i..j] &&
                           AllSpace(s[..i]) && AllSpace(s[j..])
  {
    var t := TrimStart(s);
    var i := |s| - |t|;
    var r := TrimEnd(t);
    var j := i + |r|;
    assert r == s[i..j] by { assert t == s[i..]; assert r == t[..|r|]; }
    assert AllSpace(s[j..]) by { assert s[j..] == t[|r|..]; }
    assert Trimmed(r) by { if r != [] { assert r[0] == t[0]; } }
  }

  /** Character `k` of the result is the character of the input that follows
      the leading spaces by `k`. */
  lemma TrimAt(s: string, k: nat)
    requires k < |Trim(s)|
    ensures |s| - |TrimStart(s)| + k < |s|
    ensures Trim(s)[k] == s[|s| - |TrimStart(s)| + k]
  {
    var t := TrimStart(s);
    var r := TrimEnd(t);
    assert r[k] == t[k];
  }

  /** Characters of the result are characters of the input. */
  lemma TrimKeeps(s: string, c: char)
    requires c in Trim(s)
    ensures c in s
  {
    var k :| 0 <= k < |Trim(s)| && Trim(s)[k] == c;
    TrimAt(s, k);
  }

  /** Trimming a trimmed string changes nothing, so `trim` is idempotent. */
  lemma TrimOfTrimmed(s: string)
    requires Trimmed(s)
    ensures Trim(s) == s
  {
  }

  /** A final line break is all that `trim` takes from a line-terminated
      trimmed string. */
  lemma TrimLineEnd(s: string)
    requires s != [] && Trimmed(s)
    ensures Trim(s + "\n") == s
  {
    var out := s + "\n";
    assert out[0] == s[0];
    assert TrimStart(out) == out;
    assert out[..|out| - 1] == s;
    assert TrimEnd(out) == TrimEnd(s);
  }

  lemma TrimIdempotent(s: string)
    ensures Trim(Trim(s)) == Trim(s)
  {
    TrimSlice(s);
    TrimOfTrimmed(Trim(s));
  }
}
