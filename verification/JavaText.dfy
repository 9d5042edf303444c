/**
 * The few java.lang.String operations the pipeline relies on:
 * `trim`, `isBlank`, `startsWith` and `endsWith`.
 * Strings are sequences of characters; the checks below only look at
 * characters of the Basic Multilingual Plane, where Java's `char` and
 * Dafny's `char` agree.
 */
module JavaText {

  /** `String.trim` removes every leading and trailing code unit at or below U+0020. */
  predicate IsTrimmable(c: char) { c <= ' ' }

  /** No leading or trailing code unit that `trim` would remove. */
  predicate IsTrimmed(s: string) {
    s == [] || (!IsTrimmable(s[0]) && !IsTrimmable(s[|s| - 1]))
  }

  /** Java's `st`: the index of the first code unit that `trim` keeps. */
  function TrimStart(s: string): (st: nat)
    ensures st <= |s|
    ensures forall k :: 0 <= k < st ==> IsTrimmable(s[k])
    ensures st < |s| ==> !IsTrimmable(s[st])
  {
    if s == [] || !IsTrimmable(s[0]) then 0 else 1 + TrimStart(s[1..])
  }

  /** Java's `len`: one past the last code unit at or after `st` that `trim` keeps. */
  function TrimEnd(s: string, st: nat): (len: nat)
    requires st <= |s|
    ensures st <= len <= |s|
    ensures forall k :: len <= k < |s| ==> IsTrimmable(s[k])
    ensures st < len ==> !IsTrimmable(s[len - 1])
  {
    if |s| == st || !IsTrimmable(s[|s| - 1]) then |s| else TrimEnd(s[..|s| - 1], st)
  }

  /**
   * `String.trim`: the slice of `s` left after cutting trimmable code
   * units from both ends, so that it starts and ends with a kept one.
   */
  function Trim(s: string): (r: string)
    ensures IsTrimmed(r)
    ensures TrimStart(s) + |r| <= |s|
    ensures r == s[TrimStart(s)..TrimStart(s) + |r|]
    ensures forall k :: TrimStart(s) + |r| <= k < |s| ==> IsTrimmable(s[k])
    ensures forall c :: c in r ==> c in s
  {
    var st := TrimStart(s);
    s[st..TrimEnd(s, st)]
  }

  /**
   * `Character.isWhitespace`: the Unicode space, line and paragraph
   * separators other than the no-break spaces, plus the ASCII controls
   * U+0009 to U+000D and U+001C to U+001F.
   */
  predicate IsJavaWhitespace(c: char) {
    ('\U{9}' <= c <= '\U{D}') || ('\U{1C}' <= c <= '\U{20}')
    || c == '\U{1680}' || ('\U{2000}' <= c <= '\U{2006}') || ('\U{2008}' <= c <= '\U{200A}')
    || c == '\U{2028}' || c == '\U{2029}' || c == '\U{205F}' || c == '\U{3000}'
  }

  /** `String.isBlank`: empty or whitespace only. */
  predicate IsBlank(s: string) {
    forall k :: 0 <= k < |s| ==> IsJavaWhitespace(s[k])
  }

  predicate StartsWith(s: string, prefix: string) {
    |prefix| <= |s| && s[..|prefix|] == prefix
  }

  predicate EndsWith(s: string, suffix: string) {
    |suffix| <= |s| && s[|s| - |suffix|..] == suffix
  }

  /** A string without outer trimmable code units is its own trim. */
  lemma TrimOfTrimmed(s: string)
    requires IsTrimmed(s)
    ensures Trim(s) == s
  {
    if s != [] {
      assert TrimStart(s) == 0;
      assert TrimEnd(s, 0) == |s|;
    }
  }

  /** Trimming twice changes nothing. */
  lemma TrimIdempotent(s: string)
    ensures Trim(Trim(s)) == Trim(s)
  {
    TrimOfTrimmed(Trim(s));
  }
}
