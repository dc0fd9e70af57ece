/**
 * The few PHP string functions the core relies on: `str_starts_with`,
 * `strtoupper` (ASCII letters only, as in PHP 8), `trim` with its default
 * character list, and PHP's truthiness of a request parameter.
 */
module Text {
  import opened Wrappers

  predicate StartsWith(s: string, prefix: string) {
    |prefix| <= |s| && s[..|prefix|] == prefix
  }

  function UpperChar(c: char): (u: char)
    ensures !('a' <= u <= 'z')
  {
    if 'a' <= c <= 'z' then (c as int - 32) as char else c
  }

  /** `strtoupper`. */
  function Upper(s: string): (r: string)
    ensures |r| == |s|
    ensures forall i :: 0 <= i < |s| ==> r[i] == UpperChar(s[i])
  {
    if s == [] then [] else [UpperChar(s[0])] + Upper(s[1..])
  }

  /** A string with no lower-case ASCII letter is its own upper case. */
  lemma UpperFixed(s: string)
    requires forall i :: 0 <= i < |s| ==> !('a' <= s[i] <= 'z')
    ensures Upper(s) == s
  {
  }

  /** Upper-casing twice is upper-casing once. */
  lemma UpperIdempotent(s: string)
    ensures Upper(Upper(s)) == Upper(s)
  {
    UpperFixed(Upper(s));
  }

  /** The characters `trim` strips by default: " \t\n\r\0\x0B". */
  predicate IsTrimmable(c: char) {
    c == ' ' || c == '\t' || c == '\n' || c == '\r' || c == '\0' || c == 11 as char
  }

  /** The number of trimmable characters that open `s`. */
  function LeadingTrimmable(s: string): (k: nat)
    ensures k <= |s|
    ensures forall i :: 0 <= i < k ==> IsTrimmable(s[i])
    ensures k < |s| ==> !IsTrimmable(s[k])
  {
    if s == [] || !IsTrimmable(s[0]) then 0 else 1 + LeadingTrimmable(s[1..])
  }

  /** The number of trimmable characters that close `s`. */
  function TrailingTrimmable(s: string): (k: nat)
    ensures k <= |s|
    ensures forall i :: |s| - k <= i < |s| ==> IsTrimmable(s[i])
    ensures k < |s| ==> !IsTrimmable(s[|s| - k - 1])
  {
    if s == [] || !IsTrimmable(s[|s| - 1]) then 0 else 1 + TrailingTrimmable(s[..|s| - 1])
  }

  /**
   * `s[i..j]` is what `trim` keeps of `s`: everything before `i` and from
   * `j` on is trimmable, and the stretch, unless empty, neither starts nor
   * ends with a trimmable character.
   */
  predicate IsTrimSpan(s: string, i: int, j: int) {
    && 0 <= i <= j <= |s|
    && (forall k :: 0 <= k < i ==> IsTrimmable(s[k]))
    && (forall k :: j <= k < |s| ==> IsTrimmable(s[k]))
    && (i < j ==> !IsTrimmable(s[i]) && !IsTrimmable(s[j - 1]))
  }

  /** `r` is `s` with its blank prefix and blank suffix cut off. */
  predicate IsTrimOf(r: string, s: string) {
    exists i, j :: 0 <= i <= j <= |s| && IsTrimSpan(s, i, j) && r == s[i..j]
  }

  /** `trim`: the stretch of `s` between its leading and trailing trimmable characters. */
  function Trim(s: string): (r: string)
    ensures IsTrimOf(r, s)
    ensures r == [] <==> forall k :: 0 <= k < |s| ==> IsTrimmable(s[k])
  {
    var i := LeadingTrimmable(s);
    var j := if i == |s| then i else |s| - TrailingTrimmable(s);
    assert i < |s| ==> !IsTrimmable(s[i]);
    assert IsTrimSpan(s, i, j);
    s[i..j]
  }

  /**
   * A non-empty trim span lies inside every other trim span, since its own
   * ends are not blank.
   */
  lemma TrimSpanInside(s: string, i1: int, j1: int, i2: int, j2: int)
    requires IsTrimSpan(s, i1, j1) && IsTrimSpan(s, i2, j2) && i1 < j1
    ensures i2 <= i1 && j1 <= j2
  {
  }

  /** Two trim spans of one string keep the same characters. */
  lemma TrimSpansAgree(s: string, i1: int, j1: int, i2: int, j2: int)
    requires IsTrimSpan(s, i1, j1) && IsTrimSpan(s, i2, j2)
    ensures s[i1..j1] == s[i2..j2]
  {
    if i1 < j1 {
      TrimSpanInside(s, i1, j1, i2, j2);
    }
    if i2 < j2 {
      TrimSpanInside(s, i2, j2, i1, j1);
    }
  }

  /** Only one string is the trim of `s`, so `IsTrimOf` pins `trim` down. */
  lemma TrimUnique(s: string, r1: string, r2: string)
    requires IsTrimOf(r1, s) && IsTrimOf(r2, s)
    ensures r1 == r2
  {
    var i1, j1 :| IsTrimSpan(s, i1, j1) && r1 == s[i1..j1];
    var i2, j2 :| IsTrimSpan(s, i2, j2) && r2 == s[i2..j2];
    TrimSpansAgree(s, i1, j1, i2, j2);
  }

  /** A string that neither starts nor ends blank is its own trim. */
  lemma TrimOfTrimmed(s: string)
    requires s != [] ==> !IsTrimmable(s[0]) && !IsTrimmable(s[|s| - 1])
    ensures Trim(s) == s
  {
    assert IsTrimSpan(s, 0, |s|) && s == s[0..|s|];
    TrimUnique(s, Trim(s), s);
  }

  /** PHP's truthiness of a request value: absent, "" and "0" are false. */
  predicate Truthy(v: Option<string>) {
    v.Some? && v.value != "" && v.value != "0"
  }
}
