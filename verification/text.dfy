/** Character classes and `String.prototype.trim` as JavaScript defines them. */
module Text {
  import opened Wrappers

  /** The characters `trim` strips: ECMAScript WhiteSpace (tab, vertical tab, form feed,
      space, no-break space, byte-order mark and the Unicode space separators) and
      LineTerminator (line feed, carriage return, line and paragraph separator). */
  const JsWhitespace: set<char> := {
    '\t', '\U{000B}', '\U{000C}', ' ', '\U{00A0}', '\U{FEFF}',
    '\n', '\r', '\U{2028}', '\U{2029}',
    '\U{1680}', '\U{2000}', '\U{2001}', '\U{2002}', '\U{2003}', '\U{2004}', '\U{2005}',
    '\U{2006}', '\U{2007}', '\U{2008}', '\U{2009}', '\U{200A}',
    '\U{202F}', '\U{205F}', '\U{3000}'
  }

  predicate IsJsWhitespace(c: char) {
    c in JsWhitespace
  }

  /** True when `s` holds nothing but whitespace (so `s.trim()` is the empty, falsy string). */
  predicate IsBlank(s: string) {
    forall k :: 0 <= k < |s| ==> IsJsWhitespace(s[k])
  }

  /** The index of the first non-whitespace character at or after `i`, or `|s|`. */
  function SkipWhitespace(s: string, i: nat): (n: nat)
    requires i <= |s|
    ensures i <= n <= |s|
    ensures forall k :: i <= k < n ==> IsJsWhitespace(s[k])
    ensures n < |s| ==> !IsJsWhitespace(s[n])
    decreases |s| - i
  {
    if i < |s| && IsJsWhitespace(s[i]) then SkipWhitespace(s, i + 1) else i
  }

  /** Where `s[lo..j]` ends once its trailing whitespace is dropped. */
  function SkipWhitespaceBack(s: string, lo: nat, j: nat): (e: nat)
    requires lo <= j <= |s|
    ensures lo <= e <= j
    ensures forall k :: e <= k < j ==> IsJsWhitespace(s[k])
    ensures e > lo ==> !IsJsWhitespace(s[e - 1])
    decreases j - lo
  {
    if j > lo && IsJsWhitespace(s[j - 1]) then SkipWhitespaceBack(s, lo, j - 1) else j
  }

  /** How many whitespace characters `trim` removes from the front of `s`. */
  function LeadingWhitespace(s: string): (n: nat)
    ensures n <= |s|
  {
    SkipWhitespace(s, 0)
  }

  /** `s.trim()`: the infix of `s` that neither starts nor ends with whitespace,
      everything before and after it being whitespace. */
  function Trim(s: string): (r: string)
    ensures LeadingWhitespace(s) + |r| <= |s|
    ensures r == s[LeadingWhitespace(s)..LeadingWhitespace(s) + |r|]
    ensures forall k :: 0 <= k < LeadingWhitespace(s) ==> IsJsWhitespace(s[k])
    ensures forall k :: LeadingWhitespace(s) + |r| <= k < |s| ==> IsJsWhitespace(s[k])
    ensures r != [] ==> !IsJsWhitespace(r[0]) && !IsJsWhitespace(r[|r| - 1])
    ensures r == [] <==> IsBlank(s)
  {
    var lo := LeadingWhitespace(s);
    var hi := SkipWhitespaceBack(s, lo, |s|);
    assert lo < hi ==> s[lo..hi][0] == s[lo] && s[lo..hi][hi - lo - 1] == s[hi - 1];
    s[lo..hi]
  }

  /** A string without whitespace at either end is its own trim. */
  lemma TrimOfTrimmed(s: string)
    requires s != [] ==> !IsJsWhitespace(s[0]) && !IsJsWhitespace(s[|s| - 1])
    ensures Trim(s) == s
  {
    if s != [] {
      assert LeadingWhitespace(s) == 0;
      assert SkipWhitespaceBack(s, 0, |s|) == |s|;
    }
  }

  /** Trimming is idempotent. */
  lemma TrimIdempotent(s: string)
    ensures Trim(Trim(s)) == Trim(s)
  {
    TrimOfTrimmed(Trim(s));
  }

  /** Trailing whitespace after a trimmed, non-empty text is all `trim` removes. */
  lemma TrimDropsTrailing(s: string, w: string)
    requires s != [] && !IsJsWhitespace(s[0]) && !IsJsWhitespace(s[|s| - 1])
    requires IsBlank(w)
    ensures Trim(s + w) == s
  {
    var t := s + w;
    assert t[0] == s[0];
    assert LeadingWhitespace(t) == 0;
    var e := SkipWhitespaceBack(t, 0, |t|);
    assert t[|s| - 1] == s[|s| - 1];
    assert e >= |s|;
    assert t[..|s|] == s;
  }

  /** True when `prefix` is an initial segment of `s` (`s.startsWith(prefix)`). */
  predicate StartsWith(s: string, prefix: string) {
    |prefix| <= |s| && s[..|prefix|] == prefix
  }

  /** JavaScript's `x || fallback` for an optional string: the value unless it is absent or
      empty (both falsy). */
  function OrElse(x: Option<string>, fallback: string): (r: string)
    ensures x.Some? && x.value != [] ==> r == x.value
    ensures x.None? || x.value == [] ==> r == fallback
  {
    if x.Some? && x.value != [] then x.value else fallback
  }
}
