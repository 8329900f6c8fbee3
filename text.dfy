/** The string operations the screens use: `toLowerCase` restricted to ASCII,
    `trim` restricted to ASCII white space, `startsWith` and `includes`.
    Strings are sequences of characters. */
module Text {

  predicate IsUpper(c: char) {
    'A' <= c <= 'Z'
  }

  /** `toLowerCase` on one character, for the ASCII letters only. */
  function LowerChar(c: char): (r: char)
    ensures !IsUpper(r)
    ensures IsUpper(c) ==> r as int - c as int == 'a' as int - 'A' as int
    ensures !IsUpper(c) ==> r == c
  {
    if IsUpper(c) then (c as int + 32) as char else c
  }

  /** `String.prototype.toLowerCase` (ASCII only). */
  function ToLower(s: string): (r: string)
    ensures |r| == |s|
    ensures forall i :: 0 <= i < |s| ==> r[i] == LowerChar(s[i])
  {
    seq(|s|, i requires 0 <= i < |s| => LowerChar(s[i]))
  }

  /** Lower-casing twice is lower-casing once. */
  lemma ToLowerIdempotent(s: string)
    ensures ToLower(ToLower(s)) == ToLower(s)
  {
    var once := ToLower(s);
    assert forall i :: 0 <= i < |once| ==> !IsUpper(once[i]);
  }

  /** `String.prototype.startsWith`. */
  predicate StartsWith(s: string, prefix: string) {
    |prefix| <= |s| && s[..|prefix|] == prefix
  }

  /** `String.prototype.includes`: `needle` occurs somewhere in `s`. */
  predicate Includes(s: string, needle: string)
    decreases |s|
  {
    StartsWith(s, needle) || (|s| > 0 && Includes(s[1..], needle))
  }

  /** `needle` occurs in `s` starting at position `k`. */
  predicate OccursAt(s: string, needle: string, k: int) {
    0 <= k && k + |needle| <= |s| && s[k..k + |needle|] == needle
  }

  /** `includes` holds exactly when the needle occurs at some position of `s`. */
  lemma {:induction false} IncludesIff(s: string, needle: string)
    ensures Includes(s, needle) <==> exists k :: OccursAt(s, needle, k)
    decreases |s|
  {
    if StartsWith(s, needle) {
      assert s[0..|needle|] == s[..|needle|];
      assert OccursAt(s, needle, 0);
    }
    if |s| > 0 {
      IncludesIff(s[1..], needle);
      if exists k :: OccursAt(s, needle, k) {
        var k :| OccursAt(s, needle, k);
        if k > 0 {
          assert s[1..][k - 1..k - 1 + |needle|] == s[k..k + |needle|];
          assert OccursAt(s[1..], needle, k - 1);
        }
      }
      if Includes(s[1..], needle) {
        var k :| OccursAt(s[1..], needle, k);
        assert s[k + 1..k + 1 + |needle|] == s[1..][k..k + |needle|];
        assert OccursAt(s, needle, k + 1);
      }
    } else {
      if exists k :: OccursAt(s, needle, k) {
        var k :| OccursAt(s, needle, k);
        assert k == 0 && |needle| == 0;
      }
    }
  }

  /** The empty string is included in every string. */
  lemma IncludesEmpty(s: string)
    ensures Includes(s, "")
  {
    assert s[..0] == "";
  }

  /** Two prefixes of one string are prefixes of each other. */
  lemma PrefixesAreNested(s: string, p: string, q: string)
    requires StartsWith(s, p) && StartsWith(s, q) && |p| <= |q|
    ensures StartsWith(q, p)
  {
    assert q[..|p|] == s[..|q|][..|p|] == s[..|p|];
  }

  /** The white-space characters `trim` removes, restricted to ASCII: space,
      tab, line feed, vertical tab, form feed and carriage return. */
  predicate IsWhitespace(c: char) {
    c == ' ' || c == '\t' || c == '\n' || c == '\U{B}' || c == '\U{C}' || c == '\r'
  }

  /** Leading white space removed. */
  function TrimStart(s: string): (r: string)
    ensures |r| <= |s| && r == s[|s| - |r|..]
    ensures forall i :: 0 <= i < |s| - |r| ==> IsWhitespace(s[i])
    ensures r != [] ==> !IsWhitespace(r[0])
  {
    if s != [] && IsWhitespace(s[0]) then TrimStart(s[1..]) else s
  }

  /** Trailing white space removed. */
  function TrimEnd(s: string): (r: string)
    ensures |r| <= |s| && r == s[..|r|]
    ensures forall i :: |r| <= i < |s| ==> IsWhitespace(s[i])
    ensures r != [] ==> !IsWhitespace(r[|r| - 1])
  {
    if s != [] && IsWhitespace(s[|s| - 1]) then TrimEnd(s[..|s| - 1]) else s
  }

  /** `String.prototype.trim`. */
  function Trim(s: string): string {
    TrimEnd(TrimStart(s))
  }

  /** Nothing but white space (the empty string included). */
  predicate IsBlank(s: string) {
    forall i :: 0 <= i < |s| ==> IsWhitespace(s[i])
  }

  /** `!s.trim()` holds, the trimmed string being empty and so falsy, exactly
      when `s` is blank. */
  lemma BlankIffTrimEmpty(s: string)
    ensures Trim(s) == "" <==> IsBlank(s)
  {
    var t := TrimStart(s);
    if Trim(s) == "" {
      TrimmedStartIsEmpty(s);
    }
  }

  /** When trimming both ends leaves nothing, trimming the start already does:
      what `TrimStart` leaves does not begin with white space. */
  lemma TrimmedStartIsEmpty(s: string)
    requires Trim(s) == ""
    ensures TrimStart(s) == ""
  {
    var t := TrimStart(s);
    assert forall i :: 0 <= i < |t| ==> IsWhitespace(t[i]);
  }

  /** The search test of the list screens: `s.toLowerCase().includes(search.toLowerCase())`. */
  predicate ContainsIgnoringCase(s: string, search: string) {
    Includes(ToLower(s), ToLower(search))
  }

  /** Lower-casing distributes over concatenation. */
  lemma ToLowerAppend(s: string, t: string)
    ensures ToLower(s + t) == ToLower(s) + ToLower(t)
  {
  }

  /** A string that contains `s + t` contains `s`. */
  lemma IncludesPrefixOfNeedle(x: string, s: string, t: string)
    requires Includes(x, s + t)
    ensures Includes(x, s)
  {
    IncludesIff(x, s + t);
    var k :| OccursAt(x, s + t, k);
    assert x[k..k + |s|] == x[k..k + |s + t|][..|s|];
    assert OccursAt(x, s, k);
    IncludesIff(x, s);
  }

  /** Typing more of the search never brings back a string it excluded. */
  lemma LongerSearchNarrows(x: string, s: string, t: string)
    requires ContainsIgnoringCase(x, s + t)
    ensures ContainsIgnoringCase(x, s)
  {
    ToLowerAppend(s, t);
    IncludesPrefixOfNeedle(ToLower(x), ToLower(s), ToLower(t));
  }

  /** The search does not depend on the case of what is typed. */
  lemma SearchIgnoresCase(x: string, search: string)
    ensures ContainsIgnoringCase(x, search) <==> ContainsIgnoringCase(x, ToLower(search))
  {
    ToLowerIdempotent(search);
  }

  /** The empty search matches every string. */
  lemma EmptySearchMatches(x: string)
    ensures ContainsIgnoringCase(x, "")
  {
    assert ToLower("") == "";
    IncludesEmpty(ToLower(x));
  }
}
