/** String primitives of the JavaScript runtime that the site's logic relies on:
    `toLowerCase`/`toUpperCase` (ASCII letters only), `includes`, `trim`, and
    the first field of `split('@')`. Strings are sequences of characters. */
module Strings {

  predicate IsUpperAscii(c: char) { 'A' <= c <= 'Z' }

  predicate IsLowerAscii(c: char) { 'a' <= c <= 'z' }

  /** `toLowerCase` on one character, restricted to ASCII letters. */
  function LowerChar(c: char): (r: char)
    ensures !IsUpperAscii(r)
    ensures IsUpperAscii(c) ==> IsLowerAscii(r) && r as int == c as int + 32
    ensures !IsUpperAscii(c) ==> r == c
  {
    if IsUpperAscii(c) then (c as int + 32) as char else c
  }

  /** `toUpperCase` on one character, restricted to ASCII letters. */
  function UpperChar(c: char): (r: char)
    ensures !IsLowerAscii(r)
    ensures IsLowerAscii(c) ==> IsUpperAscii(r) && r as int == c as int - 32
    ensures !IsLowerAscii(c) ==> r == c
  {
    if IsLowerAscii(c) then (c as int - 32) as char else c
  }

  /** True when no character of `s` is an upper-case ASCII letter. */
  predicate NoUpper(s: string) {
    forall i :: 0 <= i < |s| ==> !IsUpperAscii(s[i])
  }

  /** `s.toLowerCase()`, ASCII letters only: every upper-case letter is
      mapped to its lower-case partner, nothing else changes, and no
      upper-case letter is left. */
  function Lower(s: string): (r: string)
    ensures |r| == |s|
    ensures forall i :: 0 <= i < |s| ==> r[i] == LowerChar(s[i])
    ensures NoUpper(r)
    ensures NoUpper(s) ==> r == s
  {
    seq(|s|, i requires 0 <= i < |s| => LowerChar(s[i]))
  }

  /** A string that holds no upper-case letter is its own lower-casing. */
  lemma LowerOfLowerCase(s: string)
    requires NoUpper(s)
    ensures Lower(s) == s
  {
  }

  /** `sub` occurs in `s` starting at index `i`. */
  predicate OccursAt(s: string, sub: string, i: int) {
    0 <= i && i + |sub| <= |s| && s[i..i + |sub|] == sub
  }

  /** `s.includes(sub)`: `sub` occurs somewhere in `s`; the empty string occurs everywhere. */
  predicate Contains(s: string, sub: string) {
    exists i | 0 <= i <= |s| - |sub| :: OccursAt(s, sub, i)
  }

  lemma ContainsEmpty(s: string)
    ensures Contains(s, "")
  {
    assert OccursAt(s, "", 0);
  }

  lemma ContainsPrefix(s: string, sub: string)
    requires sub <= s
    ensures Contains(s, sub)
  {
    assert OccursAt(s, sub, 0);
  }

  /** The stretch of `s` starting at `i` lower-cases to `sub`. */
  predicate LowersToAt(s: string, sub: string, i: int) {
    0 <= i && i + |sub| <= |s| && Lower(s[i..i + |sub|]) == sub
  }

  /** Searching the lower-cased text is a case-insensitive search of the text
      as typed: `sub` occurs in `Lower(s)` exactly when some stretch of `s`
      lower-cases to `sub`. */
  lemma ContainsIgnoringCase(s: string, sub: string)
    ensures Contains(Lower(s), sub) <==> exists i :: LowersToAt(s, sub, i)
  {
    forall i | 0 <= i <= |s| - |sub|
      ensures OccursAt(Lower(s), sub, i) <==> LowersToAt(s, sub, i)
    {
      assert Lower(s)[i..i + |sub|] == Lower(s[i..i + |sub|]);
    }
  }

  /** A string holding a character the text lacks does not occur in it. */
  lemma NotContainsByChar(text: string, key: string, c: char)
    requires c in key && c !in text
    ensures !Contains(text, key)
  {
  }

  /** The characters removed by JavaScript's `String.prototype.trim`: the
      WhiteSpace code points (TAB, VT, FF, ZWNBSP and the Unicode Zs category)
      and the LineTerminator code points (LF, CR, LS, PS). */
  predicate IsWhitespace(c: char) {
    || c == '\t' || c == '\n' || c == '\U{000B}' || c == '\U{000C}' || c == '\r'
    || c == ' ' || c == '\U{00A0}' || c == '\U{1680}'
    || ('\U{2000}' <= c <= '\U{200A}')
    || c == '\U{2028}' || c == '\U{2029}' || c == '\U{202F}' || c == '\U{205F}'
    || c == '\U{3000}' || c == '\U{FEFF}'
  }

  predicate AllWhitespace(s: string) {
    forall i :: 0 <= i < |s| ==> IsWhitespace(s[i])
  }

  /** Removes leading whitespace. */
  function TrimStart(s: string): (r: string)
    ensures |r| <= |s| && r == s[|s| - |r|..]
    ensures AllWhitespace(s[..|s| - |r|])
    ensures r == [] || !IsWhitespace(r[0])
  {
    if |s| > 0 && IsWhitespace(s[0]) then
      var r := TrimStart(s[1..]);
      DropLeading(s, r);
      r
    else s
  }

  /** A whitespace character in front of a whitespace run and a tail `r`
      makes a longer whitespace run in front of the same tail. */
  lemma DropLeading(s: string, r: string)
    requires |s| > 0 && IsWhitespace(s[0])
    requires |r| <= |s| - 1 && r == s[1..][|s| - 1 - |r|..]
    requires AllWhitespace(s[1..][..|s| - 1 - |r|])
    ensures r == s[|s| - |r|..]
    ensures AllWhitespace(s[..|s| - |r|])
  {
    assert forall i :: 1 <= i < |s| - |r| ==> s[i] == s[1..][..|s| - 1 - |r|][i - 1];
  }

  /** Removes trailing whitespace. */
  function TrimEnd(s: string): (r: string)
    ensures r <= s
    ensures AllWhitespace(s[|r|..])
    ensures r == [] || !IsWhitespace(r[|r| - 1])
  {
    if |s| > 0 && IsWhitespace(s[|s| - 1]) then
      var r := TrimEnd(s[..|s| - 1]);
      assert forall i :: |r| <= i < |s| - 1 ==> s[i] == s[..|s| - 1][|r|..][i - |r|];
      r
    else s
  }

  /** `s.trim()`: the middle stretch of `s` left once the whitespace on
      both ends is removed; it neither starts nor ends with whitespace. */
  function Trim(s: string): (r: string)
    ensures exists k :: MiddleAt(s, r, k)
    ensures r == [] || (!IsWhitespace(r[0]) && !IsWhitespace(r[|r| - 1]))
  {
    var t := TrimStart(s);
    var r := TrimEnd(t);
    TrimIsMiddle(s, |s| - |t|, r);
    r
  }

  /** `r` is the stretch of `s` starting at `k`, and everything before and
      after it is whitespace. */
  predicate MiddleAt(s: string, r: string, k: int) {
    0 <= k <= |s| - |r| && r == s[k..k + |r|]
    && AllWhitespace(s[..k]) && AllWhitespace(s[k + |r|..])
  }

  /** Dropping whitespace from the front and then from the back leaves a
      middle stretch of the original string. */
  lemma TrimIsMiddle(s: string, k: nat, r: string)
    requires k <= |s| && AllWhitespace(s[..k])
    requires r <= s[k..] && AllWhitespace(s[k..][|r|..])
    ensures MiddleAt(s, r, k)
  {
    assert s[k + |r|..] == s[k..][|r|..];
  }

  /** `s.trim()` is empty exactly when every character of `s` is whitespace. */
  lemma TrimEmptyIffAllWhitespace(s: string)
    ensures Trim(s) == [] <==> AllWhitespace(s)
  {
  }

  /** `s.split(sep)[0]`: the part of `s` before the first `sep`, or all of `s`
      when `sep` does not occur. */
  function TakeUntil(s: string, sep: char): (r: string)
    ensures r <= s
    ensures sep !in r
    ensures sep in s ==> |r| < |s| && s[|r|] == sep
    ensures sep !in s ==> r == s
  {
    if |s| == 0 then []
    else if s[0] == sep then []
    else [s[0]] + TakeUntil(s[1..], sep)
  }
}
