/**
 * The few behaviours of Python's `str` that the pipeline relies on: `strip`,
 * `replace(pattern, '')`, the `in` substring test, `' '.join`, decimal
 * formatting of a non-negative `int`, `splitlines` (counted) and
 * `endswith` on a tuple of characters.
 */
module Text {

  /** `str.isspace()` for one character (the whitespace set `str.strip()` removes). */
  predicate IsSpace(c: char) {
    c == ' ' || ('\t' <= c <= '\r') || ('\U{1c}' <= c <= '\U{1f}')
    || c == '\U{85}' || c == '\U{a0}' || c == '\U{1680}'
    || ('\U{2000}' <= c <= '\U{200a}') || c == '\U{2028}' || c == '\U{2029}'
    || c == '\U{202f}' || c == '\U{205f}' || c == '\U{3000}'
  }

  /** Number of whitespace characters at the front of `s`. */
  function LeadingSpaces(s: string): (n: nat)
    ensures n <= |s|
    ensures forall k :: 0 <= k < n ==> IsSpace(s[k])
    ensures n < |s| ==> !IsSpace(s[n])
  {
    if s == [] || !IsSpace(s[0]) then 0 else 1 + LeadingSpaces(s[1..])
  }

  /** Number of whitespace characters at the back of `s`. */
  function TrailingSpaces(s: string): (n: nat)
    ensures n <= |s|
    ensures forall k :: |s| - n <= k < |s| ==> IsSpace(s[k])
    ensures n < |s| ==> !IsSpace(s[|s| - 1 - n])
  {
    if s == [] || !IsSpace(s[|s| - 1]) then 0 else 1 + TrailingSpaces(s[..|s| - 1])
  }

  /** `s.strip()`: whitespace removed from both ends, nothing else touched. */
  function Strip(s: string): (r: string)
    ensures |r| <= |s|
    ensures forall c :: c in r ==> c in s
  {
    var t := s[LeadingSpaces(s)..];
    t[..|t| - TrailingSpaces(t)]
  }

  /**
   * What `strip` removes: the result is empty exactly when `s` is all
   * whitespace, otherwise it starts and ends with a non-space character; a
   * string already without spaces at its ends is kept as it is.
   */
  lemma StripSpec(s: string)
    ensures Strip(s) == [] <==> forall k :: 0 <= k < |s| ==> IsSpace(s[k])
    ensures Strip(s) != [] ==> !IsSpace(Strip(s)[0]) && !IsSpace(Strip(s)[|Strip(s)| - 1])
    ensures (s == [] || (!IsSpace(s[0]) && !IsSpace(s[|s| - 1]))) ==> Strip(s) == s
  {
    var r := Strip(s);
    assert forall k :: 0 <= k < |r| ==> r[k] == s[LeadingSpaces(s) + k];
  }

  /** The `in` operator on strings: `sub` occurs somewhere in `s`. */
  predicate Contains(s: string, sub: string)
    decreases |s|
  {
    sub <= s || (s != [] && Contains(s[1..], sub))
  }

  /** `s.replace(pat, '')`: every non-overlapping occurrence of `pat`, scanned left to right, is deleted. */
  function Remove(s: string, pat: string): (r: string)
    requires |pat| > 0
    ensures |r| <= |s|
    ensures forall c :: c in r ==> c in s
    ensures |pat| == 1 ==> pat[0] !in r
    ensures !Contains(s, pat) ==> r == s
    decreases |s|
  {
    if |s| < |pat| then s
    else if pat <= s then Remove(s[|pat|..], pat)
    else [s[0]] + Remove(s[1..], pat)
  }

  /** `sep.join(parts)`. */
  function Join(parts: seq<string>, sep: string): string
  {
    if |parts| == 0 then ""
    else if |parts| == 1 then parts[0]
    else parts[0] + sep + Join(parts[1..], sep)
  }

  function DigitChar(d: nat): char
    requires d < 10
  {
    (48 + d) as char
  }

  /** `str(n)` for a non-negative integer: its decimal digits, no sign, no leading zero. */
  function NatToString(n: nat): (r: string)
    ensures |r| >= 1
    ensures |r| == 1 <==> n < 10
    ensures forall c :: c in r ==> '0' <= c <= '9'
    decreases n
  {
    if n < 10 then [DigitChar(n)] else NatToString(n / 10) + [DigitChar(n % 10)]
  }

  /** Distinct numbers print differently, so a number can be read back from its digits. */
  lemma {:induction false} NatToStringInjective(a: nat, b: nat)
    requires NatToString(a) == NatToString(b)
    ensures a == b
    decreases a
  {
    if a >= 10 && b >= 10 {
      var sa, sb := NatToString(a), NatToString(b);
      assert sa[|sa| - 1] == sb[|sb| - 1];
      assert DigitChar(a % 10) == DigitChar(b % 10);
      assert sa[..|sa| - 1] == NatToString(a / 10);
      assert sb[..|sb| - 1] == NatToString(b / 10);
      NatToStringInjective(a / 10, b / 10);
    } else if a < 10 && b < 10 {
      assert DigitChar(a) == NatToString(a)[0];
    }
  }

  /** The characters `str.splitlines()` treats as line boundaries. */
  predicate IsLineBreak(c: char) {
    c == '\n' || c == '\r' || c == '\U{b}' || c == '\U{c}' || c == '\U{1c}' || c == '\U{1d}'
    || c == '\U{1e}' || c == '\U{85}' || c == '\U{2028}' || c == '\U{2029}'
  }

  /** What follows the first line of a non-empty `s` (a `\r\n` pair ends one line). */
  function AfterFirstLine(s: string): (r: string)
    requires s != []
    ensures |r| < |s|
  {
    if IsLineBreak(s[0]) then
      (if s[0] == '\r' && |s| > 1 && s[1] == '\n' then s[2..] else s[1..])
    else if |s| == 1 then []
    else AfterFirstLine(s[1..])
  }

  /** `len(s.splitlines())`. */
  function LineCount(s: string): nat
    decreases |s|
  {
    if s == [] then 0 else 1 + LineCount(AfterFirstLine(s))
  }

  /** `s.endswith(('.', '!', '?'))`. */
  predicate EndsWithTerminator(s: string) {
    |s| > 0 && (s[|s| - 1] == '.' || s[|s| - 1] == '!' || s[|s| - 1] == '?')
  }

  /** Removing a part of `s` cannot make it contain something it contained only through that part. */
  lemma {:induction false} ContainsShift(s: string, k: nat, sub: string)
    requires k <= |s| && Contains(s[k..], sub)
    ensures Contains(s, sub)
    decreases k
  {
    if k > 0 {
      assert s[1..][k - 1..] == s[k..];
      ContainsShift(s[1..], k - 1, sub);
    }
  }

  /** Whatever contains `a + b` contains `b`. */
  lemma {:induction false} ContainsSuffix(s: string, a: string, b: string)
    requires Contains(s, a + b)
    ensures Contains(s, b)
    decreases |s|
  {
    if a + b <= s {
      assert s[|a|..][..|b|] == b;
      ContainsShift(s, |a|, b);
    } else {
      ContainsSuffix(s[1..], a, b);
    }
  }

  /** A string lacking one of the characters of `sub` cannot contain `sub`. */
  lemma {:induction false} MissingCharNotContained(s: string, sub: string, i: nat)
    requires i < |sub| && sub[i] !in s
    ensures !Contains(s, sub)
    decreases |s|
  {
    if s != [] {
      MissingCharNotContained(s[1..], sub, i);
    }
  }

  /**
   * Deleting `pat` from `x + pat + y`, when no occurrence starts inside `x`,
   * keeps `x` and goes on after that occurrence.
   */
  lemma {:induction false} RemoveAfter(x: string, pat: string, y: string)
    requires |pat| > 0
    requires forall i :: 0 <= i < |x| ==> !(pat <= x[i..] + pat + y)
    ensures Remove(x + pat + y, pat) == x + Remove(y, pat)
    decreases |x|
  {
    var s := x + pat + y;
    if x == [] {
      assert s == pat + y;
      assert pat <= s;
      assert s[|pat|..] == y;
      assert Remove(s, pat) == Remove(y, pat);
      assert x + Remove(y, pat) == Remove(y, pat);
    } else {
      assert x[0..] == x;
      assert !(pat <= s);
      assert s[1..] == x[1..] + pat + y;
      forall i | 0 <= i < |x| - 1 ensures !(pat <= x[1..][i..] + pat + y) {
        assert x[1..][i..] == x[i + 1..];
      }
      RemoveAfter(x[1..], pat, y);
      assert Remove(s, pat) == [s[0]] + Remove(s[1..], pat);
      assert [s[0]] + (x[1..] + Remove(y, pat)) == ([x[0]] + x[1..]) + Remove(y, pat);
      assert [x[0]] + x[1..] == x;
    }
  }
}
