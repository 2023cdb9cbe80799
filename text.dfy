/** The string operations the handlers use: the `\s` class of JavaScript
    regular expressions, prefix tests, `toLowerCase` on the ASCII letters of
    enum names, and `parseInt` in base 10. */
module Text {

  import Common

  /** The characters matched by `\s` in a JavaScript regular expression:
      the ECMAScript WhiteSpace and LineTerminator code points. */
  predicate IsWhitespace(c: char) {
    c == ' ' || c == '\t' || c == '\n' || c == '\r' || c == '\U{000B}' || c == '\U{000C}'
    || c == '\U{00A0}' || c == '\U{1680}' || ('\U{2000}' <= c <= '\U{200A}')
    || c == '\U{2028}' || c == '\U{2029}' || c == '\U{202F}' || c == '\U{205F}'
    || c == '\U{3000}' || c == '\U{FEFF}'
  }

  predicate NoWhitespace(s: string) {
    forall i :: 0 <= i < |s| ==> !IsWhitespace(s[i])
  }

  /** `s.replace(/\s/g, '')`: the non-whitespace characters of `s`, in order. */
  function StripWhitespace(s: string): (r: string)
    ensures NoWhitespace(r)
    ensures |r| <= |s|
    ensures NoWhitespace(s) ==> r == s
  {
    if s == [] then []
    else
      assert s == [s[0]] + s[1..];
      if IsWhitespace(s[0]) then StripWhitespace(s[1..])
      else [s[0]] + StripWhitespace(s[1..])
  }

  /** Only whitespace is removed: every other character keeps its count. */
  lemma {:induction false} StripWhitespaceKeeps(s: string, c: char)
    requires !IsWhitespace(c)
    ensures multiset(StripWhitespace(s))[c] == multiset(s)[c]
  {
    if s != [] {
      assert s == [s[0]] + s[1..];
      StripWhitespaceKeeps(s[1..], c);
    }
  }

  lemma {:induction false} StripWhitespaceAppend(a: string, b: string)
    ensures StripWhitespace(a + b) == StripWhitespace(a) + StripWhitespace(b)
  {
    if a == [] {
      assert a + b == b;
    } else {
      assert (a + b)[0] == a[0];
      assert (a + b)[1..] == a[1..] + b;
      StripWhitespaceAppend(a[1..], b);
    }
  }

  predicate StartsWith(s: string, prefix: string) {
    |prefix| <= |s| && s[..|prefix|] == prefix
  }

  function LowerChar(c: char): (r: char)
    ensures 'A' <= c <= 'Z' ==> 'a' <= r <= 'z'
    ensures !('A' <= c <= 'Z') ==> r == c
  {
    if 'A' <= c <= 'Z' then (c as int + 32) as char else c
  }

  /** `toLowerCase` on strings whose letters are ASCII (the enum names of the
      status columns). */
  function ToLower(s: string): (r: string)
    ensures |r| == |s|
    ensures forall i :: 0 <= i < |s| ==> r[i] == LowerChar(s[i])
  {
    if s == [] then [] else [LowerChar(s[0])] + ToLower(s[1..])
  }

  /** `lower` is `upper` lower-cased when they agree character by character. */
  lemma LowerAsciiWord(upper: string, lower: string)
    requires |upper| == |lower|
    requires forall i :: 0 <= i < |upper| ==> LowerChar(upper[i]) == lower[i]
    ensures ToLower(upper) == lower
  {
    var r := ToLower(upper);
    assert forall i :: 0 <= i < |r| ==> r[i] == lower[i];
  }

  predicate IsDigit(c: char) {
    '0' <= c <= '9'
  }

  /** The length of the run of decimal digits at the start of `s`. */
  function DigitRun(s: string): (n: nat)
    ensures n <= |s|
    ensures forall i :: 0 <= i < n ==> IsDigit(s[i])
    ensures n < |s| ==> !IsDigit(s[n])
  {
    if s == [] || !IsDigit(s[0]) then 0 else 1 + DigitRun(s[1..])
  }

  /** The value of a non-empty string of decimal digits. */
  function DigitsValue(s: string): (v: nat)
    requires forall i :: 0 <= i < |s| ==> IsDigit(s[i])
  {
    if s == [] then 0
    else
      assert IsDigit(s[|s| - 1]);
      DigitsValue(s[..|s| - 1]) * 10 + (s[|s| - 1] as int - '0' as int)
  }

  /** The index of the first character of `s` that is not whitespace. */
  function SkipWhitespace(s: string): (n: nat)
    ensures n <= |s|
    ensures forall i :: 0 <= i < n ==> IsWhitespace(s[i])
    ensures n < |s| ==> !IsWhitespace(s[n])
  {
    if s == [] || !IsWhitespace(s[0]) then 0 else 1 + SkipWhitespace(s[1..])
  }

  /** `parseInt(s)` without a radix: leading whitespace is skipped, one sign is
      allowed, and the longest run of decimal digits that follows is read; with
      no digit the result is NaN, here `None`. */
  function ParseInt(s: string): (r: Common.Option<int>)
  {
    var t := s[SkipWhitespace(s)..];
    var sign := if t != [] && (t[0] == '-' || t[0] == '+') then 1 else 0;
    var u := t[sign..];
    var n := DigitRun(u);
    if n == 0 then Common.None
    else if sign == 1 && t[0] == '-' then Common.Some(-(DigitsValue(u[..n]) as int))
    else Common.Some(DigitsValue(u[..n]))
  }

  /** parseInt reads a single decimal digit as its value, so the seven weekday
      numbers of a form field come back unchanged. */
  lemma ParseIntDigit(d: nat)
    requires d <= 9
    ensures ParseInt([(d + '0' as int) as char]) == Common.Some(d)
  {
    var s := [(d + '0' as int) as char];
    assert SkipWhitespace(s) == 0;
    assert s[0..] == s;
    assert DigitRun(s) == 1;
    assert s[..1] == s;
    assert DigitsValue(s) == DigitsValue(s[..0]) * 10 + d;
  }

  /** Text with no digit after optional whitespace and a sign parses to NaN. */
  lemma ParseIntNoDigits(s: string)
    requires forall i :: 0 <= i < |s| ==> !IsDigit(s[i])
    ensures ParseInt(s) == Common.None
  {
  }
}
