/**
 * The parts of java.lang.String, Character, Long and commons-lang StringUtils
 * that the application relies on, stated over Dafny strings (sequences of
 * Unicode scalar values).
 */
module Text {
  import opened Wrappers

  const LONG_MIN: int := -0x8000_0000_0000_0000
  const LONG_MAX: int := 0x7FFF_FFFF_FFFF_FFFF

  /** `\s` of java.util.regex (without UNICODE_CHARACTER_CLASS): [ \t\n\x0B\f\r]. */
  predicate IsRegexSpace(c: char) {
    c == ' ' || c == '\t' || c == '\n' || c == '\U{B}' || c == '\U{C}' || c == '\r'
  }

  /** The first index at or after `i` whose character is not matched by `\s`; |text| if none. */
  function SkipRegexSpace(text: string, i: nat): (k: nat)
    requires i <= |text|
    ensures i <= k <= |text|
    ensures forall j :: i <= j < k ==> IsRegexSpace(text[j])
    ensures k < |text| ==> !IsRegexSpace(text[k])
    decreases |text| - i
  {
    if i == |text| || !IsRegexSpace(text[i]) then i else SkipRegexSpace(text, i + 1)
  }

  /** Skipping from i passes every `\s` character of a run starting at i. */
  lemma {:induction false} SkipsPastSpaces(text: string, i: nat, k: nat)
    requires i <= k <= |text|
    requires forall j :: i <= j < k ==> IsRegexSpace(text[j])
    ensures SkipRegexSpace(text, i) >= k
    decreases k - i
  {
    if i < k {
      SkipsPastSpaces(text, i + 1, k);
    }
  }

  /** A `^\s*c` pattern finds a match: the text begins with `c` once its leading `\s` characters are skipped. */
  ghost predicate OpensWith(text: string, c: char) {
    exists k :: 0 <= k < |text| && text[k] == c && forall j :: 0 <= j < k ==> IsRegexSpace(text[j])
  }

  /** For a character `\s` does not match, the first character after leading `\s` is the one
    * SkipRegexSpace finds. */
  lemma OpensWithAt(text: string, c: char)
    requires !IsRegexSpace(c)
    ensures OpensWith(text, c) <==> SkipRegexSpace(text, 0) < |text| && text[SkipRegexSpace(text, 0)] == c
  {
    var k := SkipRegexSpace(text, 0);
    if OpensWith(text, c) {
      var k' :| 0 <= k' < |text| && text[k'] == c && forall j :: 0 <= j < k' ==> IsRegexSpace(text[j]);
      SkipsPastSpaces(text, 0, k');
    }
  }

  /**
   * Character.isWhitespace: the space, line and paragraph separators other than
   * the three non-breaking spaces, plus U+0009..U+000D and U+001C..U+001F.
   */
  predicate IsJavaWhitespace(c: char) {
    || ('\t' <= c <= '\r')
    || ('\U{1C}' <= c <= '\U{1F}')
    || c == ' ' || c == '\U{1680}'
    || ('\U{2000}' <= c <= '\U{200A}' && c != '\U{2007}')
    || c == '\U{2028}' || c == '\U{2029}' || c == '\U{205F}' || c == '\U{3000}'
  }

  /** String.isBlank: empty or only whitespace. */
  predicate IsBlank(s: string) {
    forall i :: 0 <= i < |s| ==> IsJavaWhitespace(s[i])
  }

  /** StringUtils.isNotBlank: false for null. */
  predicate IsNotBlank(s: Option<string>) {
    s.Some? && !IsBlank(s.value)
  }

  /** String.trim: drops every leading and trailing character at or below U+0020. */
  function Trim(s: string): (r: string)
    ensures |r| <= |s|
    ensures r != [] ==> r[0] > ' ' && r[|r| - 1] > ' '
    ensures r == [] <==> forall k :: 0 <= k < |s| ==> s[k] <= ' '
    ensures exists i, j :: && 0 <= i <= j <= |s| && r == s[i..j]
                           && (forall k :: 0 <= k < i ==> s[k] <= ' ')
                           && (forall k :: j <= k < |s| ==> s[k] <= ' ')
  {
    var i := TrimStart(s);
    var j := TrimEnd(s, i, |s|);
    assert j > i ==> s[i] > ' ';
    s[i..j]
  }

  /** The index of the first character above U+0020, |s| when there is none. */
  function TrimStart(s: string): (i: nat)
    ensures i <= |s| && (i < |s| ==> s[i] > ' ')
    ensures forall k :: 0 <= k < i ==> s[k] <= ' '
  {
    if s == [] || s[0] > ' ' then 0
    else
      var i := TrimStart(s[1..]);
      assert forall k :: 1 <= k < i + 1 ==> s[k] == s[1..][k - 1];
      i + 1
  }

  /** The end of s[lo..hi] once the characters at or below U+0020 are dropped from its end. */
  function TrimEnd(s: string, lo: nat, hi: nat): (j: nat)
    requires lo <= hi <= |s|
    ensures lo <= j <= hi && (j > lo ==> s[j - 1] > ' ')
    ensures forall k :: j <= k < hi ==> s[k] <= ' '
    decreases hi
  {
    if hi == lo || s[hi - 1] > ' ' then hi else TrimEnd(s, lo, hi - 1)
  }

  /** Upper-casing of the ASCII letters (the locale rules of String.toUpperCase are not modelled). */
  function ToUpperAscii(s: string): (r: string)
    ensures |r| == |s|
    ensures forall i :: 0 <= i < |s| ==> r[i] == UpperAscii(s[i])
  {
    seq(|s|, i requires 0 <= i < |s| => UpperAscii(s[i]))
  }

  /** Two strings of equal length that agree character by character up to ASCII case. */
  predicate SameIgnoringCase(a: string, b: string) {
    |a| == |b| && forall k :: 0 <= k < |a| ==> UpperAscii(a[k]) == UpperAscii(b[k])
  }

  /** Upper-casing leaves no lower-case ASCII letter, changes nothing else than those letters,
    * is idempotent, and gives equal results exactly for strings equal up to ASCII case. */
  lemma ToUpperAsciiSpec(s: string, t: string)
    ensures forall i :: 0 <= i < |s| ==> !('a' <= ToUpperAscii(s)[i] <= 'z')
    ensures forall i :: 0 <= i < |s| && !('a' <= s[i] <= 'z') ==> ToUpperAscii(s)[i] == s[i]
    ensures ToUpperAscii(ToUpperAscii(s)) == ToUpperAscii(s)
    ensures ToUpperAscii(s) == ToUpperAscii(t) <==> SameIgnoringCase(s, t)
  {
    var u := ToUpperAscii(s);
    assert forall i :: 0 <= i < |s| ==> ToUpperAscii(u)[i] == u[i];
    if SameIgnoringCase(s, t) {
      assert forall i :: 0 <= i < |s| ==> u[i] == ToUpperAscii(t)[i];
    }
  }

  /** `s` holds `word` at index i, up to ASCII case. */
  predicate OccursIgnoringCaseAt(s: string, word: string, i: int) {
    0 <= i && i + |word| <= |s| && SameIgnoringCase(s[i..i + |word|], word)
  }

  /** An upper-case word occurs in the upper-cased text exactly where the text holds that word
    * up to ASCII case. */
  lemma ContainsUpper(s: string, word: string)
    requires ToUpperAscii(word) == word
    ensures Contains(ToUpperAscii(s), word) <==> exists i :: OccursIgnoringCaseAt(s, word, i)
  {
    var u := ToUpperAscii(s);
    forall i | 0 <= i && i + |word| <= |s|
      ensures OccursAt(u, word, i) <==> OccursIgnoringCaseAt(s, word, i)
    {
      ToUpperAsciiSpec(s[i..i + |word|], word);
      assert ToUpperAscii(s[i..i + |word|]) == u[i..i + |word|];
    }
  }

  function UpperAscii(c: char): char {
    if 'a' <= c <= 'z' then (c as int - 32) as char else c
  }

  function LowerAscii(c: char): char {
    if 'A' <= c <= 'Z' then (c as int + 32) as char else c
  }

  /** String.contains. */
  predicate Contains(s: string, part: string) {
    exists i :: 0 <= i <= |s| && OccursAt(s, part, i)
  }

  /** `part` occurs in `s` starting at index `i`. */
  predicate OccursAt(s: string, part: string, i: int) {
    0 <= i && i + |part| <= |s| && s[i..i + |part|] == part
  }

  /** Collectors.joining(sep). */
  function Join(sep: string, parts: seq<string>): string {
    if parts == [] then ""
    else if |parts| == 1 then parts[0]
    else parts[0] + sep + Join(sep, parts[1..])
  }

  predicate IsDigit(c: char) { '0' <= c <= '9' }

  predicate AllDigits(s: string) { forall i :: 0 <= i < |s| ==> IsDigit(s[i]) }

  function DigitChar(d: nat): (c: char)
    requires d < 10
    ensures IsDigit(c)
  {
    ('0' as int + d) as char
  }

  /** The value of a string of decimal digits. */
  function DigitsValue(s: string): nat
    requires AllDigits(s)
  {
    if s == [] then 0 else DigitsValue(s[..|s| - 1]) * 10 + (s[|s| - 1] as int - '0' as int)
  }

  /** Decimal text of a natural number, without leading zeros. */
  function ShowNat(n: nat): (r: string)
    ensures r != [] && AllDigits(r)
  {
    if n < 10 then [DigitChar(n)] else ShowNat(n / 10) + [DigitChar(n % 10)]
  }

  /** String.valueOf(long): decimal text with a leading '-' for negatives. */
  function ShowInt(n: int): (r: string)
    ensures r != [] && (r[0] == '-' || IsDigit(r[0]))
  {
    if n < 0 then "-" + ShowNat(-n) else ShowNat(n)
  }

  /**
   * Long.parseLong over ASCII digits: an optional sign, at least one digit, and a
   * value inside the 64-bit range; anything else is a NumberFormatException (None).
   */
  function ParseLong(s: string): Option<int> {
    if s == [] then None
    else
      var negative := s[0] == '-';
      var digits := if s[0] == '-' || s[0] == '+' then s[1..] else s;
      if digits == [] || !AllDigits(digits) then None
      else
        var magnitude: int := DigitsValue(digits);
        var v := if negative then -magnitude else magnitude;
        if LONG_MIN <= v <= LONG_MAX then Some(v) else None
  }

  /** NumberUtils.toLong(str): the parsed value, or 0 when it does not parse. */
  function ToLongOrZero(s: string): int {
    ParseLong(s).GetOr(0)
  }

  /** Java's `/` on long: the quotient truncated toward zero, so the remainder is smaller than
    * the divisor and has the sign of the dividend. */
  function JavaDiv(a: int, b: int): (q: int)
    requires b > 0
    ensures var rem := a - q * b;
            && -b < rem < b
            && (a >= 0 ==> rem >= 0)
            && (a <= 0 ==> rem <= 0)
  {
    if a >= 0 then a / b
    else
      var q := -((-a) / b);
      assert a - q * b == -((-a) % b);
      q
  }

  lemma {:induction false} ShowNatValue(n: nat)
    ensures DigitsValue(ShowNat(n)) == n
  {
    if n >= 10 {
      var s := ShowNat(n);
      ShowNatValue(n / 10);
      assert s[..|s| - 1] == ShowNat(n / 10);
    }
  }

  /** Printing a long and parsing it back gives the same long. */
  lemma ParseShowInt(n: int)
    requires LONG_MIN <= n <= LONG_MAX
    ensures ParseLong(ShowInt(n)) == Some(n)
  {
    var t := ShowInt(n);
    if n < 0 {
      ShowNatValue(-n);
      assert t[0] == '-' && t[1..] == ShowNat(-n);
    } else {
      ShowNatValue(n);
      assert IsDigit(t[0]);
    }
  }
}
