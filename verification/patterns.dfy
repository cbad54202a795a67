/**
 * The two regular expressions the create forms test against, each as a left-to-right
 * recogniser together with a declarative description of the language it accepts.
 */
module Patterns {
  import opened JsText

  /** One character of the class `[a-zA-Z\s\d]`. */
  predicate IsNameChar(c: char) {
    IsAsciiLetter(c) || IsWhitespace(c) || IsAsciiDigit(c)
  }

  /** The language of `/^[a-zA-Z\s\d]*$/`. */
  ghost predicate NameCharsOnly(s: string) {
    forall i :: 0 <= i < |s| ==> IsNameChar(s[i])
  }

  /** Tests `/^[a-zA-Z\s\d]*$/` one character at a time. */
  function MatchesNamePattern(s: string): (ok: bool)
    ensures ok <==> NameCharsOnly(s)
  {
    |s| == 0 || (IsNameChar(s[0]) && MatchesNamePattern(s[1..]))
  }

  /** The language of `\d+`. */
  ghost predicate IsDigits(s: string) {
    |s| > 0 && forall i :: 0 <= i < |s| ==> IsAsciiDigit(s[i])
  }

  /** The language of `/^(\d+(\.\d{1,2})?)$/`: an integer part, then optionally a point
      followed by one or two digits. */
  ghost predicate IsPriceLiteral(s: string) {
    || IsDigits(s)
    || exists p :: 0 < p < |s| && s[p] == '.' && IsDigits(s[..p]) && IsDigits(s[p + 1..]) && |s| - p <= 3
  }

  /** Length of the longest run of digits at the start of `s` (a greedy `\d*`). */
  function DigitPrefixLength(s: string): (k: nat)
    ensures k <= |s|
    ensures forall i :: 0 <= i < k ==> IsAsciiDigit(s[i])
    ensures k < |s| ==> !IsAsciiDigit(s[k])
  {
    if |s| > 0 && IsAsciiDigit(s[0]) then 1 + DigitPrefixLength(s[1..]) else 0
  }

  /** Tests `/^(\d+(\.\d{1,2})?)$/`: greedy integer digits, then either the end or a point
      followed by a digit run that reaches the end and has length one or two. */
  function MatchesPricePattern(s: string): bool {
    var k := DigitPrefixLength(s);
    && k > 0
    && (k == |s|
        || (s[k] == '.' && 2 <= |s| - k <= 3 && DigitPrefixLength(s[k + 1..]) == |s| - k - 1))
  }

  /** The recogniser accepts exactly the price language. */
  lemma MatchesPricePatternIff(s: string)
    ensures MatchesPricePattern(s) <==> IsPriceLiteral(s)
  {
    var k := DigitPrefixLength(s);
    if MatchesPricePattern(s) {
      if k < |s| {
        assert s[..k] == s[..k];
        var f := s[k + 1..];
        assert forall i :: 0 <= i < |f| ==> IsAsciiDigit(f[i]);
        assert IsDigits(s[..k]) && IsDigits(s[k + 1..]);
      }
    }
    if IsPriceLiteral(s) {
      if IsDigits(s) {
        assert k == |s|;
      } else {
        var p :| 0 < p < |s| && s[p] == '.' && IsDigits(s[..p]) && IsDigits(s[p + 1..]) && |s| - p <= 3;
        assert forall i :: 0 <= i < p ==> IsAsciiDigit(s[..p][i]);
        assert k == p;
        var f := s[p + 1..];
        assert DigitPrefixLength(f) == |f|;
      }
    }
  }

  /** Sample prices: whole numbers and one or two decimals pass; a third decimal, a bare
      point, a missing integer part and a sign do not. */
  lemma PriceExamples()
    ensures IsPriceLiteral("5") && IsPriceLiteral("12.34") && IsPriceLiteral("0.5")
    ensures !IsPriceLiteral("12.345") && !IsPriceLiteral("5.") && !IsPriceLiteral(".5")
    ensures !IsPriceLiteral("-1") && !IsPriceLiteral("")
  {
    MatchesPricePatternIff("5");
    MatchesPricePatternIff("12.34");
    MatchesPricePatternIff("0.5");
    MatchesPricePatternIff("12.345");
    MatchesPricePatternIff("5.");
    MatchesPricePatternIff(".5");
    MatchesPricePatternIff("-1");
    MatchesPricePatternIff("");
  }
}
