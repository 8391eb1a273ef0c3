/** Character classes and two-digit numerals. The classes follow JavaScript
    regular expressions without the `u` flag: `\d` is the ten ASCII digits and
    `\w` the ASCII letters, digits and the underscore. */
module Text {

  predicate IsDigit(c: char) {
    '0' <= c <= '9'
  }

  predicate IsWordChar(c: char) {
    'a' <= c <= 'z' || 'A' <= c <= 'Z' || IsDigit(c) || c == '_'
  }

  /** `^\w+$`: one or more word characters and nothing else. */
  predicate IsWord(s: string) {
    |s| > 0 && forall i :: 0 <= i < |s| ==> IsWordChar(s[i])
  }

  /** Identifiers, underscores and mixed case are words; the empty string,
      spaces, hyphens, punctuation and a trailing newline are not. */
  lemma IsWordExamples()
    ensures IsWord("ATS0123") && IsWord("ats_01") && IsWord("A") && IsWord("_")
    ensures !IsWord("") && !IsWord("ATS 0123") && !IsWord("ATS-0123") && !IsWord("ATS0123\n") && !IsWord("%ATS")
  {
    assert ' ' == "ATS 0123"[3] && !IsWordChar(' ');
    assert '-' == "ATS-0123"[3] && !IsWordChar('-');
    assert '\n' == "ATS0123\n"[7] && !IsWordChar('\n');
    assert '%' == "%ATS"[0] && !IsWordChar('%');
  }

  predicate AllDigits(s: string) {
    forall i :: 0 <= i < |s| ==> IsDigit(s[i])
  }

  function DigitValue(c: char): (d: nat)
    requires IsDigit(c)
    ensures d < 10
  {
    c as int - '0' as int
  }

  function DigitChar(d: nat): (c: char)
    requires d < 10
    ensures IsDigit(c) && DigitValue(c) == d
  {
    ('0' as int + d) as char
  }

  /** ASCII lower-casing; every other character is left as it is. */
  function ToLower(c: char): char {
    if 'A' <= c <= 'Z' then (c as int - 'A' as int + 'a' as int) as char else c
  }

  function Lower(s: string): string {
    seq(|s|, i requires 0 <= i < |s| => ToLower(s[i]))
  }

  /** The value of the two-digit numeral `ab`. */
  function TwoDigits(a: char, b: char): (v: nat)
    requires IsDigit(a) && IsDigit(b)
    ensures v < 100
  {
    10 * DigitValue(a) + DigitValue(b)
  }

  lemma DigitCharOfValue(c: char)
    requires IsDigit(c)
    ensures DigitChar(DigitValue(c)) == c
  {
  }

  /** The two-digit numeral of `n`, zero-padded. */
  function Pair(n: nat): (s: string)
    requires n < 100
    ensures |s| == 2 && IsDigit(s[0]) && IsDigit(s[1]) && TwoDigits(s[0], s[1]) == n
  {
    [DigitChar(n / 10), DigitChar(n % 10)]
  }

  lemma PairOfDigits(a: char, b: char)
    requires IsDigit(a) && IsDigit(b)
    ensures Pair(TwoDigits(a, b)) == [a, b]
  {
    var n := TwoDigits(a, b);
    assert n / 10 == DigitValue(a) && n % 10 == DigitValue(b);
    DigitCharOfValue(a);
    DigitCharOfValue(b);
  }
}
