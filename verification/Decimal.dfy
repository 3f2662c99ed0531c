/** Decimal numbers as text: what `%i` and ll2string print and what atoi and strtol read back. */
module Decimal {
  predicate IsDigit(c: char) { '0' <= c <= '9' }

  function DigitChar(d: nat): (c: char)
    requires d < 10
    ensures IsDigit(c) && DigitValue(c) == d
  {
    ('0' as int + d) as char
  }

  function DigitValue(c: char): nat
    requires IsDigit(c)
  {
    c as int - '0' as int
  }

  function Digits(n: nat): (s: string)
    ensures 0 < |s| && forall i :: 0 <= i < |s| ==> IsDigit(s[i])
  {
    if n < 10 then [DigitChar(n)] else Digits(n / 10) + [DigitChar(n % 10)]
  }

  /** The digits at the start of `s`, read after those that made up `acc`. */
  function ReadDigits(s: string, acc: nat): nat {
    if s != [] && IsDigit(s[0]) then ReadDigits(s[1..], 10 * acc + DigitValue(s[0])) else acc
  }

  predicate IsSpace(c: char) { c == ' ' || '\t' <= c <= '\r' }

  function SkipSpaces(s: string): string {
    if s != [] && IsSpace(s[0]) then SkipSpaces(s[1..]) else s
  }

  /** The number at the start of `s`, before any clamping: blanks, a sign, digits; 0 when there is none. */
  function ReadNumber(s: string): int {
    var t := SkipSpaces(s);
    if t != [] && t[0] == '-' then var n: int := ReadDigits(t[1..], 0); -n
    else if t != [] && t[0] == '+' then ReadDigits(t[1..], 0)
    else ReadDigits(t, 0)
  }

  lemma {:induction false} ReadDigitsOf(n: nat, rest: string)
    ensures ReadDigits(Digits(n) + rest, 0) == ReadDigits(rest, n)
  {
    if n < 10 {
      assert (Digits(n) + rest)[1..] == rest;
    } else {
      var c := DigitChar(n % 10);
      assert Digits(n) + rest == Digits(n / 10) + ([c] + rest);
      ReadDigitsOf(n / 10, [c] + rest);
      assert ([c] + rest)[1..] == rest;
    }
  }

  /** Reading back what was printed, up to the first byte that is not a digit. */
  lemma ReadPrinted(n: nat, rest: string)
    requires rest == [] || !IsDigit(rest[0])
    ensures ReadNumber(Digits(n) + rest) == n
  {
    ReadDigitsOf(n, rest);
  }
}
