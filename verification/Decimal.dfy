/** Decimal numbers as text, and the parsing of 64-bit ones. */
module Decimal {
  import opened Basics

  const U64_MAX: nat := 0xFFFF_FFFF_FFFF_FFFF
  const DIGITS: string := "0123456789"

  predicate IsDigit(c: char) {
    '0' <= c <= '9'
  }

  predicate IsDigits(s: string) {
    s != [] && forall i :: 0 <= i < |s| ==> IsDigit(s[i])
  }

  function DigitValue(c: char): nat
    requires IsDigit(c)
  {
    c as int - '0' as int
  }

  /** The number that digits stand for. */
  function Value(s: string): nat
    requires forall i :: 0 <= i < |s| ==> IsDigit(s[i])
  {
    if s == [] then 0 else Value(s[..|s| - 1]) * 10 + DigitValue(s[|s| - 1])
  }

  /** A number in decimal notation. */
  function Digits(n: nat): (s: string)
    ensures IsDigits(s) && Value(s) == n
  {
    if n < 10 then
      assert DIGITS[n..n + 1][..0] == [];
      [DIGITS[n]]
    else
      var init := Digits(n / 10);
      assert (init + [DIGITS[n % 10]])[..|init|] == init;
      init + [DIGITS[n % 10]]
  }

  /** The same with at least two digits. */
  function TwoDigits(n: nat): (s: string)
    ensures IsDigits(s) && Value(s) == n
  {
    if n < 10 then ZeroInFront(Digits(n)); "0" + Digits(n) else Digits(n)
  }

  lemma {:induction false} ZeroInFront(s: string)
    requires forall i :: 0 <= i < |s| ==> IsDigit(s[i])
    ensures forall i :: 0 <= i < |"0" + s| ==> IsDigit(("0" + s)[i])
    ensures Value("0" + s) == Value(s)
  {
    if s != [] {
      ZeroInFront(s[..|s| - 1]);
      assert ("0" + s)[..|s|] == "0" + s[..|s| - 1];
    } else {
      assert "0" + s == "0" && "0"[..0] == [];
    }
  }

  /** An unsigned 64-bit number: digits, after an optional plus sign, that do not exceed the range. */
  function ParseU64(s: string): Option<nat> {
    var t := if s != [] && s[0] == '+' then s[1..] else s;
    if IsDigits(t) && Value(t) <= U64_MAX then Some(Value(t)) else None
  }

  lemma ParsesBack(n: nat)
    requires n <= U64_MAX
    ensures ParseU64(Digits(n)) == Some(n)
  {
    assert IsDigit(Digits(n)[0]);
  }

  /** What parses consists of digits and plus signs only. */
  lemma ParsedIsNumeric(s: string)
    requires ParseU64(s).Some?
    ensures forall i :: 0 <= i < |s| ==> IsDigit(s[i]) || s[i] == '+'
  {
    if s[0] == '+' {
      assert forall i :: 1 <= i < |s| ==> s[i] == s[1..][i - 1];
    }
  }

  /** No number but zero starts with a zero. */
  lemma {:induction false} NoLeadingZero(n: nat)
    requires n > 0
    ensures Digits(n)[0] != '0'
  {
    if n >= 10 {
      NoLeadingZero(n / 10);
    }
  }
}
