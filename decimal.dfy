/**
 * Decimal digit strings: the integer `toString()` and `padStart(2, '0')` used to
 * format the countdown, and the digit values used to parse typed amounts.
 */
module Decimal {

  predicate IsDigit(ch: char) {
    '0' <= ch <= '9'
  }

  predicate AllDigits(s: string) {
    forall i :: 0 <= i < |s| ==> IsDigit(s[i])
  }

  function DigitValue(ch: char): (d: nat)
    requires IsDigit(ch)
    ensures d < 10
  {
    ch as int - '0' as int
  }

  function DigitChar(d: nat): (ch: char)
    requires d < 10
    ensures IsDigit(ch) && DigitValue(ch) == d
  {
    ('0' as int + d) as char
  }

  /** The number a string of decimal digits denotes, most significant digit first. */
  function DigitsValue(s: string): nat
    requires AllDigits(s)
  {
    if s == [] then 0 else DigitsValue(s[..|s| - 1]) * 10 + DigitValue(s[|s| - 1])
  }

  /** Some digit of `s` is not `0`. */
  predicate HasNonzeroDigit(s: string) {
    exists i :: 0 <= i < |s| && s[i] != '0'
  }

  /** A digit string denotes a positive number exactly when one of its digits is not `0`. */
  lemma {:induction false} DigitsPositive(s: string)
    requires AllDigits(s)
    ensures DigitsValue(s) > 0 <==> HasNonzeroDigit(s)
  {
    if s != [] {
      var init := s[..|s| - 1];
      DigitsPositive(init);
      if HasNonzeroDigit(init) {
        var i :| 0 <= i < |init| && init[i] != '0';
        assert s[i] != '0';
      }
      if HasNonzeroDigit(s) && s[|s| - 1] == '0' {
        var i :| 0 <= i < |s| && s[i] != '0';
        assert init[i] != '0';
      }
    }
  }

  /** `n.toString()` for a non-negative integer: its shortest decimal digit string. */
  function NatToString(n: nat): (s: string)
    ensures AllDigits(s) && 1 <= |s|
    ensures n < 10 <==> |s| == 1
  {
    if n < 10 then [DigitChar(n)] else NatToString(n / 10) + [DigitChar(n % 10)]
  }

  /** The digit string denotes the number it was made from, without leading zeros. */
  lemma {:induction false} NatToStringValue(n: nat)
    ensures DigitsValue(NatToString(n)) == n
    ensures |NatToString(n)| > 1 ==> NatToString(n)[0] != '0'
  {
    if n >= 10 {
      NatToStringValue(n / 10);
      var prefix := NatToString(n / 10);
      var s := NatToString(n);
      assert s[..|s| - 1] == prefix;
      assert s[0] == prefix[0];
      if |prefix| == 1 {
        assert n / 10 > 0;
        assert prefix == [DigitChar(n / 10)];
      }
    }
  }

  /** `s.padStart(width, fill)` for a one-character fill: `fill` repeated in front of `s` up to `width`. */
  function PadStart(s: string, width: nat, fill: char): string {
    if |s| >= width then s else seq(width - |s|, _ => fill) + s
  }

  /** `n.toString().padStart(2, '0')`. */
  function TwoDigits(n: nat): string {
    PadStart(NatToString(n), 2, '0')
  }

  /**
   * For any `n` the padded string is a digit string that reads back as `n`: two
   * characters exactly below 100, longer (unpadded, so no leading zero) from 10 on.
   */
  lemma {:induction false} PaddedValue(n: nat)
    ensures var t := TwoDigits(n);
      && AllDigits(t) && DigitsValue(t) == n
      && |t| >= 2 && (|t| == 2 <==> n < 100)
      && (n >= 10 ==> t[0] != '0')
  {
    var s := NatToString(n);
    NatToStringValue(n);
    if n < 10 {
      TwoDigitsOf(n);
      var t := TwoDigits(n);
      assert t[..1] == [DigitChar(0)];
      assert t[..1][..0] == [];
    } else {
      assert TwoDigits(n) == s;
      if n >= 100 {
        assert s == NatToString(n / 10) + [DigitChar(n % 10)];
      }
    }
  }

  lemma {:induction false} TwoDigitsLength(n: nat)
    requires n < 100
    ensures |TwoDigits(n)| == 2
  {
    TwoDigitsOf(n);
  }

  /** Below 100 the padded string is two digits whose values make up `n`. */
  lemma {:induction false} TwoDigitsValue(n: nat)
    requires n < 100
    ensures var t := TwoDigits(n);
      |t| == 2 && AllDigits(t) && DigitValue(t[0]) * 10 + DigitValue(t[1]) == n
  {
    TwoDigitsOf(n);
  }

  /** Below 100 the padded string is exactly the tens digit then the units digit. */
  lemma {:induction false} TwoDigitsOf(n: nat)
    requires n < 100
    ensures TwoDigits(n) == [DigitChar(n / 10), DigitChar(n % 10)]
    ensures AllDigits(TwoDigits(n))
  {
    var s := NatToString(n);
    if n < 10 {
      assert s == [DigitChar(n)];
      assert TwoDigits(n) == PadStart(['0'] + s, 2, '0');
    } else {
      assert NatToString(n / 10) == [DigitChar(n / 10)];
      assert s == [DigitChar(n / 10), DigitChar(n % 10)];
    }
    var t := TwoDigits(n);
    assert t[..1] == [DigitChar(n / 10)];
  }
}
