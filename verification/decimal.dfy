/** Decimal digit strings: the `\d` of the symbol grammar, `parseInt(_, 10)`
    on a run of digits, `String(n)` for integers and `padStart(2, '0')`. */
module Decimal {

  predicate IsDigit(c: char) {
    '0' <= c <= '9'
  }

  predicate AllDigits(s: string) {
    forall i :: 0 <= i < |s| ==> IsDigit(s[i])
  }

  function DigitValue(c: char): (v: nat)
    requires IsDigit(c)
    ensures v <= 9
  {
    c as int - '0' as int
  }

  function DigitChar(v: nat): (c: char)
    requires v <= 9
    ensures IsDigit(c) && DigitValue(c) == v
  {
    ('0' as int + v) as char
  }

  function Pow10(n: nat): (p: nat)
    ensures p >= 1
  {
    if n == 0 then 1 else 10 * Pow10(n - 1)
  }

  /** `parseInt(ds, 10)` for a non-empty run of decimal digits (leading zeros allowed);
      the empty run is given the value 0. */
  function DigitsValue(ds: string): nat
    requires AllDigits(ds)
  {
    if ds == [] then 0 else 10 * DigitsValue(ds[..|ds| - 1]) + DigitValue(ds[|ds| - 1])
  }

  /** A run of `n` digits never denotes more than `n` nines. */
  lemma {:induction false} DigitsValueBound(ds: string)
    requires AllDigits(ds)
    ensures DigitsValue(ds) < Pow10(|ds|)
  {
    if ds != [] {
      DigitsValueBound(ds[..|ds| - 1]);
    }
  }

  /** The value of `ds` followed by one more digit. */
  lemma DigitsValueSnoc(ds: string, c: char)
    requires AllDigits(ds) && IsDigit(c)
    ensures AllDigits(ds + [c])
    ensures DigitsValue(ds + [c]) == 10 * DigitsValue(ds) + DigitValue(c)
  {
    assert (ds + [c])[..|ds|] == ds;
  }

  /** `n` written with exactly `width` digits, zero-padded on the left (high digits dropped). */
  function DigitsOf(n: nat, width: nat): (s: string)
    ensures |s| == width && AllDigits(s)
  {
    if width == 0 then [] else DigitsOf(n / 10, width - 1) + [DigitChar(n % 10)]
  }

  /** Writing a number with enough digits and reading it back gives the number. */
  lemma {:induction false} DigitsOfValue(n: nat, width: nat)
    requires n < Pow10(width)
    ensures DigitsValue(DigitsOf(n, width)) == n
  {
    if width > 0 {
      DigitsOfValue(n / 10, width - 1);
      DigitsValueSnoc(DigitsOf(n / 10, width - 1), DigitChar(n % 10));
    }
  }

  /** Reading a digit run and writing it back with the same width gives the run. */
  lemma {:induction false} ValueDigitsOf(ds: string)
    requires AllDigits(ds)
    ensures DigitsOf(DigitsValue(ds), |ds|) == ds
  {
    if ds != [] {
      var init := ds[..|ds| - 1];
      ValueDigitsOf(init);
      var v := DigitsValue(ds);
      assert v / 10 == DigitsValue(init) && v % 10 == DigitValue(ds[|ds| - 1]);
      assert ds == init + [ds[|ds| - 1]];
    }
  }

  /** `String(n)` for a non-negative integer: no leading zeros, "0" for zero. */
  function NatString(n: nat): (s: string)
    ensures |s| >= 1 && AllDigits(s)
  {
    if n < 10 then [DigitChar(n)] else NatString(n / 10) + [DigitChar(n % 10)]
  }

  lemma {:induction false} NatStringValue(n: nat)
    ensures DigitsValue(NatString(n)) == n
  {
    if n >= 10 {
      NatStringValue(n / 10);
      DigitsValueSnoc(NatString(n / 10), DigitChar(n % 10));
    }
  }

  /** `String(n)` has exactly `k` characters when `n` has `k` significant digits. */
  lemma {:induction false} NatStringLength(n: nat, k: nat)
    requires (k >= 1 && Pow10(k - 1) <= n < Pow10(k)) || (k == 1 && n == 0)
    ensures |NatString(n)| == k
  {
    if n >= 10 {
      NatStringLength(n / 10, k - 1);
    }
  }

  /** `String(n).padStart(2, '0')` for `n < 100` is two digits that read back as `n`. */
  lemma PaddedField(n: nat)
    requires n < 100
    ensures var r := PadStart2(NatString(n)); |r| == 2 && AllDigits(r) && DigitsValue(r) == n
  {
    NatStringLength(n, if n < 10 then 1 else 2);
    NatStringValue(n);
    PadStart2Value(NatString(n));
  }

  /** `String(n)` for any integer, with a leading '-' for negatives. */
  function IntString(n: int): string {
    if n < 0 then "-" + NatString(-n) else NatString(n)
  }

  /** `s.padStart(2, '0')`. */
  function PadStart2(s: string): (r: string)
    ensures |s| >= 2 ==> r == s
    ensures |s| < 2 ==> |r| == 2 && r[2 - |s|..] == s && forall i :: 0 <= i < 2 - |s| ==> r[i] == '0'
  {
    if |s| >= 2 then s else if |s| == 1 then "0" + s else "00"
  }

  /** Padding a digit run with leading zeros does not change its value. */
  lemma PadStart2Value(s: string)
    requires AllDigits(s)
    ensures AllDigits(PadStart2(s)) && DigitsValue(PadStart2(s)) == DigitsValue(s)
  {
    if |s| == 1 {
      assert PadStart2(s) == ['0'] + s;
      DigitsValueSnoc(['0'], s[0]);
      assert ['0'] + s == ['0'] + [s[0]];
      assert DigitsValue(['0']) == 10 * DigitsValue([]) + DigitValue('0');
    } else if |s| == 0 {
      assert PadStart2(s) == "00";
      assert "00"[..1] == "0";
      assert DigitsValue("0") == 10 * DigitsValue([]) + DigitValue('0');
    }
  }
}
