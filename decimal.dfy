/** Decimal digit strings and the numbers they stand for: `String(id)` on a Telegram
    user id, and `Number(s)` on a digit-only amount. */
module Decimal {
  import opened Text

  function DigitValue(c: char): (d: nat)
    requires IsDigit(c)
    ensures d < 10
  {
    c as int - '0' as int
  }

  function DigitChar(d: nat): (c: char)
    requires d < 10
    ensures IsDigit(c) && DigitValue(c) == d
  {
    ('0' as int + d) as char
  }

  /** The value of a string of decimal digits, leading zeros allowed ("007" is 7). */
  function DigitsValue(s: string): nat
    requires AllDigits(s)
    decreases |s|
  {
    if s == [] then 0 else 10 * DigitsValue(s[..|s| - 1]) + DigitValue(s[|s| - 1])
  }

  /** A digit string in the form `String(n)` writes: no leading zero unless it is "0". */
  predicate IsCanonical(s: string) {
    IsDigits(s) && (s[0] == '0' ==> |s| == 1)
  }

  /** `String(n)` for a non-negative integer: its decimal digits, most significant first. */
  function DecimalString(n: nat): (r: string)
    ensures IsCanonical(r)
    decreases n
  {
    if n < 10 then [DigitChar(n)]
    else
      var r := DecimalString(n / 10) + [DigitChar(n % 10)];
      assert r[0] == DecimalString(n / 10)[0];
      r
  }

  /** Reading back what `DecimalString` wrote gives the number. */
  lemma {:induction false} ValueOfDecimalString(n: nat)
    ensures DigitsValue(DecimalString(n)) == n
    decreases n
  {
    if n >= 10 {
      var r := DecimalString(n);
      ValueOfDecimalString(n / 10);
      assert r[..|r| - 1] == DecimalString(n / 10);
    }
  }

  lemma {:induction false} CanonicalIsPositive(s: string)
    requires IsCanonical(s) && s[0] != '0'
    ensures DigitsValue(s) >= 1
    decreases |s|
  {
    if |s| > 1 {
      var p := s[..|s| - 1];
      assert p[0] == s[0];
      CanonicalIsPositive(p);
    } else {
      assert DigitValue(s[0]) >= 1;
    }
  }

  /** Every canonical digit string is what `DecimalString` writes for its value. */
  lemma {:induction false} DecimalStringOfValue(s: string)
    requires IsCanonical(s)
    ensures DecimalString(DigitsValue(s)) == s
    decreases |s|
  {
    var d := DigitValue(s[|s| - 1]);
    if |s| == 1 {
      assert DigitsValue(s) == d;
      assert DigitChar(d) == s[0];
    } else {
      var p := s[..|s| - 1];
      assert p[0] == s[0];
      DecimalStringOfValue(p);
      CanonicalIsPositive(p);
      var v := DigitsValue(s);
      assert v / 10 == DigitsValue(p) && v % 10 == d;
      assert DigitChar(d) == s[|s| - 1];
      assert s == p + [s[|s| - 1]];
    }
  }

  /** Two ids are written alike only when they are the same id. */
  lemma DecimalStringInjective(a: nat, b: nat)
    requires DecimalString(a) == DecimalString(b)
    ensures a == b
  {
    ValueOfDecimalString(a);
    ValueOfDecimalString(b);
  }

  /** The strings of the form `String(n)` are exactly the canonical digit strings, and
      `String(n)` is `s` exactly when `s` is canonical with value `n`. */
  lemma DecimalStringIff(s: string, n: nat)
    ensures DecimalString(n) == s <==> IsCanonical(s) && DigitsValue(s) == n
  {
    if DecimalString(n) == s {
      ValueOfDecimalString(n);
    }
    if IsCanonical(s) && DigitsValue(s) == n {
      DecimalStringOfValue(s);
    }
  }
}
