/** Decimal numbers as `snprintf` prints them, and as a receiver reads them back. */
module Decimals {
  import opened Bytes

  predicate IsDigit(c: byte) {
    '0' <= c <= '9'
  }

  function Digit(d: nat): (c: byte)
    requires d < 10
    ensures IsDigit(c) && c as int - '0' as int == d
  {
    ('0' as int + d) as char
  }

  function Decimal(n: nat): (s: bytes)
    ensures s != [] && forall i :: 0 <= i < |s| ==> IsDigit(s[i])
  {
    if n < 10 then [Digit(n)] else Decimal(n / 10) + [Digit(n % 10)]
  }

  /** The value of a non-empty string of digits. */
  function ParseDecimal(s: bytes): Option<nat> {
    if s == [] || !IsDigit(s[|s| - 1]) then None
    else
      var d := s[|s| - 1] as int - '0' as int;
      if |s| == 1 then Some(d)
      else
        var high := ParseDecimal(s[..|s| - 1]);
        if high == None then None else Some(10 * high.value + d)
  }

  lemma {:induction false} ParseOfPrinted(n: nat)
    ensures ParseDecimal(Decimal(n)) == Some(n)
  {
    if n >= 10 {
      ParseOfPrinted(n / 10);
      var s := Decimal(n);
      assert s[..|s| - 1] == Decimal(n / 10);
    }
  }

  lemma {:induction false} OnlyDigitsParse(s: bytes, i: nat)
    requires i < |s| && !IsDigit(s[i])
    ensures ParseDecimal(s) == None
  {
    if i < |s| - 1 {
      OnlyDigitsParse(s[..|s| - 1], i);
    }
  }

  function Pow10(k: nat): (p: nat)
    ensures p > 0
  {
    if k == 0 then 1 else 10 * Pow10(k - 1)
  }

  lemma {:induction false} DecimalLength(n: nat, k: nat)
    requires k > 0
    ensures |Decimal(n)| <= k <==> n < Pow10(k)
  {
    if k == 1 {
      assert Pow10(1) == 10 * Pow10(0);
    } else if n >= 10 {
      DecimalLength(n / 10, k - 1);
      assert Pow10(k) == 10 * Pow10(k - 1);
    } else {
      DecimalLength(n, k - 1);
      assert Pow10(k) == 10 * Pow10(k - 1);
    }
  }

  /** Thirteen digits are the most that fit the length line's buffer. */
  lemma ThirteenDigits(n: nat)
    ensures |Decimal(n)| <= 13 <==> n < 10_000_000_000_000
  {
    DecimalLength(n, 13);
    assert Pow10(13) == 10_000_000_000_000;
  }
}
