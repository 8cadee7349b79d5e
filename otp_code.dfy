/** The six-character codes `String(Math.floor(100000 + Math.random() * 900000))`
    produces, for the integer draw `n` that the expression rounds to. */
module OtpCode {

  /** The smallest and largest draw the expression can yield. */
  const Lowest: nat := 100000
  const Highest: nat := 999999

  const Length: nat := 6

  predicate IsDigit(c: char)
  {
    '0' <= c <= '9'
  }

  predicate IsDecimal(s: string)
  {
    forall i :: 0 <= i < |s| ==> IsDigit(s[i])
  }

  function DigitChar(d: nat): (c: char)
    requires d < 10
    ensures IsDigit(c)
  {
    (('0' as int) + d) as char
  }

  function DigitValue(c: char): (d: nat)
    requires IsDigit(c)
    ensures d < 10 && DigitChar(d) == c
  {
    (c as int) - ('0' as int)
  }

  function Pow10(k: nat): (p: nat)
    ensures p >= 1
  {
    if k == 0 then 1 else 10 * Pow10(k - 1)
  }

  /** `String(n)` for a non-negative integer: its decimal digits, most significant first. */
  function DecimalString(n: nat): (s: string)
    ensures |s| >= 1 && IsDecimal(s)
    decreases n
  {
    if n < 10 then [DigitChar(n)] else DecimalString(n / 10) + [DigitChar(n % 10)]
  }

  /** The number a string of decimal digits denotes. */
  function DecimalValue(s: string): nat
    requires IsDecimal(s)
    decreases |s|
  {
    if s == [] then 0 else DecimalValue(s[..|s| - 1]) * 10 + DigitValue(s[|s| - 1])
  }

  lemma {:induction false} DecimalRoundTrip(n: nat)
    ensures DecimalValue(DecimalString(n)) == n
    decreases n
  {
    var s := DecimalString(n);
    if n >= 10 {
      assert s[..|s| - 1] == DecimalString(n / 10);
      DecimalRoundTrip(n / 10);
    } else {
      assert s[..|s| - 1] == [];
    }
  }

  lemma {:induction false} DecimalLength(n: nat, k: nat)
    requires Pow10(k) <= n < Pow10(k + 1)
    ensures |DecimalString(n)| == k + 1
  {
    if k > 0 {
      DecimalLength(n / 10, k - 1);
    }
  }

  lemma {:induction false} DecimalLeadingDigit(n: nat)
    requires n > 0
    ensures DecimalString(n)[0] != '0'
    decreases n
  {
    if n >= 10 {
      DecimalLeadingDigit(n / 10);
    }
  }

  /** A digit string without a leading zero is the decimal form of its value,
      and its value lies between the powers of ten its length allows. */
  lemma {:induction false} DecimalValueInverse(s: string)
    requires |s| >= 1 && IsDecimal(s) && s[0] != '0'
    ensures Pow10(|s| - 1) <= DecimalValue(s) < Pow10(|s|)
    ensures DecimalString(DecimalValue(s)) == s
    decreases |s|
  {
    var init, last := s[..|s| - 1], s[|s| - 1];
    if |s| == 1 {
      assert init == [];
      assert s == [last];
    } else {
      DecimalValueInverse(init);
      var v := DecimalValue(s);
      assert v == DecimalValue(init) * 10 + DigitValue(last);
      assert v / 10 == DecimalValue(init) && v % 10 == DigitValue(last);
      assert s == init + [last];
    }
  }

  /** The code stored for the draw `n`: six decimal digits, never a leading zero. */
  function Generate(n: nat): (code: string)
    requires Lowest <= n <= Highest
    ensures |code| == Length && IsDecimal(code) && code[0] != '0'
    ensures DecimalValue(code) == n
  {
    DecimalLength(n, 5);
    DecimalLeadingDigit(n);
    DecimalRoundTrip(n);
    DecimalString(n)
  }

  /** The shape of every code `Generate` can produce. */
  predicate IsGenerated(code: string)
  {
    |code| == Length && IsDecimal(code) && code[0] != '0'
  }

  /** Distinct draws give distinct codes, so a new code never equals the one it replaces
      unless the draw repeats. */
  lemma GenerateInjective(n: nat, m: nat)
    requires Lowest <= n <= Highest && Lowest <= m <= Highest
    ensures Generate(n) == Generate(m) <==> n == m
  {
  }

  /** The codes are exactly the six-digit strings without a leading zero:
      every such string is the code of exactly one draw, `"000000"` to `"099999"` of none. */
  lemma {:induction false} GenerateCovers(code: string)
    requires IsGenerated(code)
    ensures Lowest <= DecimalValue(code) <= Highest
    ensures Generate(DecimalValue(code)) == code
  {
    DecimalValueInverse(code);
    assert Pow10(5) == Lowest && Pow10(6) == Highest + 1;
  }
}
