/** Decimal numerals, as `{}` formats them and `parse` reads them. */
module Decimal {
  import opened Common

  function Digit(d: nat): (c: char)
    requires d < 10
    ensures IsDigit(c)
  {
    '0' + d as char
  }

  function DigitValue(c: char): (d: nat)
    requires IsDigit(c)
    ensures d < 10 && Digit(d) == c
  {
    (c - '0') as nat
  }

  predicate AllDigits(s: string) {
    forall i :: 0 <= i < |s| ==> IsDigit(s[i])
  }

  /** How a number is written. */
  function Dec(n: nat): (s: string)
    ensures s != "" && AllDigits(s)
  {
    if n < 10 then [Digit(n)] else Dec(n / 10) + [Digit(n % 10)]
  }

  /** How numbers are written: the usual ten digits, the last one last. */
  lemma DecWritten(n: nat)
    ensures n < 10 ==> Dec(n) == ["0123456789"[n]]
    ensures n >= 10 ==> Dec(n) == Dec(n / 10) + ["0123456789"[n % 10]]
  {
    DigitIs(n % 10);
    if n < 10 {
      DigitIs(n);
    }
  }

  lemma DigitIs(d: nat)
    requires d < 10
    ensures Digit(d) == "0123456789"[d]
  {
    assert "0123456789" == ['0', '1', '2', '3', '4', '5', '6', '7', '8', '9'];
  }

  /** The number a digit string denotes; leading zeros are allowed. */
  function Number(s: string): nat
    requires AllDigits(s)
  {
    if s == "" then 0 else Number(s[..|s| - 1]) * 10 + DigitValue(s[|s| - 1])
  }

  /** Writing a number and reading it back. */
  lemma {:induction false} NumberDec(n: nat)
    ensures Number(Dec(n)) == n
  {
    if n < 10 {
      assert Dec(n)[..0] == "";
    } else {
      NumberDec(n / 10);
      assert Dec(n)[..|Dec(n)| - 1] == Dec(n / 10);
    }
  }

  lemma DecInjective(m: nat, n: nat)
    ensures Dec(m) == Dec(n) <==> m == n
  {
    NumberDec(m);
    NumberDec(n);
  }

  function Pow10(k: nat): (p: nat)
    ensures p > 0
  {
    if k == 0 then 1 else 10 * Pow10(k - 1)
  }

  /** A number has at most k digits exactly when it is below 10^k. */
  lemma {:induction false} DecLength(n: nat, k: nat)
    requires k > 0
    ensures |Dec(n)| <= k <==> n < Pow10(k)
    decreases k
  {
    if n >= 10 && k > 1 {
      DecLength(n / 10, k - 1);
      assert n < 10 * Pow10(k - 1) <==> n / 10 < Pow10(k - 1);
    } else if k > 1 {
      PowGrows(k - 1);
    }
  }

  lemma {:induction false} PowGrows(k: nat)
    requires k > 0
    ensures Pow10(k) >= 10
  {
    if k > 1 {
      PowGrows(k - 1);
    }
  }

  /** Counting up never shortens the numeral. */
  lemma {:induction false} DecLengthMonotone(m: nat, n: nat)
    requires m <= n
    ensures |Dec(m)| <= |Dec(n)|
  {
    DecLength(n, |Dec(n)|);
    DecLength(m, |Dec(n)|);
  }

  /** `str::parse::<u16>`: an optional plus sign, then digits, within 16 bits. */
  function ParseU16(s: string): Option<nat> {
    var t := if s != "" && s[0] == '+' then s[1..] else s;
    if t != "" && AllDigits(t) && Number(t) < U16 then Some(Number(t)) else None
  }

  /** The positional value: every character counts its distance from '0' times a power of ten. */
  function Positional(s: string): nat
    requires forall i :: 0 <= i < |s| ==> '0' <= s[i] <= '9'
  {
    if s == "" then 0 else (s[0] - '0') as nat * Pow10(|s| - 1) + Positional(s[1..])
  }

  lemma TenTimes(a: nat, p: nat)
    ensures a * p * 10 == a * (10 * p)
  {
  }

  lemma {:induction false} PositionalLast(s: string)
    requires s != "" && forall i :: 0 <= i < |s| ==> '0' <= s[i] <= '9'
    ensures Positional(s) == Positional(s[..|s| - 1]) * 10 + (s[|s| - 1] - '0') as nat
  {
    var n := |s| - 1;
    if n == 0 {
      assert s[1..] == "" && s[..0] == "";
    } else {
      PositionalLast(s[1..]);
      assert s[1..][..n - 1] == s[..n][1..];
      TenTimes((s[0] - '0') as nat, Pow10(n - 1));
    }
  }

  lemma {:induction false} NumberIsPositional(s: string)
    requires AllDigits(s)
    ensures Number(s) == Positional(s)
  {
    if s != "" {
      NumberIsPositional(s[..|s| - 1]);
      PositionalLast(s);
    }
  }

  /** The text behind an optional plus sign. */
  function Unsigned(s: string): string {
    if s != "" && s[0] == '+' then s[1..] else s
  }

  /** A non-empty row of digits; leading zeros are allowed. */
  predicate IsNumeral(t: string) {
    t != "" && forall i :: 0 <= i < |t| ==> '0' <= t[i] <= '9'
  }

  /** A text that denotes a port: a numeral below 65536. */
  predicate IsPort(s: string) {
    IsNumeral(Unsigned(s)) && Positional(Unsigned(s)) < 65536
  }

  lemma NumeralIsNumber(t: string)
    ensures IsNumeral(t) <==> t != "" && AllDigits(t)
    ensures IsNumeral(t) ==> Number(t) == Positional(t)
  {
    if AllDigits(t) {
      NumberIsPositional(t);
    } else {
      var i :| 0 <= i < |t| && !IsDigit(t[i]);
      assert !('0' <= t[i] <= '9');
    }
  }

  /** Exactly these texts are read as a port, each as its positional value. */
  lemma ParseU16Exactly(s: string)
    ensures ParseU16(s) == if IsPort(s) then Some(Positional(Unsigned(s))) else None
  {
    NumeralIsNumber(Unsigned(s));
  }

  lemma ParseU16Dec(n: nat)
    requires n < U16
    ensures ParseU16(Dec(n)) == Some(n)
  {
    NumberDec(n);
    assert IsDigit(Dec(n)[0]);
  }
}
