/**
 Unbounded decimal values of digit strings.

 The value of a digit string is a sum over its digits, each times a power of ten, from some position on. Zeros in front
 add nothing; without them a longer string has the larger value, and of two of one length the first digit where they
 differ decides. The largest int of the platform bounds what the conversions of the standard library read.
 */
module Decimal {
  import opened Ascii

  function Pow10(n: nat): (r: nat)
    ensures r >= 1
  {
    if n == 0 then 1 else 10 * Pow10(n - 1)
  }

  predicate AllDigits(s: string) {
    forall k | 0 <= k < |s| :: IsDigit(s[k])
  }

  /** The largest int of a 64-bit machine. */
  const MAX_INT := 0x7FFF_FFFF_FFFF_FFFF

  /** Past the digits from i on. */
  function DigitsEnd(s: string, i: nat): (j: nat)
    requires i <= |s|
    ensures i <= j <= |s| && AllDigits(s[i..j]) && (j < |s| ==> !IsDigit(s[j]))
    decreases |s| - i
  {
    if i < |s| && IsDigit(s[i]) then
      var j := DigitsEnd(s, i + 1);
      assert s[i..j] == [s[i]] + s[i + 1..j];
      j
    else i
  }

  function Digit(c: char): (d: nat)
    requires IsDigit(c)
    ensures d <= 9
  {
    c as int - '0' as int
  }

  /** The number the digits from i on denote. */
  function Value(s: string, i: nat): (v: nat)
    requires AllDigits(s) && i <= |s|
    ensures v < Pow10(|s| - i)
    decreases |s| - i
  {
    if i == |s| then 0
    else
      var d, p, rest := Digit(s[i]), Pow10(|s| - i - 1), Value(s, i + 1);
      MulStep(d, 10, p, rest, 0);
      d * p + rest
  }

  lemma MulStep(d: nat, e: nat, p: nat, x: nat, y: nat)
    requires d < e && x < p
    ensures d * p + x < e * p + y
  {
    assert (d + 1) * p <= e * p;
  }

  lemma {:induction false} Pow10Grows(m: nat, n: nat)
    requires m <= n
    ensures Pow10(m) <= Pow10(n)
  {
    if m < n {
      Pow10Grows(m, n - 1);
    }
  }

  lemma MulAtLeast(d: nat, p: nat)
    requires d >= 1
    ensures d * p >= p
  {
  }

  lemma LongerIsLarger(a: string, b: string)
    requires AllDigits(a) && AllDigits(b) && |a| < |b| && b[0] != '0'
    ensures Value(a, 0) < Value(b, 0)
  {
    Pow10Grows(|a|, |b| - 1);
    MulAtLeast(Digit(b[0]), Pow10(|b| - 1));
  }

  lemma {:induction false} ValueShift(p: string, s: string, i: nat)
    requires AllDigits(p + s) && AllDigits(s) && i <= |s|
    ensures Value(p + s, |p| + i) == Value(s, i)
    decreases |s| - i
  {
    if i < |s| {
      ValueShift(p, s, i + 1);
    }
  }

  /** strings.TrimLeft(s, "0") */
  function TrimZeros(s: string): (r: string)
    ensures |r| <= |s| && (r == "" || r[0] != '0')
    ensures AllDigits(s) ==> AllDigits(r)
  {
    if s != "" && s[0] == '0' then TrimZeros(s[1..]) else s
  }

  lemma {:induction false} TrimKeepsValue(s: string)
    requires AllDigits(s)
    ensures Value(TrimZeros(s), 0) == Value(s, 0)
  {
    if s != "" && s[0] == '0' {
      TrimKeepsValue(s[1..]);
      assert s == [s[0]] + s[1..];
      ValueShift([s[0]], s[1..], 0);
    }
  }
}
