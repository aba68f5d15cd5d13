/**
 Numbers as they are printed, and what digit strings denote.

 Every number has one print, without zeros in front. The value of a digit string is the number it is the print of, any
 zeros in front aside, and every digit string is zeros and a print. A scanner that stops at the first character that is
 no digit therefore reads a printed number back whatever text comes after it. This is the form in which versions, names
 of saves and names of sections speak of numbers.
 */
module DecimalText {
  import opened Ascii
  import opened Decimal

  /** strconv.Itoa */
  function Printed(n: nat): string {
    if n < 10 then [('0' as int + n) as char] else Printed(n / 10) + [('0' as int + n % 10) as char]
  }

  function Zeros(z: nat): string {
    seq(z, i => '0')
  }

  lemma {:induction false} ValueSnoc(s: string, c: char, i: nat)
    requires AllDigits(s) && IsDigit(c) && i <= |s|
    ensures AllDigits(s + [c]) && Value(s + [c], i) == 10 * Value(s, i) + Digit(c)
    decreases |s| - i
  {
    var t := s + [c];
    if i < |s| {
      ValueSnoc(s, c, i + 1);
      TenTimes(Digit(s[i]), Pow10(|s| - i - 1), Value(s, i + 1));
      assert Pow10(|t| - i - 1) == 10 * Pow10(|s| - i - 1);
    } else {
      assert t[i] == c && Value(t, i + 1) == 0;
    }
  }

  lemma TenTimes(d: nat, p: nat, rest: nat)
    ensures d * (10 * p) + 10 * rest == 10 * (d * p + rest)
  {
  }

  /** A printed number has digits only, denotes the number and has no leading zero but its own. */
  lemma {:induction false} PrintedIs(n: nat)
    ensures AllDigits(Printed(n)) && Printed(n) != "" && Value(Printed(n), 0) == n
    ensures n > 0 ==> Printed(n)[0] != '0'
  {
    if n < 10 {
      var s := Printed(n);
      assert Value(s, 1) == 0 && Digit(s[0]) == n && Pow10(0) == 1;
    } else {
      PrintedIs(n / 10);
      ValueSnoc(Printed(n / 10), ('0' as int + n % 10) as char, 0);
    }
  }

  /** Leading zeros do not count. */
  lemma {:induction false} ZerosDoNotCount(z: nat, s: string)
    requires AllDigits(s)
    ensures AllDigits(Zeros(z) + s) && Value(Zeros(z) + s, 0) == Value(s, 0)
  {
    if z == 0 {
      assert Zeros(0) + s == s;
    } else {
      ZerosDoNotCount(z - 1, s);
      var t := Zeros(z - 1) + s;
      assert Zeros(z) + s == "0" + t;
      ValueShift("0", t, 0);
    }
  }

  /** Every string of digits is a number with zeros in front. */
  lemma {:induction false} DigitsArePrinted(d: string) returns (z: nat, n: nat)
    requires AllDigits(d) && d != ""
    ensures d == Zeros(z) + Printed(n)
  {
    var front, c := d[..|d| - 1], d[|d| - 1];
    if front == "" {
      z, n := 0, Digit(c);
      assert d == [c] && Printed(n) == [c];
    } else {
      var y, m := DigitsArePrinted(front);
      if m == 0 {
        z, n := y + 1, Digit(c);
        assert Zeros(z) == Zeros(y) + "0" && Printed(n) == [c];
      } else {
        z, n := y, 10 * m + Digit(c);
        assert Printed(n) == Printed(m) + [c];
        assert d == Zeros(y) + Printed(m) + [c] == Zeros(y) + (Printed(m) + [c]);
      }
    }
  }

  /** Where the digits of a printed number end, and what they denote. */
  lemma PrintedWithTail(z: nat, n: nat, tail: string)
    requires tail == "" || !('0' <= tail[0] <= '9')
    ensures var s := Zeros(z) + Printed(n) + tail;
      DigitsEnd(s, 0) == z + |Printed(n)| && s[..z + |Printed(n)|] == Zeros(z) + Printed(n)
    ensures AllDigits(Zeros(z) + Printed(n)) && Value(Zeros(z) + Printed(n), 0) == n
  {
    PrintedIs(n);
    ZerosDoNotCount(z, Printed(n));
    var digits := Zeros(z) + Printed(n);
    DigitsEndAt(digits, tail, 0);
  }

  lemma {:induction false} DigitsEndAt(digits: string, tail: string, i: nat)
    requires AllDigits(digits) && i <= |digits| && (tail == "" || !IsDigit(tail[0]))
    ensures DigitsEnd(digits + tail, i) == |digits|
    decreases |digits| - i
  {
    if i < |digits| {
      DigitsEndAt(digits, tail, i + 1);
    }
  }
}
