/**
 * The decimal text that sprintf writes into regVal for the integer formats
 * of readRegVal (jkcmd.c:344-361): the digits of the value, most significant
 * first and without leading zeros, after a '-' when a signed value is
 * negative. The text is ASCII and never contains a zero byte, so the C
 * string left in regVal is exactly this text.
 */
module Decimal {

  /** ASCII '0'. */
  const ZeroDigit: nat := 0x30

  /** ASCII '-'. */
  const MinusSign: bv8 := 0x2D

  /** 10^k. */
  function Pow10(k: nat): (p: nat)
    ensures p >= 1
  {
    if k == 0 then 1 else 10 * Pow10(k - 1)
  }

  /** An ASCII decimal digit. */
  predicate IsDigit(c: bv8) {
    ZeroDigit <= c as nat < ZeroDigit + 10
  }

  /** All bytes of s are digits. */
  predicate AllDigits(s: seq<bv8>) {
    forall k :: 0 <= k < |s| ==> IsDigit(s[k])
  }

  /** The digit for d < 10. */
  function DigitChar(d: nat): (c: bv8)
    requires d < 10
    ensures IsDigit(c) && c as nat - ZeroDigit == d
  {
    (ZeroDigit + d) as bv8
  }

  /** The text of n as "%u" prints it. */
  function Digits(n: nat): (r: seq<bv8>)
    ensures 1 <= |r| && AllDigits(r)
    decreases n
  {
    if n < 10 then [DigitChar(n)] else Digits(n / 10) + [DigitChar(n % 10)]
  }

  /** The text of i as "%d" prints it. */
  function SignedDigits(i: int): (r: seq<bv8>)
    ensures 1 <= |r|
  {
    if i < 0 then [MinusSign] + Digits(-i) else Digits(i)
  }

  /** The number a string of digits denotes, as a reader of the text would take it. */
  function DigitsValue(s: seq<bv8>): nat
    requires AllDigits(s)
  {
    if s == [] then 0 else 10 * DigitsValue(s[..|s| - 1]) + (s[|s| - 1] as nat - ZeroDigit)
  }

  /** The number a possibly signed decimal text denotes. */
  function SignedValue(s: seq<bv8>): int
    requires s != [] && (if s[0] == MinusSign then AllDigits(s[1..]) else AllDigits(s))
  {
    if s[0] == MinusSign then -(DigitsValue(s[1..]) as int) else DigitsValue(s)
  }

  /** The text has no leading zero: it is "0" or starts with 1-9. */
  predicate Canonical(s: seq<bv8>) {
    s != [] && (s[0] as nat == ZeroDigit ==> |s| == 1)
  }

  /** Reading back the printed digits gives the number printed. */
  lemma {:induction false} DigitsRoundTrip(n: nat)
    ensures DigitsValue(Digits(n)) == n
    decreases n
  {
    if n >= 10 {
      DigitsRoundTrip(n / 10);
      var r := Digits(n);
      assert r[..|r| - 1] == Digits(n / 10);
    }
  }

  /** The printed digits are canonical. */
  lemma {:induction false} DigitsCanonical(n: nat)
    ensures Canonical(Digits(n))
    ensures Digits(n)[0] as nat == ZeroDigit ==> n == 0
    decreases n
  {
    if n >= 10 {
      DigitsCanonical(n / 10);
      assert Digits(n)[0] == Digits(n / 10)[0];
    }
  }

  /** Reading back the printed signed text gives the number printed. */
  lemma SignedRoundTrip(i: int)
    ensures var r := SignedDigits(i);
      (if r[0] == MinusSign then AllDigits(r[1..]) else AllDigits(r)) && SignedValue(r) == i
  {
    var r := SignedDigits(i);
    if i < 0 {
      DigitsRoundTrip(-i);
      assert r[1..] == Digits(-i);
    } else {
      DigitsRoundTrip(i);
      assert r[0] != MinusSign;
    }
  }

  /** Neither text contains a zero byte, so it is read back whole as a C string. */
  lemma NoZeroByte(i: int)
    ensures forall k :: 0 <= k < |SignedDigits(i)| ==> SignedDigits(i)[k] != 0
    ensures i >= 0 ==> SignedDigits(i) == Digits(i)
  {
    var r := SignedDigits(i);
    if i < 0 {
      forall k | 0 <= k < |r|
        ensures r[k] != 0
      {
        if k > 0 {
          assert r[k] == Digits(-i)[k - 1];
        }
      }
    }
  }

  /** A number below 10^k prints in at most k digits. */
  lemma {:induction false} DigitsLength(n: nat, k: nat)
    requires 1 <= k && n < Pow10(k)
    ensures |Digits(n)| <= k
    decreases k
  {
    if n >= 10 {
      DigitsLength(n / 10, k - 1);
    }
  }

  /** A 32-bit value prints in at most 10 digits, 11 with the sign. */
  lemma Digits32(i: int)
    requires -0x1_0000_0000 < i < 0x1_0000_0000
    ensures |SignedDigits(i)| <= 11
    ensures i >= 0 ==> |Digits(i)| <= 10
  {
    assert Pow10(10) == 10000000000;
    if i < 0 {
      DigitsLength(-i, 10);
    } else {
      DigitsLength(i, 10);
    }
  }

  /** Two printed values as the source prints them. */
  lemma DigitsExample()
    ensures Digits(100) == [0x31, 0x30, 0x30]
    ensures SignedDigits(-1) == [0x2D, 0x31]
  {
    assert Digits(10) == [0x31, 0x30];
  }
}
