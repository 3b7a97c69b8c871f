/** Decimal digit strings: the text PHP prints for an integer, the zero
    padding of date fields, and the value such a string denotes. */
module Decimal {

  predicate IsDigit(c: char) { '0' <= c <= '9' }

  predicate AllDigits(s: string) { forall i :: 0 <= i < |s| ==> IsDigit(s[i]) }

  function DigitChar(d: nat): (c: char)
    requires d < 10
    ensures IsDigit(c) && c as int - '0' as int == d
  {
    (d + '0' as int) as char
  }

  /** The value of a string of decimal digits, most significant first. */
  function Value(s: string): nat
    requires AllDigits(s)
  {
    if s == [] then 0 else Value(s[..|s| - 1]) * 10 + (s[|s| - 1] as int - '0' as int)
  }

  /** The shortest decimal text of `n` (PHP's conversion of an integer to a string). */
  function NatToString(n: nat): (s: string)
    ensures 1 <= |s| && AllDigits(s)
    ensures |s| > 1 ==> s[0] != '0'
  {
    if n < 10 then [DigitChar(n)] else NatToString(n / 10) + [DigitChar(n % 10)]
  }

  function IntToString(n: int): (s: string)
    ensures n >= 0 ==> s == NatToString(n)
    ensures n < 0 ==> s == "-" + NatToString(-n)
  {
    if n < 0 then "-" + NatToString(-n) else NatToString(n)
  }

  function Pow10(k: nat): (p: nat)
    ensures p >= 1
  {
    if k == 0 then 1 else 10 * Pow10(k - 1)
  }

  function Zeros(k: nat): (s: string)
    ensures |s| == k && AllDigits(s)
    ensures forall i :: 0 <= i < k ==> s[i] == '0'
  {
    if k == 0 then [] else Zeros(k - 1) + ['0']
  }

  /** `n` left-padded with zeros to at least `width` digits (PHP's `Y`, `m`, `d`, ...). */
  function Pad(n: nat, width: nat): (s: string)
    ensures AllDigits(s)
  {
    var t := NatToString(n);
    if |t| < width then Zeros(width - |t|) + t else t
  }

  lemma {:induction false} NatToStringValue(n: nat)
    ensures Value(NatToString(n)) == n
  {
    if n >= 10 {
      NatToStringValue(n / 10);
      var s := NatToString(n);
      assert s[..|s| - 1] == NatToString(n / 10);
    }
  }

  lemma {:induction false} NatToStringLength(n: nat, k: nat)
    requires n < Pow10(k)
    ensures |NatToString(n)| <= k || (k == 0 && n == 0)
  {
    if n >= 10 {
      assert k >= 1;
      NatToStringLength(n / 10, k - 1);
    }
  }

  /** Leading zeros do not change the value. */
  lemma {:induction false} ValueOfZerosPrefix(k: nat, t: string)
    requires AllDigits(t)
    ensures AllDigits(Zeros(k) + t) && Value(Zeros(k) + t) == Value(t)
  {
    if t == [] {
      assert Zeros(k) + t == Zeros(k);
      ValueOfZeros(k);
    } else {
      var t' := t[..|t| - 1];
      ValueOfZerosPrefix(k, t');
      assert (Zeros(k) + t)[..|Zeros(k) + t| - 1] == Zeros(k) + t';
    }
  }

  lemma {:induction false} ValueOfZeros(k: nat)
    ensures Value(Zeros(k)) == 0
  {
    if k > 0 {
      ValueOfZeros(k - 1);
      assert Zeros(k)[..k - 1] == Zeros(k - 1);
    }
  }

  /** Padding is faithful: the padded text has the requested width (when the
      number fits) and still denotes the same number. */
  lemma PadValue(n: nat, width: nat)
    requires n < Pow10(width)
    ensures |Pad(n, width)| == width || (width == 0 && n == 0)
    ensures Value(Pad(n, width)) == n
  {
    NatToStringLength(n, width);
    NatToStringValue(n);
    var t := NatToString(n);
    if |t| < width {
      ValueOfZerosPrefix(width - |t|, t);
    }
  }

  /** Padding keeps the value and gives at least `width` digits. */
  lemma PadAtLeast(n: nat, width: nat)
    ensures |Pad(n, width)| >= width && Value(Pad(n, width)) == n
  {
    NatToStringValue(n);
    var t := NatToString(n);
    if |t| < width {
      ValueOfZerosPrefix(width - |t|, t);
    }
  }
}
