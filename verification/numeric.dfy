/** PHP 8's numeric strings in integer form, and the loose comparisons the
    client makes with them. A numeric string in integer form is an optional
    run of blanks, an optional sign, at least one decimal digit and an
    optional run of blanks. */
module Numeric {
  import opened Wrappers
  import opened Decimal

  /** The blanks PHP allows around a numeric string: space, tab, line feed,
      carriage return, vertical tab, form feed. */
  predicate IsBlank(c: char) {
    c == ' ' || c == '\t' || c == '\n' || c == '\r' || c == '\U{B}' || c == '\U{C}'
  }

  predicate AllBlank(s: string) { forall i :: 0 <= i < |s| ==> IsBlank(s[i]) }

  /** The number of blanks `s` starts with. */
  function LeadingBlanks(s: string): (k: nat)
    ensures k <= |s| && (k < |s| ==> !IsBlank(s[k]))
    ensures forall i :: 0 <= i < k ==> IsBlank(s[i])
  {
    if s != [] && IsBlank(s[0]) then
      var k := LeadingBlanks(s[1..]);
      assert forall i :: 1 <= i < k + 1 ==> s[i] == s[1..][i - 1];
      k + 1
    else 0
  }

  /** The number of blanks `s` ends with. */
  function TrailingBlanks(s: string): (k: nat)
    ensures k <= |s| && (k < |s| ==> !IsBlank(s[|s| - k - 1]))
    ensures forall i :: |s| - k <= i < |s| ==> IsBlank(s[i])
  {
    if s != [] && IsBlank(s[|s| - 1]) then
      var k := TrailingBlanks(s[..|s| - 1]);
      assert forall i :: |s| - 1 - k <= i < |s| - 1 ==> s[i] == s[..|s| - 1][i];
      k + 1
    else 0
  }

  /** `s` without its leading and trailing blanks. */
  function Trim(s: string): string {
    var l := s[LeadingBlanks(s)..];
    l[..|l| - TrailingBlanks(l)]
  }

  /** The value of an optional sign followed by at least one digit; None
      for any other text. */
  function SignedValue(t: string): Option<int> {
    if |t| >= 2 && (t[0] == '-' || t[0] == '+') && AllDigits(t[1..]) then
      var v: int := Value(t[1..]);
      Some(if t[0] == '-' then -v else v)
    else if t != [] && AllDigits(t) then Some(Value(t))
    else None
  }

  /** The value of a numeric string in integer form; None for any other
      string. */
  function IntegerValue(s: string): Option<int> {
    SignedValue(Trim(s))
  }

  /** The range of a PHP integer. */
  predicate InInt64(n: int) {
    -0x8000_0000_0000_0000 <= n < 0x8000_0000_0000_0000
  }

  /** PHP 8's `==` on two strings: two numeric strings are compared as
      numbers, except that when both overflow a PHP integer the texts are
      compared (and when only one overflows they differ); any other pair is
      compared as text. */
  predicate LooseStringEquals(a: string, b: string) {
    || a == b
    || (IntegerValue(a).Some? && IntegerValue(a) == IntegerValue(b) && InInt64(IntegerValue(a).value))
  }

  /** PHP 8's `$s > 0` for a string that is not numeric: `0` is turned into
      the text "0" and the two texts are compared byte by byte. */
  predicate TextAboveZero(s: string) {
    s != [] && (s[0] > '0' || (s[0] == '0' && |s| > 1))
  }

  /** A text that neither starts nor ends with a blank is its own trim. */
  lemma TrimmedText(s: string)
    requires s != [] && !IsBlank(s[0]) && !IsBlank(s[|s| - 1])
    ensures Trim(s) == s
  {
    assert LeadingBlanks(s) == 0;
    assert TrailingBlanks(s) == 0;
  }

  /** Digits, with or without a minus sign, denote their value. */
  lemma SignedValueOfDigits(d: string)
    requires d != [] && AllDigits(d)
    ensures SignedValue(d) == Some(Value(d))
    ensures SignedValue("-" + d) == Some(0 - Value(d))
  {
    assert ("-" + d)[1..] == d;
  }

  /** The text PHP prints for an integer reads back as that integer. */
  lemma IntegerValueOfInt(n: int)
    ensures IntegerValue(IntToString(n)) == Some(n)
  {
    var s := IntToString(n);
    var d := NatToString(if n < 0 then -n else n);
    assert s[|s| - 1] == d[|d| - 1];
    TrimmedText(s);
    NatToStringValue(if n < 0 then -n else n);
    SignedValueOfDigits(d);
  }

  /** A numeric string in integer form holds only blanks, digits and signs;
      any other character (a hex letter, say) makes a string non-numeric. */
  lemma IntegerCharacters(s: string, i: nat)
    requires IntegerValue(s).Some? && i < |s|
    ensures IsBlank(s[i]) || IsDigit(s[i]) || s[i] == '-' || s[i] == '+'
  {
    var k := LeadingBlanks(s);
    var l := s[k..];
    var t := Trim(s);
    if k <= i && i - k < |t| {
      assert s[i] == t[i - k];
      if i - k > 0 && |t| >= 2 && (t[0] == '-' || t[0] == '+') && AllDigits(t[1..]) {
        assert t[i - k] == t[1..][i - k - 1];
      }
    } else if k <= i {
      assert s[i] == l[i - k];
    }
  }

  /** A character added to a text with a non-blank leaves its leading
      blanks alone. */
  lemma {:induction false} LeadingBlanksAppend(s: string, c: char)
    requires LeadingBlanks(s) < |s|
    ensures LeadingBlanks(s + [c]) == LeadingBlanks(s)
  {
    if IsBlank(s[0]) {
      assert (s + [c])[1..] == s[1..] + [c];
      LeadingBlanksAppend(s[1..], c);
    }
  }

  /** A final blank is one trailing blank more. */
  lemma TrailingBlanksAppend(s: string, c: char)
    requires IsBlank(c)
    ensures TrailingBlanks(s + [c]) == TrailingBlanks(s) + 1
  {
    assert (s + [c])[..|s|] == s;
  }

  /** A final blank does not change the trimmed text. */
  lemma TrimAppendBlank(s: string, c: char)
    requires LeadingBlanks(s) < |s| && IsBlank(c)
    ensures Trim(s + [c]) == Trim(s)
  {
    var k := LeadingBlanks(s);
    LeadingBlanksAppend(s, c);
    var l := s[k..];
    AppendSlices(s, k, c);
    TrailingBlanksAppend(l, c);
    AppendSlices(l, |l| - TrailingBlanks(l), c);
  }

  /** Slicing a sequence with one element more. */
  lemma AppendSlices<T>(s: seq<T>, k: nat, x: T)
    requires k <= |s|
    ensures (s + [x])[k..] == s[k..] + [x]
    ensures (s + [x])[..k] == s[..k]
  {
  }

  /** An integer-form numeric string in the range of a PHP integer is `==`
      to the same text followed by a line feed, although the two texts
      differ. */
  lemma TrailingLineFeed(s: string)
    requires IntegerValue(s).Some? && InInt64(IntegerValue(s).value)
    ensures LooseStringEquals(s, s + "\n") && s != s + "\n"
  {
    TrimAppendBlank(s, '\n');
    assert |s + "\n"| != |s|;
  }
}
