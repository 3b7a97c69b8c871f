/** The 24-hex-digit ObjectId value type: validation on construction, the
    embedded timestamp, the JSON form and PHP's native serialised form. */
module ObjectIds {
  import opened Wrappers
  import opened Errors
  import Decimal
  import Numeric

  predicate IsHexDigit(c: char) {
    ('0' <= c <= '9') || ('a' <= c <= 'f') || ('A' <= c <= 'F')
  }

  predicate AllHex(s: string) { forall i :: 0 <= i < |s| ==> IsHexDigit(s[i]) }

  /** The strings the pattern `/^[a-f0-9]{24}$/i` matches. PCRE's `$` (without
      the D modifier) also matches just before a final newline, so 24 hex
      digits followed by one "\n" pass the check too. */
  predicate MatchesOidPattern(s: string) {
    || (|s| == 24 && AllHex(s))
    || (|s| == 25 && AllHex(s[..24]) && s[24] == '\n')
  }

  /** An ObjectId object; `oid` is the stored string. */
  datatype ObjectId = ObjectId(oid: string) {
    /** __toString */
    function ToString(): string { oid }
  }

  /** PHP's `==` on two ObjectId objects: their `oid` properties compared
      loosely, so that two numeric strings compare as numbers. */
  predicate SameId(a: ObjectId, b: ObjectId) {
    Numeric.LooseStringEquals(a.oid, b.oid)
  }

  /** The constructor: succeeds exactly on strings the pattern matches and
      stores the input unchanged, in its original case. */
  function NewObjectId(s: string): (r: Result<ObjectId, Error>)
    ensures r.Success? <==> MatchesOidPattern(s)
    ensures r.Success? ==> r.value.ToString() == s
    ensures r.Failure? ==> r.error == InvalidObjectId
  {
    if MatchesOidPattern(s) then Success(ObjectId(s)) else Failure(InvalidObjectId)
  }

  // ---------------------------------------------------------------- timestamp

  function HexDigitValue(c: char): (d: nat)
    requires IsHexDigit(c)
    ensures d < 16
  {
    if '0' <= c <= '9' then c as int - '0' as int
    else if 'a' <= c <= 'f' then c as int - 'a' as int + 10
    else c as int - 'A' as int + 10
  }

  /** The big-endian value of a string of hex digits. */
  function HexValue(s: string): nat
    requires AllHex(s)
  {
    if s == [] then 0 else HexValue(s[..|s| - 1]) * 16 + HexDigitValue(s[|s| - 1])
  }

  function Pow16(k: nat): (p: nat)
    ensures p >= 1
  {
    if k == 0 then 1 else 16 * Pow16(k - 1)
  }

  /** The length of the longest prefix of `s` made of hex digits. */
  function HexRun(s: string): (n: nat)
    ensures n <= |s| && AllHex(s[..n])
    ensures n < |s| ==> !IsHexDigit(s[n])
  {
    if s == [] || !IsHexDigit(s[0]) then 0
    else
      var n := 1 + HexRun(s[1..]);
      assert forall i :: 1 <= i < n ==> s[..n][i] == s[1..][..n - 1][i - 1];
      n
  }

  /** getTimestamp: `intval(substr(oid, 0, 8), 16)`, which reads the hex
      digits at the start of the first eight characters. */
  function Timestamp(id: ObjectId): (t: nat)
    ensures t < 0x1_0000_0000
    ensures MatchesOidPattern(id.oid) ==> AllHex(id.oid[..8]) && t == HexValue(id.oid[..8])
  {
    var head := if |id.oid| < 8 then id.oid else id.oid[..8];
    var digits := head[..HexRun(head)];
    HexValueBound(digits);
    assert Pow16(|digits|) <= Pow16(8) by { Pow16Monotone(|digits|, 8); }
    assert MatchesOidPattern(id.oid) ==> digits == id.oid[..8];
    HexValue(digits)
  }

  lemma {:induction false} HexValueBound(s: string)
    requires AllHex(s)
    ensures HexValue(s) < Pow16(|s|)
  {
    if s != [] {
      HexValueBound(s[..|s| - 1]);
    }
  }

  lemma {:induction false} Pow16Monotone(j: nat, k: nat)
    requires j <= k
    ensures Pow16(j) <= Pow16(k)
  {
    if j < k {
      Pow16Monotone(j, k - 1);
    }
  }

  /** jsonSerialize: the one-entry map `$oid => oid`. */
  function JsonSerialize(id: ObjectId): (m: map<string, string>)
    ensures m.Keys == {"$oid"} && m["$oid"] == id.oid
  {
    map["$oid" := id.oid]
  }

  // -------------------------------------------------- PHP native serialisation

  const SerialHead: string := "a:1:{s:3:\"oid\";s:"
  const SerialTail: string := "\";}"

  /** serialize(): PHP's `serialize(['oid' => oid])`, whose string length is
      written in decimal. */
  function Serialize(id: ObjectId): string {
    SerialHead + Decimal.NatToString(|id.oid|) + ":\"" + id.oid + SerialTail
  }

  /** The length of the longest prefix of `s` made of decimal digits. */
  function DigitRun(s: string): (n: nat)
    ensures n <= |s| && Decimal.AllDigits(s[..n])
    ensures n < |s| ==> !Decimal.IsDigit(s[n])
  {
    if s == [] || !Decimal.IsDigit(s[0]) then 0
    else
      var n := 1 + DigitRun(s[1..]);
      assert forall i :: 1 <= i < n ==> s[..n][i] == s[1..][..n - 1][i - 1];
      n
  }

  /** unserialize(): reads back the one-entry array with key `oid` holding a
      string of the announced length; data after the closing brace is
      ignored. Any other input makes PHP's `unserialize` return false, and
      storing `false['oid']` (null) into the string property is a TypeError.
      The payload is NOT checked against the ObjectId pattern. */
  function Unserialize(s: string): (r: Result<ObjectId, Error>)
    ensures r.Failure? ==> r.error == TypeError
  {
    if |s| < |SerialHead| || s[..|SerialHead|] != SerialHead then Failure(TypeError)
    else
      var t := s[|SerialHead|..];
      var k := DigitRun(t);
      if k == 0 then Failure(TypeError)
      else
        var n := Decimal.Value(t[..k]);
        var u := t[k..];
        if |u| < n + 5 || u[..2] != ":\"" || u[n + 2..n + 5] != SerialTail then Failure(TypeError)
        else Success(ObjectId(u[2..n + 2]))
  }

  /** A digit run followed by a non-digit is read up to that non-digit. */
  lemma {:induction false} DigitRunOfNumber(d: string, rest: string)
    requires Decimal.AllDigits(d)
    requires rest != [] && !Decimal.IsDigit(rest[0])
    ensures DigitRun(d + rest) == |d|
  {
    if d != [] {
      assert (d + rest)[1..] == d[1..] + rest;
      DigitRunOfNumber(d[1..], rest);
    }
  }

  /** unserialize(serialize(x)) restores an ObjectId equal to x, for every
      stored string (valid or not). */
  lemma SerializeRoundTrip(id: ObjectId)
    ensures Unserialize(Serialize(id)) == Success(id)
  {
    var n := |id.oid|;
    var digits := Decimal.NatToString(n);
    var s := Serialize(id);
    assert s[..|SerialHead|] == SerialHead;
    var t := s[|SerialHead|..];
    assert t == digits + (":\"" + id.oid + SerialTail);
    DigitRunOfNumber(digits, ":\"" + id.oid + SerialTail);
    assert t[..|digits|] == digits;
    Decimal.NatToStringValue(n);
    var u := t[|digits|..];
    assert u == ":\"" + id.oid + SerialTail;
    assert u[2..n + 2] == id.oid;
  }

  /** Rewriting a digit string without leading zeros never makes it longer,
      and gives it back unchanged when the length is kept. */
  lemma {:induction false} CanonicalDigits(d: string)
    requires Decimal.AllDigits(d) && d != []
    ensures |Decimal.NatToString(Decimal.Value(d))| <= |d|
    ensures |Decimal.NatToString(Decimal.Value(d))| == |d| ==> Decimal.NatToString(Decimal.Value(d)) == d
  {
    var d' := d[..|d| - 1];
    var c := d[|d| - 1] as int - '0' as int;
    var v := Decimal.Value(d);
    assert v == Decimal.Value(d') * 10 + c;
    if d' == [] {
      assert d == [Decimal.DigitChar(c)];
    } else {
      CanonicalDigits(d');
      if v >= 10 {
        assert v / 10 == Decimal.Value(d') && v % 10 == c;
        assert d == d' + [Decimal.DigitChar(c)];
      }
    }
  }

  /** serialize() writes the only canonical form: any string unserialize()
      accepts is that form, possibly with leading zeros in the length or data
      after the closing brace, so it is never shorter. */
  lemma UnserializeCanonical(s: string)
    requires Unserialize(s).Success?
    ensures |Serialize(Unserialize(s).value)| <= |s|
    ensures |Serialize(Unserialize(s).value)| == |s| ==> Serialize(Unserialize(s).value) == s
  {
    var v := Unserialize(s).value;
    var t := s[|SerialHead|..];
    var k := DigitRun(t);
    var d := t[..k];
    var u := t[k..];
    var n := Decimal.Value(d);
    assert v.oid == u[2..n + 2] && |v.oid| == n;
    CanonicalDigits(d);
    var digits := Decimal.NatToString(n);
    assert |Serialize(v)| == |SerialHead| + |digits| + 5 + n;
    assert |s| == |SerialHead| + k + |u|;
    if |Serialize(v)| == |s| {
      assert digits == d;
      Split3(u, ":\"", v.oid, SerialTail);
      SplitAt(t, k);
      SplitAt(s, |SerialHead|);
      Concat5(SerialHead, d, ":\"", v.oid, SerialTail);
    }
  }

  lemma SplitAt<T>(s: seq<T>, k: nat)
    requires k <= |s|
    ensures s == s[..k] + s[k..]
  {
  }

  /** A sequence made of three known pieces is their concatenation. */
  lemma Split3<T>(u: seq<T>, a: seq<T>, b: seq<T>, c: seq<T>)
    requires |u| == |a| + |b| + |c|
    requires u[..|a|] == a && u[|a|..|a| + |b|] == b && u[|a| + |b|..|a| + |b| + |c|] == c
    ensures u == a + b + c
  {
    assert forall i :: 0 <= i < |a| ==> u[i] == u[..|a|][i];
    assert forall i :: |a| <= i < |a| + |b| ==> u[i] == u[|a|..|a| + |b|][i - |a|];
    assert forall i :: |a| + |b| <= i < |u| ==> u[i] == u[|a| + |b|..|a| + |b| + |c|][i - |a| - |b|];
  }

  lemma Concat5<T>(a: seq<T>, b: seq<T>, c: seq<T>, d: seq<T>, e: seq<T>)
    ensures a + b + c + d + e == a + (b + (c + d + e))
  {
  }

  /** The test fixture `a:1:{s:3:"oid";s:24:"62eba7ba5ddf632cd13273a3";}`,
      written in four pieces. */
  const Fixture: string := "a:1:{s:3:\"oid\";s:" + "24" + ":\"" + "62eba7ba5ddf632cd13273a3" + "\";}"

  /** The literal serialised form used as a fixture in the repository's tests. */
  lemma SerializedFixture()
    ensures Serialize(ObjectId("62eba7ba5ddf632cd13273a3")) == Fixture
  {
    LengthText24();
  }

  lemma LengthText24()
    ensures Decimal.NatToString(24) == "24"
  {
    assert Decimal.DigitChar(2) == '2' && Decimal.DigitChar(4) == '4';
    assert Decimal.NatToString(24) == Decimal.NatToString(2) + [Decimal.DigitChar(4)];
  }

  lemma UnserializedFixture()
    ensures Unserialize(Fixture) == Success(ObjectId("62eba7ba5ddf632cd13273a3"))
  {
    SerializedFixture();
    SerializeRoundTrip(ObjectId("62eba7ba5ddf632cd13273a3"));
  }

  /** The value of the repository's test timestamp digits, digit by digit. */
  lemma HexFixture()
    ensures AllHex("62f369e7") && HexValue("62f369e7") == 0x62f369e7
  {
    var h := "62f369e7";
    HexFixtureHead();
    HexPrefix(h, 5);
    assert HexValue(h[..5]) == 0x62f36;
    HexPrefix(h, 6);
    assert HexValue(h[..6]) == 0x62f369;
    HexPrefix(h, 7);
    assert HexValue(h[..7]) == 0x62f369e;
    HexPrefix(h, 8);
    assert h[..8] == h;
  }

  lemma HexFixtureHead()
    ensures AllHex("62f369e7"[..4]) && HexValue("62f369e7"[..4]) == 0x62f3
  {
    var h := "62f369e7";
    HexPrefix(h, 1);
    assert HexValue(h[..1]) == 0x6 by { assert h[..1][..0] == []; }
    HexPrefix(h, 2);
    assert HexValue(h[..2]) == 0x62;
    HexPrefix(h, 3);
    assert HexValue(h[..3]) == 0x62f;
    HexPrefix(h, 4);
  }

  /** The value of the first `k` digits from that of the first `k - 1`. */
  lemma HexPrefix(d: string, k: nat)
    requires 0 < k <= |d| && AllHex(d)
    ensures AllHex(d[..k]) && HexValue(d[..k]) == HexValue(d[..k - 1]) * 16 + HexDigitValue(d[k - 1])
  {
    assert d[..k][..k - 1] == d[..k - 1];
  }

  /** The timestamp of the repository's test id 62f369e76bad1856b5216a0b. */
  lemma TimestampFixture()
    ensures Timestamp(ObjectId("62f369e76bad1856b5216a0b")) == 1660119527
  {
    var s := "62f369e76bad1856b5216a0b";
    assert MatchesOidPattern(s);
    var h := s[..8];
    assert h == "62f369e7";
    HexFixture();
  }

  /** Equality is case-sensitive: upper-casing a valid id that has a letter
      digit gives another valid id that PHP's `==` finds different; a hex
      letter makes the string non-numeric, so it is compared as text. */
  lemma CaseSensitiveEquality(s: string, i: nat)
    requires MatchesOidPattern(s)
    requires i < |s| && 'a' <= s[i] <= 'f'
    ensures var up := UpperCase(s);
      NewObjectId(up).Success? && !SameId(NewObjectId(up).value, NewObjectId(s).value)
  {
    UpperCaseValid(s, i);
    HexLetterNotNumeric(s, i);
  }

  /** Upper-casing a valid id gives a valid id, a different string when the
      id has a letter digit. */
  lemma UpperCaseValid(s: string, i: nat)
    requires MatchesOidPattern(s)
    requires i < |s| && 'a' <= s[i] <= 'f'
    ensures MatchesOidPattern(UpperCase(s)) && UpperCase(s) != s
  {
    var up := UpperCase(s);
    assert up[i] != s[i];
    if |s| == 25 {
      assert up[..24] == UpperCase(s[..24]);
    }
  }

  /** A string holding a lower-case hex letter is not numeric. */
  lemma HexLetterNotNumeric(s: string, i: nat)
    requires i < |s| && 'a' <= s[i] <= 'f'
    ensures Numeric.IntegerValue(s).None?
  {
    if Numeric.IntegerValue(s).Some? {
      Numeric.IntegerCharacters(s, i);
    }
  }

  /** Numeric ids are compared as numbers: a valid all-digit id whose value
      fits a PHP integer is `==` to the same id followed by a line feed,
      which the pattern accepts too, although the two strings differ. */
  lemma LineFeedTwin(s: string)
    requires |s| == 24 && Decimal.AllDigits(s) && Decimal.Value(s) < 0x8000_0000_0000_0000
    ensures NewObjectId(s).Success? && NewObjectId(s + "\n").Success?
    ensures SameId(NewObjectId(s + "\n").value, NewObjectId(s).value)
    ensures NewObjectId(s + "\n").value != NewObjectId(s).value
  {
    assert (s + "\n")[..24] == s;
    Numeric.TrimmedText(s);
    Numeric.SignedValueOfDigits(s);
    Numeric.TrailingLineFeed(s);
  }

  function Upper(c: char): char {
    if 'a' <= c <= 'z' then (c as int - 'a' as int + 'A' as int) as char else c
  }

  function UpperCase(s: string): (r: string)
    ensures |r| == |s| && forall i :: 0 <= i < |s| ==> r[i] == Upper(s[i])
  {
    seq(|s|, i requires 0 <= i < |s| => Upper(s[i]))
  }
}
