/** The loosely typed values the client handles: what `json_decode` returns
    (JSON objects become stdClass objects, JSON arrays become lists) plus the
    ObjectId objects that normalisation puts in place of id strings, and the
    few PHP value rules the client relies on. */
module Json {
  import opened Wrappers
  import opened Errors
  import opened ObjectIds
  import opened Numeric
  import Decimal

  datatype Json =
    | JNull
    | JBool(b: bool)
    | JInt(n: int)
    | JStr(s: string)
    | JArr(items: seq<Json>)
    | JObj(fields: map<string, Json>)
    | JId(id: ObjectId)

  /** `$value->key`: a missing property, or a read on a non-object, yields null
      (with a PHP warning). */
  function Prop(j: Json, key: string): (r: Json)
    ensures j.JObj? && key in j.fields ==> r == j.fields[key]
    ensures !(j.JObj? && key in j.fields) ==> r == JNull
  {
    if j.JObj? && key in j.fields then j.fields[key] else JNull
  }

  /** PHP truthiness; `empty($x)` is its negation. Every object is truthy. */
  predicate Truthy(j: Json) {
    match j
    case JNull => false
    case JBool(b) => b
    case JInt(n) => n != 0
    case JStr(s) => s != "" && s != "0"
    case JArr(items) => items != []
    case JObj(_) => true
    case JId(_) => true
  }

  /** `isset($value->key)`. */
  predicate IsSet(j: Json, key: string) {
    j.JObj? && key in j.fields && j.fields[key] != JNull
  }

  /** `$x == 1`. */
  predicate EqualsOne(j: Json) {
    LooseEquals(j, JInt(1))
  }

  /** `isset($response->success) && $response->success == 1`. */
  predicate Succeeded(response: Json) {
    IsSet(response, "success") && EqualsOne(Prop(response, "success"))
  }

  /** `$x > 0`: null is below, a boolean compares as 0 or 1, a numeric
      string by its value, any other string as text against "0"; arrays
      are above every integer and objects convert to 1. */
  predicate IsPositive(j: Json) {
    match j
    case JNull => false
    case JBool(b) => b
    case JInt(n) => n > 0
    case JStr(s) => if IntegerValue(s).Some? then IntegerValue(s).value > 0 else TextAboveZero(s)
    case JArr(_) => true
    case JObj(_) => true
    case JId(_) => true
  }

  /** PHP 8's `==` once null and booleans are out of the way: numbers and
      numeric strings compare as numbers, other strings as text; an ObjectId
      compares with another through their strings, with a string through
      __toString, and with an integer as the number 1, as any object does. */
  predicate LooseIdEquals(a: Json, b: Json) {
    match (a, b)
    case (JStr(s), JStr(t)) => LooseStringEquals(s, t)
    case (JStr(s), JInt(n)) => IntegerValue(s) == Some(n)
    case (JInt(n), JStr(s)) => IntegerValue(s) == Some(n)
    case (JId(x), JId(y)) => SameId(x, y)
    case (JId(x), JStr(s)) => LooseStringEquals(x.oid, s)
    case (JStr(s), JId(y)) => LooseStringEquals(s, y.oid)
    case (JId(_), JInt(n)) => n == 1
    case (JInt(n), JId(_)) => n == 1
    case (JObj(_), JInt(n)) => n == 1
    case (JInt(n), JObj(_)) => n == 1
    case _ => a == b
  }

  /** PHP 8's `==`: null equals exactly the falsy values and the empty
      string; a boolean compares with the other side's truthiness; any other
      pair compares as above. */
  predicate LooseEquals(a: Json, b: Json) {
    match (a, b)
    case (JNull, JStr(s)) => s == ""
    case (JStr(s), JNull) => s == ""
    case (JNull, _) => !Truthy(b)
    case (_, JNull) => !Truthy(a)
    case (JBool(x), _) => x == Truthy(b)
    case (_, JBool(y)) => Truthy(a) == y
    case _ => LooseIdEquals(a, b)
  }

  /** The values a response flag equals 1 for: true, 1, a numeric string
      of value 1 (such as "1", "01", " 1" or "+1"), and any object. */
  lemma EqualsOneCases(j: Json)
    ensures EqualsOne(j) <==>
      || j == JBool(true) || j == JInt(1) || j.JObj? || j.JId?
      || (j.JStr? && IntegerValue(j.s) == Some(1))
  {
  }

  /** A number sent as its decimal text is compared as that number: it
      equals 1 exactly when it is 1 and is positive exactly when it is. */
  lemma NumericStrings(n: int)
    ensures EqualsOne(JStr(Decimal.IntToString(n))) <==> n == 1
    ensures IsPositive(JStr(Decimal.IntToString(n))) <==> n > 0
  {
    IntegerValueOfInt(n);
  }

  /** A word such as "yes" or "abc" is not a number: it does not equal 1,
      and it is above 0 because it sorts after the text "0". */
  lemma WordStrings(s: string)
    requires s != [] && 'a' <= s[0] <= 'z'
    ensures !EqualsOne(JStr(s)) && IsPositive(JStr(s))
  {
    if IntegerValue(s).Some? {
      IntegerCharacters(s, 0);
    }
  }

  /** `in_array($needle, $haystack)` in its default, loose mode. */
  predicate InArray(needle: Json, haystack: seq<Json>) {
    exists i :: 0 <= i < |haystack| && LooseEquals(needle, haystack[i])
  }

  /** A doctype is accepted exactly when some listed id is loosely equal to
      it; in particular a string doctype is accepted when it is listed as is,
      and a missing (null) doctype only when some id is falsy other than
      the string "0". */
  lemma InArrayCases(needle: Json, haystack: seq<Json>)
    requires needle.JStr? || needle.JNull?
    ensures needle.JStr? && needle in haystack ==> InArray(needle, haystack)
    ensures needle.JNull? ==>
      (InArray(needle, haystack) <==>
         exists i :: 0 <= i < |haystack| && !Truthy(haystack[i]) && haystack[i] != JStr("0"))
  {
    if needle.JStr? && needle in haystack {
      var i :| 0 <= i < |haystack| && haystack[i] == needle;
      assert LooseEquals(needle, haystack[i]);
    }
  }

  /** The string PHP passes to `ObjectId::__construct(string $id)` in
      coercive typing mode: strings as they are, ObjectId objects through
      __toString, booleans and integers converted; other values are refused. */
  function StringArgument(v: Json): Option<string> {
    match v
    case JStr(s) => Some(s)
    case JId(o) => Some(o.oid)
    case JBool(b) => Some(if b then "1" else "")
    case JInt(n) => Some(Decimal.IntToString(n))
    case _ => None
  }

  /** `new ObjectId($v)`. */
  function ToObjectId(v: Json): (r: Result<ObjectId, Error>)
    ensures r.Success? <==> StringArgument(v).Some? && MatchesOidPattern(StringArgument(v).value)
    ensures r.Success? ==> r.value.oid == StringArgument(v).value
    ensures r.Failure? ==> r.error == if StringArgument(v).Some? then InvalidObjectId else TypeError
  {
    match StringArgument(v)
    case None => Failure(TypeError)
    case Some(s) => NewObjectId(s)
  }

  /** A PHP integer (64 bits) never converts to a valid ObjectId: its decimal
      text has at most 20 characters. */
  lemma IntegerIsNeverObjectId(n: int)
    requires -0x8000_0000_0000_0000 <= n < 0x8000_0000_0000_0000
    ensures ToObjectId(JInt(n)).Failure?
  {
    var m: nat := if n < 0 then -n else n;
    assert m < Decimal.Pow10(19) by { Pow10At19(); }
    Decimal.NatToStringLength(m, 19);
  }

  lemma Pow10At19()
    ensures Decimal.Pow10(19) == 10_000_000_000_000_000_000
  {
    var p := Decimal.Pow10(19);
    assert Decimal.Pow10(4) == 10_000;
    assert Decimal.Pow10(8) == 100_000_000;
    assert Decimal.Pow10(12) == 1_000_000_000_000;
    assert Decimal.Pow10(16) == 10_000_000_000_000_000;
  }
}
