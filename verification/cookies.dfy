/** Reading session cookies out of a response's header block: the
    `Set-Cookie:` captures of `/^Set-Cookie:\s*([^;]*)/mi`, each split into a
    name and a value, merged left to right so that a later name wins. */
module Cookies {

  /** The header name, lower-case; it is matched case-insensitively. */
  const Prefix: string := "set-cookie:"

  function Lower(c: char): char {
    if 'A' <= c <= 'Z' then (c as int - 'A' as int + 'a' as int) as char else c
  }

  /** `s` starts with the lower-case text `p`, ignoring case. */
  predicate StartsWithIgnoringCase(s: string, p: string) {
    |p| <= |s| && forall i :: 0 <= i < |p| ==> Lower(s[i]) == p[i]
  }

  /** PCRE's `\s`: space, tab, line feed, vertical tab, form feed, carriage return. */
  predicate IsSpace(c: char) {
    c == ' ' || c == '\t' || c == '\n' || c == '\U{B}' || c == '\U{C}' || c == '\r'
  }

  /** What the whitespace run after the colon may skip. As written (`\s*`) it
      crosses line breaks; the corrected scanner skips blanks and tabs only. */
  predicate Skippable(c: char, inLine: bool) {
    if inLine then c == ' ' || c == '\t' else IsSpace(c)
  }

  /** What the captured value may contain. As written (`[^;]*`) anything but a
      semicolon, line breaks included; the corrected scanner stops at the end
      of the line too. */
  predicate Capturable(c: char, inLine: bool) {
    c != ';' && (!inLine || (c != '\r' && c != '\n'))
  }

  /** The length of the longest prefix of `s` the whitespace run skips. */
  function SpaceRun(s: string, inLine: bool): (n: nat)
    ensures n <= |s|
    ensures forall i :: 0 <= i < n ==> Skippable(s[i], inLine)
    ensures n < |s| ==> !Skippable(s[n], inLine)
  {
    if s == [] || !Skippable(s[0], inLine) then 0
    else
      var n := 1 + SpaceRun(s[1..], inLine);
      assert forall i :: 1 <= i < n ==> s[i] == s[1..][i - 1];
      n
  }

  /** The length of the longest prefix of `s` the value capture takes. */
  function ValueRun(s: string, inLine: bool): (n: nat)
    ensures n <= |s|
    ensures forall i :: 0 <= i < n ==> Capturable(s[i], inLine)
    ensures n < |s| ==> !Capturable(s[n], inLine)
  {
    if s == [] || !Capturable(s[0], inLine) then 0
    else
      var n := 1 + ValueRun(s[1..], inLine);
      assert forall i :: 1 <= i < n ==> s[i] == s[1..][i - 1];
      n
  }

  /** Where the captured value starts in a match at the start of `s`. */
  function ValueStart(s: string, inLine: bool): (k: nat)
    requires StartsWithIgnoringCase(s, Prefix)
    ensures |Prefix| <= k <= |s|
  {
    |Prefix| + SpaceRun(s[|Prefix|..], inLine)
  }

  /** Where a match at the start of `s` ends; the value is `s[ValueStart..MatchEnd]`. */
  function MatchEnd(s: string, inLine: bool): (m: nat)
    requires StartsWithIgnoringCase(s, Prefix)
    ensures ValueStart(s, inLine) <= m <= |s|
    ensures forall i :: ValueStart(s, inLine) <= i < m ==> Capturable(s[i], inLine)
  {
    var k := ValueStart(s, inLine);
    var n := ValueRun(s[k..], inLine);
    assert forall i :: k <= i < k + n ==> s[i] == s[k..][i - k];
    k + n
  }

  /** The captures of every match in `s`, scanning left to right as
      preg_match_all does; `atLineStart` says whether `^` (multi-line mode)
      may match at the first character, i.e. whether it follows a line feed
      or the start of the header. After a match the scan resumes where the
      match ended. */
  function Scan(s: string, atLineStart: bool, inLine: bool): (items: seq<string>)
    ensures forall i :: 0 <= i < |items| ==>
      forall j :: 0 <= j < |items[i]| ==> Capturable(items[i][j], inLine)
    decreases |s|
  {
    if s == [] then []
    else if atLineStart && StartsWithIgnoringCase(s, Prefix) then
      var m := MatchEnd(s, inLine);
      [s[ValueStart(s, inLine)..m]] + Scan(s[m..], s[m - 1] == '\n', inLine)
    else
      Scan(s[1..], s[0] == '\n', inLine)
  }

  /** The captures exactly as the source's pattern produces them. */
  function CapturesAsWritten(header: string): seq<string> {
    Scan(header, true, false)
  }

  /** The captures the pattern was meant to produce: one per `Set-Cookie`
      line, never running into the next line. */
  function Captures(header: string): (items: seq<string>)
    ensures forall i :: 0 <= i < |items| ==>
      forall j :: 0 <= j < |items[i]| ==>
        items[i][j] != ';' && items[i][j] != '\r' && items[i][j] != '\n'
  {
    Scan(header, true, true)
  }

  // ----------------------------------------------------- header lines

  /** A header line: no line break inside. */
  predicate IsLine(l: string) {
    forall i :: 0 <= i < |l| ==> l[i] != '\r' && l[i] != '\n'
  }

  /** A header block: every line ended by CR LF. */
  function JoinLines(lines: seq<string>): string {
    if lines == [] then [] else lines[0] + "\r\n" + JoinLines(lines[1..])
  }

  /** What one `Set-Cookie` line contributes: the text after the colon and
      the blanks, up to the first semicolon or the end of the line. */
  function LineCapture(l: string): seq<string> {
    if StartsWithIgnoringCase(l, Prefix) then [l[ValueStart(l, true)..MatchEnd(l, true)]] else []
  }

  function LineCaptures(lines: seq<string>): seq<string> {
    if lines == [] then [] else LineCapture(lines[0]) + LineCaptures(lines[1..])
  }

  /** Away from a line start nothing matches until the next line feed. */
  lemma {:induction false} ScanSkipsToNextLine(x: string, rest: string, inLine: bool)
    requires forall i :: 0 <= i < |x| ==> x[i] != '\n'
    ensures Scan(x + "\n" + rest, false, inLine) == Scan(rest, true, inLine)
  {
    var s := x + "\n" + rest;
    if x == [] {
      assert s[1..] == rest;
    } else {
      assert s[1..] == x[1..] + "\n" + rest;
      ScanSkipsToNextLine(x[1..], rest, inLine);
    }
  }

  /** A run measured over a line followed by CR is the run over the line alone. */
  lemma {:induction false} SpaceRunInLine(l: string, tail: string)
    requires IsLine(l) && tail != [] && tail[0] == '\r'
    ensures SpaceRun(l + tail, true) == SpaceRun(l, true)
  {
    if l != [] {
      assert (l + tail)[1..] == l[1..] + tail;
      SpaceRunInLine(l[1..], tail);
    }
  }

  lemma {:induction false} ValueRunInLine(l: string, tail: string)
    requires IsLine(l) && tail != [] && tail[0] == '\r'
    ensures ValueRun(l + tail, true) == ValueRun(l, true)
  {
    if l != [] {
      assert (l + tail)[1..] == l[1..] + tail;
      ValueRunInLine(l[1..], tail);
    }
  }

  /** Dropping a prefix of the first part of a concatenation. */
  lemma DropFromConcat(x: string, y: string, k: nat)
    requires k <= |x|
    ensures (x + y)[k..] == x[k..] + y
  {
  }

  /** A slice inside the first part of a concatenation. */
  lemma SliceOfConcat(x: string, y: string, i: nat, j: nat)
    requires i <= j <= |x| && 0 < j
    ensures (x + y)[i..j] == x[i..j] && (x + y)[j - 1] == x[j - 1]
  {
  }

  /** Whether the header name matches is decided inside the line. */
  lemma PrefixInLine(l: string, rest: string)
    requires IsLine(l)
    ensures StartsWithIgnoringCase(l + "\r\n" + rest, Prefix) == StartsWithIgnoringCase(l, Prefix)
  {
    var s := l + "\r\n" + rest;
    if |l| < |Prefix| {
      assert s[|l|] == '\r';
      assert Lower(s[|l|]) != Prefix[|l|];
    }
  }

  /** A match inside a line is the same match with the line break and the
      next lines after it. */
  lemma MatchInLine(l: string, rest: string)
    requires IsLine(l) && StartsWithIgnoringCase(l, Prefix)
    ensures StartsWithIgnoringCase(l + "\r\n" + rest, Prefix)
    ensures ValueStart(l + "\r\n" + rest, true) == ValueStart(l, true)
    ensures MatchEnd(l + "\r\n" + rest, true) == MatchEnd(l, true)
  {
    var tail := "\r\n" + rest;
    assert l + "\r\n" + rest == l + tail;
    PrefixInLine(l, rest);
    DropFromConcat(l, tail, |Prefix|);
    SpaceRunInLine(l[|Prefix|..], tail);
    var k := ValueStart(l, true);
    DropFromConcat(l, tail, k);
    ValueRunInLine(l[k..], tail);
  }

  /** A `Set-Cookie` line: its capture, then the next line. */
  lemma ScanMatchingLine(l: string, rest: string)
    requires IsLine(l) && StartsWithIgnoringCase(l, Prefix)
    ensures Scan(l + "\r\n" + rest, true, true) == LineCapture(l) + Scan(rest, true, true)
  {
    var tail := "\r\n" + rest;
    var s := l + tail;
    assert l + "\r\n" + rest == s;
    MatchInLine(l, rest);
    var k := ValueStart(l, true);
    var m := MatchEnd(l, true);
    SliceOfConcat(l, tail, k, m);
    DropFromConcat(l, tail, m);
    LineEndSkips(l[m..], rest, true);
  }

  /** Away from a line start nothing matches up to and over the next CR LF. */
  lemma {:induction false} LineEndSkips(x: string, rest: string, inLine: bool)
    requires IsLine(x)
    ensures Scan(x + ("\r\n" + rest), false, inLine) == Scan(rest, true, inLine)
  {
    var s := x + ("\r\n" + rest);
    if x == [] {
      assert s[1..] == "\n" + rest;
      assert ("\n" + rest)[1..] == rest;
    } else {
      DropFromConcat(x, "\r\n" + rest, 1);
      LineEndSkips(x[1..], rest, inLine);
    }
  }

  /** Any other line contributes nothing. */
  lemma ScanOtherLine(l: string, rest: string)
    requires IsLine(l) && !StartsWithIgnoringCase(l, Prefix)
    ensures Scan(l + "\r\n" + rest, true, true) == Scan(rest, true, true)
  {
    var s := l + "\r\n" + rest;
    PrefixInLine(l, rest);
    assert s[0] != '\n';
    assert s[1..] == (l + "\r")[1..] + "\n" + rest;
    ScanSkipsToNextLine((l + "\r")[1..], rest, true);
  }

  /** Scanning a line followed by CR LF yields that line's capture and then
      continues at the start of the next line. */
  lemma ScanLine(l: string, rest: string)
    requires IsLine(l)
    ensures Scan(l + "\r\n" + rest, true, true) == LineCapture(l) + Scan(rest, true, true)
  {
    if StartsWithIgnoringCase(l, Prefix) {
      ScanMatchingLine(l, rest);
    } else {
      ScanOtherLine(l, rest);
    }
  }

  /** The corrected scan of a header block gives exactly one capture per
      `Set-Cookie` line, in header order. */
  lemma {:induction false} CapturesOfLines(lines: seq<string>)
    requires forall i :: 0 <= i < |lines| ==> IsLine(lines[i])
    ensures Captures(JoinLines(lines)) == LineCaptures(lines)
  {
    if lines != [] {
      ScanLine(lines[0], JoinLines(lines[1..]));
      CapturesOfLines(lines[1..]);
    }
  }

  // ----------------------------------------------------------- merging

  /** The position of the first `=` in `item`, or its length when there is none. */
  function EqualsAt(item: string): (i: nat)
    ensures i <= |item|
    ensures forall j :: 0 <= j < i ==> item[j] != '='
    ensures i < |item| ==> item[i] == '='
  {
    if item == [] || item[0] == '=' then 0
    else
      var i := 1 + EqualsAt(item[1..]);
      assert forall j :: 1 <= j < i ==> item[j] == item[1..][j - 1];
      i
  }

  /** `parse_str` of one capture: the name before the first `=` and the value
      after it (empty without `=`); a capture with an empty name sets nothing. */
  function ParseItem(item: string): (m: map<string, string>)
    ensures |m| <= 1
    ensures forall k :: k in m ==> k == item[..EqualsAt(item)] && k != ""
    ensures item[..EqualsAt(item)] != "" ==> item[..EqualsAt(item)] in m
  {
    var i := EqualsAt(item);
    if i == 0 then map[]
    else map[item[..i] := if i < |item| then item[i + 1..] else ""]
  }

  /** The cookie map after `array_merge`-ing the parsed captures left to right. */
  function Jar(items: seq<string>): map<string, string> {
    if items == [] then map[] else Jar(items[..|items| - 1]) + ParseItem(items[|items| - 1])
  }

  /** Every name in the jar was set by some capture: `i` is one that sets it. */
  lemma {:induction false} JarKeyOrigin(items: seq<string>, k: string) returns (i: nat)
    ensures k in Jar(items) ==> i < |items| && k in ParseItem(items[i])
  {
    if items == [] {
      i := 0;
    } else if k in ParseItem(items[|items| - 1]) {
      i := |items| - 1;
    } else {
      var init := items[..|items| - 1];
      i := JarKeyOrigin(init, k);
      if k in Jar(items) {
        assert items[i] == init[i];
      }
    }
  }

  /** Every name some capture sets is in the jar. */
  lemma {:induction false} JarKeyPresent(items: seq<string>, i: nat, k: string)
    requires i < |items| && k in ParseItem(items[i])
    ensures k in Jar(items)
  {
    var init := items[..|items| - 1];
    if i < |items| - 1 {
      assert init[i] == items[i];
      JarKeyPresent(init, i, k);
    }
  }

  /** Last writer wins: the value of a name is the one set by the last
      capture that sets it. */
  lemma {:induction false} JarLastWins(items: seq<string>, i: nat, k: string)
    requires i < |items| && k in ParseItem(items[i])
    requires forall j :: i < j < |items| ==> k !in ParseItem(items[j])
    ensures k in Jar(items) && Jar(items)[k] == ParseItem(items[i])[k]
  {
    var init := items[..|items| - 1];
    if i < |items| - 1 {
      forall j | i < j < |init| ensures k !in ParseItem(init[j]) {
        assert init[j] == items[j];
      }
      JarLastWins(init, i, k);
    }
  }

  /** The cookie map a header block sets. */
  function HeaderCookies(header: string): map<string, string> {
    Jar(Captures(header))
  }

  // ------------------------------------------------- the as-written pattern

  /** The text of a cookie header value that has no attributes: not empty, no
      leading blank, no semicolon, no line break. */
  predicate IsBareValue(v: string) {
    v != [] && !IsSpace(v[0]) && IsLine(v) && ';' !in v
  }

  /** Two cookies, the first without attributes:
      `Set-Cookie: <a>` CR LF `Set-Cookie: <b>;<attrs>` CR LF. */
  function TwoCookieHeader(a: string, b: string, attrs: string): string {
    "Set-Cookie: " + a + "\r\n" + "Set-Cookie: " + b + ";" + attrs + "\r\n"
  }

  /** A run is pinned down by where it stops. */
  lemma ValueRunIs(s: string, n: nat, inLine: bool)
    requires n <= |s| && (n < |s| ==> !Capturable(s[n], inLine))
    requires forall i :: 0 <= i < n ==> Capturable(s[i], inLine)
    ensures ValueRun(s, inLine) == n
  {
  }

  lemma SpaceRunIs(s: string, n: nat, inLine: bool)
    requires n <= |s| && (n < |s| ==> !Skippable(s[n], inLine))
    requires forall i :: 0 <= i < n ==> Skippable(s[i], inLine)
    ensures SpaceRun(s, inLine) == n
  {
  }

  lemma HeaderNameMatches(rest: string)
    ensures StartsWithIgnoringCase("Set-Cookie: " + rest, Prefix)
  {
  }

  /** A `Set-Cookie: ` line whose value `v` is followed by a character the
      capture stops at (or by nothing) matches with exactly `v` captured. */
  lemma MatchOf(v: string, rest: string, inLine: bool)
    requires v != [] && !IsSpace(v[0])
    requires forall i :: 0 <= i < |v| ==> Capturable(v[i], inLine)
    requires rest != [] ==> !Capturable(rest[0], inLine)
    ensures StartsWithIgnoringCase("Set-Cookie: " + v + rest, Prefix)
    ensures ValueStart("Set-Cookie: " + v + rest, inLine) == 12
    ensures MatchEnd("Set-Cookie: " + v + rest, inLine) == 12 + |v|
    ensures ("Set-Cookie: " + v + rest)[12..12 + |v|] == v
  {
    var t := v + rest;
    var s := "Set-Cookie: " + t;
    assert s == "Set-Cookie: " + v + rest;
    HeaderNameMatches(t);
    assert s[|Prefix|..] == " " + t;
    SpaceRunIs(s[|Prefix|..], 1, inLine);
    assert s[12..] == t;
    assert forall i :: 0 <= i < |v| ==> t[i] == v[i];
    ValueRunIs(t, |v|, inLine);
    assert s[12..12 + |v|] == v;
  }

  /** A scan at a line start that meets such a line captures `v` and
      resumes right after it. */
  lemma ScanAfterMatch(v: string, rest: string, inLine: bool)
    requires v != [] && !IsSpace(v[0])
    requires forall i :: 0 <= i < |v| ==> Capturable(v[i], inLine)
    requires rest != [] ==> !Capturable(rest[0], inLine)
    ensures Scan("Set-Cookie: " + v + rest, true, inLine) == [v] + Scan(rest, v[|v| - 1] == '\n', inLine)
  {
    var s := "Set-Cookie: " + v + rest;
    MatchOf(v, rest, inLine);
    assert s[12 + |v|..] == rest;
    assert s[12 + |v| - 1] == v[|v| - 1];
  }

  /** Two bare values joined by a line break and a header name hold no semicolon. */
  lemma JoinedCapturable(a: string, b: string)
    requires IsBareValue(a) && IsBareValue(b)
    ensures var v := a + "\r\n" + "Set-Cookie: " + b;
      forall i :: 0 <= i < |v| ==> Capturable(v[i], false)
  {
    var v := a + "\r\n" + "Set-Cookie: " + b;
    assert forall i :: 0 <= i < |a| ==> v[i] == a[i];
    assert forall i :: |v| - |b| <= i < |v| ==> v[i] == b[i - (|v| - |b|)];
  }

  /** Attributes followed by CR hold no line feed. */
  lemma AttributesLine(attrs: string)
    requires IsLine(attrs)
    ensures var x := ";" + attrs + "\r";
      forall i :: 0 <= i < |x| ==> x[i] != '\n'
  {
    var x := ";" + attrs + "\r";
    assert forall i :: 1 <= i <= |attrs| ==> x[i] == attrs[i - 1];
  }

  /** As written, the first capture runs over the line break and swallows the
      second `Set-Cookie` header: a single capture holds both lines, so only
      one cookie is set and its value carries the next header's text. */
  lemma AsWrittenSwallowsNextCookie(a: string, b: string, attrs: string)
    requires IsBareValue(a) && IsBareValue(b) && IsLine(attrs)
    ensures CapturesAsWritten(TwoCookieHeader(a, b, attrs)) == [a + "\r\n" + "Set-Cookie: " + b]
  {
    var value := a + "\r\n" + "Set-Cookie: " + b;
    var tail := ";" + attrs + "\r";
    assert "\r\n" == "\r" + "\n";
    assert TwoCookieHeader(a, b, attrs) == "Set-Cookie: " + value + (tail + "\n" + "");
    JoinedCapturable(a, b);
    ScanAfterMatch(value, tail + "\n" + "", false);
    AttributesLine(attrs);
    ScanSkipsToNextLine(tail, "", false);
  }

  lemma TwoCookieLines(a: string, b: string, attrs: string)
    ensures JoinLines(["Set-Cookie: " + a, "Set-Cookie: " + b + (";" + attrs)]) == TwoCookieHeader(a, b, attrs)
  {
    var l1, l2 := "Set-Cookie: " + a, "Set-Cookie: " + b + (";" + attrs);
    assert [l1, l2][1..] == [l2];
    assert JoinLines([l2]) == l2 + "\r\n" + JoinLines([]);
  }

  lemma LineCaptureOf(v: string, rest: string)
    requires IsBareValue(v) && (rest != [] ==> rest[0] == ';')
    ensures LineCapture("Set-Cookie: " + v + rest) == [v]
  {
    MatchOf(v, rest, true);
  }

  lemma LineCapturesOfTwo(l1: string, l2: string)
    ensures LineCaptures([l1, l2]) == LineCapture(l1) + LineCapture(l2)
  {
    assert [l1, l2][1..] == [l2];
    assert LineCaptures([l2]) == LineCapture(l2) + LineCaptures([]);
  }

  lemma HeaderLineIsLine(v: string)
    requires IsLine(v)
    ensures IsLine("Set-Cookie: " + v)
  {
    var l := "Set-Cookie: " + v;
    assert forall i :: 12 <= i < |l| ==> l[i] == v[i - 12];
  }

  /** The corrected pattern finds both cookies. */
  lemma CorrectedFindsBothCookies(a: string, b: string, attrs: string)
    requires IsBareValue(a) && IsBareValue(b) && IsLine(attrs)
    ensures Captures(TwoCookieHeader(a, b, attrs)) == [a, b]
  {
    var l1, l2 := "Set-Cookie: " + a, "Set-Cookie: " + b + (";" + attrs);
    TwoCookieLines(a, b, attrs);
    HeaderLineIsLine(a);
    assert IsLine(b + (";" + attrs)) by {
      var t := b + (";" + attrs);
      assert forall i :: |b| + 1 <= i < |t| ==> t[i] == attrs[i - |b| - 1];
    }
    assert l2 == "Set-Cookie: " + (b + (";" + attrs));
    HeaderLineIsLine(b + (";" + attrs));
    var lines := [l1, l2];
    assert forall i :: 0 <= i < |lines| ==> IsLine(lines[i]);
    CapturesOfLines(lines);
    LineCaptureOf(a, "");
    assert l1 + "" == l1;
    LineCaptureOf(b, ";" + attrs);
    LineCapturesOfTwo(l1, l2);
  }
}
