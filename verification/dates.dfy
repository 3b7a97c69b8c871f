/** The date text the document-list request sends: PHP's
    `DateTime::format('Y-m-d\TH:i:s.000\Z')`. The fields are the wall-clock
    fields of the DateTime in its own time zone; the `Z` is a literal letter
    and no conversion to UTC takes place. */
module Dates {
  import opened Decimal

  /** The calendar and clock fields of a PHP DateTime, as its time zone shows them. */
  datatype DateTime = DateTime(year: int, month: nat, day: nat, hour: nat, minute: nat, second: nat)

  predicate Valid(d: DateTime) {
    1 <= d.month <= 12 && 1 <= d.day <= 31 && d.hour < 24 && d.minute < 60 && d.second < 60
  }

  /** `Y`: at least four digits, with `-` before a year before year 0. */
  function YearText(y: int): (s: string)
    ensures y >= 0 ==> |s| >= 4 && AllDigits(s) && Value(s) == y
    ensures y < 0 ==> |s| >= 5 && s[0] == '-' && AllDigits(s[1..]) && Value(s[1..]) == -y
  {
    if y < 0 then
      PadAtLeast(-y, 4);
      var s := "-" + Pad(-y, 4);
      assert s[1..] == Pad(-y, 4);
      s
    else
      PadAtLeast(y, 4);
      Pad(y, 4)
  }

  /** `Y-m-d`. */
  function DateText(d: DateTime): string {
    YearText(d.year) + "-" + Pad(d.month, 2) + "-" + Pad(d.day, 2)
  }

  /** `H:i:s`. */
  function TimeText(d: DateTime): string {
    Pad(d.hour, 2) + ":" + Pad(d.minute, 2) + ":" + Pad(d.second, 2)
  }

  /** `Y-m-d\TH:i:s.000\Z`: year, month, day, hour, minute and second, the
      last five as two digits, then a literal `.000Z`. */
  function FormatDate(d: DateTime): string {
    DateText(d) + "T" + TimeText(d) + ".000Z"
  }

  /** A two-digit field: two characters, the value back. */
  lemma TwoDigits(n: nat)
    requires n < 100
    ensures |Pad(n, 2)| == 2 && Value(Pad(n, 2)) == n
  {
    PadValue(n, 2);
  }

  lemma FourDigits(n: nat)
    requires n < 10000
    ensures |Pad(n, 4)| == 4 && Value(Pad(n, 4)) == n
  {
    assert Pow10(4) == 10000;
    PadValue(n, 4);
  }

  /** The middle piece of a concatenation. */
  lemma Middle(x: string, f: string, z: string)
    ensures (x + f + z)[|x|..|x| + |f|] == f
  {
  }

  lemma DateFields(d: DateTime)
    requires Valid(d) && 0 <= d.year <= 9999
    ensures var s := DateText(d);
      && |s| == 10 && s[4] == '-' && s[7] == '-'
      && AllDigits(s[0..4]) && Value(s[0..4]) == d.year
      && AllDigits(s[5..7]) && Value(s[5..7]) == d.month
      && AllDigits(s[8..10]) && Value(s[8..10]) == d.day
  {
    var y, mo, da := Pad(d.year, 4), Pad(d.month, 2), Pad(d.day, 2);
    FourDigits(d.year);
    TwoDigits(d.month);
    TwoDigits(d.day);
    assert DateText(d) == y + "-" + mo + "-" + da;
    assert DateText(d)[0..4] == y;
    assert DateText(d)[..7] == y + "-" + mo;
    assert (y + "-" + mo)[5..7] == mo;
    assert DateText(d)[8..10] == da;
  }

  lemma TimeFields(d: DateTime)
    requires Valid(d)
    ensures var s := TimeText(d);
      && |s| == 8 && s[2] == ':' && s[5] == ':'
      && AllDigits(s[0..2]) && Value(s[0..2]) == d.hour
      && AllDigits(s[3..5]) && Value(s[3..5]) == d.minute
      && AllDigits(s[6..8]) && Value(s[6..8]) == d.second
  {
    var h, mi, se := Pad(d.hour, 2), Pad(d.minute, 2), Pad(d.second, 2);
    TwoDigits(d.hour);
    TwoDigits(d.minute);
    TwoDigits(d.second);
    assert TimeText(d)[0..2] == h;
    assert TimeText(d)[..5] == h + ":" + mi;
    assert (h + ":" + mi)[3..5] == mi;
    assert TimeText(d)[6..8] == se;
  }

  /** For a valid date of the years 0 to 9999 the text has the fixed layout
      `YYYY-MM-DDTHH:MM:SS.000Z` (24 characters) and each digit group gives
      its field back. */
  lemma FormatDateLayout(d: DateTime)
    requires Valid(d) && 0 <= d.year <= 9999
    ensures var s := FormatDate(d);
      && |s| == 24
      && s[4] == '-' && s[7] == '-' && s[10] == 'T' && s[13] == ':' && s[16] == ':'
      && s[19..] == ".000Z"
      && AllDigits(s[0..4]) && Value(s[0..4]) == d.year
      && AllDigits(s[5..7]) && Value(s[5..7]) == d.month
      && AllDigits(s[8..10]) && Value(s[8..10]) == d.day
      && AllDigits(s[11..13]) && Value(s[11..13]) == d.hour
      && AllDigits(s[14..16]) && Value(s[14..16]) == d.minute
      && AllDigits(s[17..19]) && Value(s[17..19]) == d.second
  {
    FormatDateParts(d);
    DateFields(d);
    TimeFields(d);
    LayoutOfParts(FormatDate(d), DateText(d), TimeText(d));
  }

  /** Where the pieces of the date and of the time sit in the full text. */
  lemma LayoutOfParts(s: string, date: string, time: string)
    requires |s| == 24 && |date| == 10 && |time| == 8 && s[..10] == date && s[11..19] == time
    ensures s[0..4] == date[0..4] && s[5..7] == date[5..7] && s[8..10] == date[8..10]
    ensures s[4] == date[4] && s[7] == date[7]
    ensures s[11..13] == time[0..2] && s[14..16] == time[3..5] && s[17..19] == time[6..8]
    ensures s[13] == time[2] && s[16] == time[5]
  {
    SliceOfSlice(s, 0, 10, 0, 4);
    SliceOfSlice(s, 0, 10, 5, 7);
    SliceOfSlice(s, 0, 10, 8, 10);
    SliceOfSlice(s, 11, 19, 0, 2);
    SliceOfSlice(s, 11, 19, 3, 5);
    SliceOfSlice(s, 11, 19, 6, 8);
    assert s[4] == s[..10][4] && s[7] == s[..10][7];
    assert s[13] == s[11..19][2] && s[16] == s[11..19][5];
  }

  /** The date, the `T`, the time and the `.000Z` in their places. */
  lemma FormatDateParts(d: DateTime)
    requires Valid(d) && 0 <= d.year <= 9999
    ensures var s := FormatDate(d);
      && |s| == 24 && s[..10] == DateText(d) && s[10] == 'T'
      && s[11..19] == TimeText(d) && s[19..] == ".000Z"
  {
    var s, date, time := FormatDate(d), DateText(d), TimeText(d);
    DateFields(d);
    TimeFields(d);
    assert s[..10] == date;
    Middle(date + "T", time, ".000Z");
  }

  lemma SliceOfSlice<T>(s: seq<T>, a: nat, b: nat, i: nat, j: nat)
    requires a <= b <= |s| && i <= j <= b - a
    ensures s[a..b][i..j] == s[a + i..a + j]
  {
    forall k | 0 <= k < j - i
      ensures s[a..b][i..j][k] == s[a + i..a + j][k]
    {
      assert s[a..b][i..j][k] == s[a..b][i + k] == s[a + i + k];
    }
  }

  /** Different valid dates of the years 0 to 9999 give different texts. */
  lemma FormatDateInjective(d: DateTime, e: DateTime)
    requires Valid(d) && 0 <= d.year <= 9999
    requires Valid(e) && 0 <= e.year <= 9999
    requires FormatDate(d) == FormatDate(e)
    ensures d == e
  {
    FormatDateLayout(d);
    FormatDateLayout(e);
  }
}
