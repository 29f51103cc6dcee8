/** Period windows and date strings of lib/logic/periodFilter.ts. */
module PeriodFilter {
  import opened Wrappers
  import opened Text
  import opened Calendar
  import opened StatusEngine

  datatype PeriodKey = Day1 | Days7 | Days21 | Days30 | Days365

  function PeriodKeyLiteral(k: PeriodKey): string {
    match k
    case Day1 => "1d"
    case Days7 => "7d"
    case Days21 => "21d"
    case Days30 => "30d"
    case Days365 => "365d"
  }

  /** A selectable period: key, display caption (`label`) and length in days. */
  datatype PeriodRange = PeriodRange(key: PeriodKey, caption: string, days: int)

  const PERIOD_RANGES: seq<PeriodRange> := [
    PeriodRange(Day1, "1日", 1),
    PeriodRange(Days7, "1週間", 7),
    PeriodRange(Days21, "3週間", 21),
    PeriodRange(Days30, "1ヶ月", 30),
    PeriodRange(Days365, "1年", 365)
  ]

  /** The catalogue lists five distinct keys with strictly increasing
      lengths, each key naming its own length in days. */
  lemma PeriodRangesShape()
    ensures |PERIOD_RANGES| == 5
    ensures forall i, j :: 0 <= i < j < |PERIOD_RANGES| ==>
              PERIOD_RANGES[i].days < PERIOD_RANGES[j].days
              && PeriodKeyLiteral(PERIOD_RANGES[i].key) != PeriodKeyLiteral(PERIOD_RANGES[j].key)
    ensures forall i :: 0 <= i < |PERIOD_RANGES| ==>
              PERIOD_RANGES[i].days > 0
              && PeriodKeyLiteral(PERIOD_RANGES[i].key) == NatToDecimal(PERIOD_RANGES[i].days) + "d"
    ensures PERIOD_RANGES[0].days == 1 && PERIOD_RANGES[1].days == 7 && PERIOD_RANGES[2].days == 21
    ensures PERIOD_RANGES[3].days == 30 && PERIOD_RANGES[4].days == 365
    ensures PeriodKeyLiteral(PERIOD_RANGES[2].key) == "21d"
  {
    assert NatToDecimal(21) == "21";
    assert NatToDecimal(30) == "30";
    assert NatToDecimal(365) == "365";
  }

  /** The error date-fns `format` throws for an invalid date ("Invalid time value"). */
  datatype DateError = InvalidTimeValue

  /** The year date-fns's `yyyy` token prints: the year of era, so 1 BC
      (astronomical year 0) prints as 1. */
  function EraYear(y: int): nat {
    if y > 0 then y else 1 - y
  }

  /** The `yyyy` field: the year of era padded to four digits (longer
      years print in full). */
  function YearField(y: int): (r: string)
    ensures |r| >= 4 && (EraYear(y) < 10000 <==> |r| == 4)
  {
    var e := EraYear(y);
    if e < 10000 then Digits4(e) else NatToDecimalTooLong(e); NatToDecimal(e)
  }

  /** The year field is date-fns's zero-padding of the year of era to width 4. */
  lemma YearFieldIsPadding(y: int)
    ensures YearField(y) == PadZeros(NatToDecimal(EraYear(y)), 4)
  {
    FixedWidthIsPadding(EraYear(y));
    if EraYear(y) >= 10000 {
      assert Pow10(4) == 10000;
      NatToDecimalTooLong(EraYear(y));
    }
  }

  /** `yyyyMmDd`: `format(date, "yyyy-MM-dd")`. */
  function YmdString(d: ValidDate): (r: string)
    ensures |r| >= 10 && (1 <= d.year <= 9999 ==> |r| == 10)
    ensures r[..|r| - 6] == YearField(d.year) && r[|r| - 6] == '-' && r[|r| - 3] == '-'
    ensures r[|r| - 5..|r| - 3] == Digits2(d.month) && r[|r| - 2..] == Digits2(d.day)
  {
    YearField(d.year) + "-" + Digits2(d.month) + "-" + Digits2(d.day)
  }

  /** The date `d - 1` days after the first of month `m` of year `y`: how
      the `Date` constructor reads a day field from 1 to 31. A day that
      exists in the month is read as it is; a day past the end of the month
      rolls over into the next month. */
  function MakeDay(y: int, m: int, d: int): (r: ValidDate)
    requires 1 <= m <= 12 && 1 <= d <= 31
    ensures ToDays(r) == ToDays(Date(y, m, 1)) + d - 1
    ensures d <= DaysInMonth(y, m) ==> r == Date(y, m, d)
  {
    if d <= DaysInMonth(y, m) then Date(y, m, d)
    else
      MonthStartStep(y, m);
      Date(y, m + 1, d - DaysInMonth(y, m))
  }

  /** Reading a day field is adding days to the first of the month. */
  lemma MakeDayIsAddDays(y: int, m: int, d: int)
    requires 1 <= m <= 12 && 1 <= d <= 31
    ensures MakeDay(y, m, d) == AddDays(Date(y, m, 1), d - 1)
  {
    DaysApart(MakeDay(y, m, d), Date(y, m, 1), d - 1);
  }

  /** A day field past the end of its month is not the day of the date it
      denotes: only in-month days are read as themselves. */
  lemma MakeDayKeepsDay(y: int, m: int, d: int)
    requires 1 <= m <= 12 && 1 <= d <= 31
    ensures MakeDay(y, m, d).day == d <==> d <= DaysInMonth(y, m)
    ensures MakeDay(y, m, d).year == y
  {
  }

  /** `parseYmd`: `new Date(s + "T00:00:00")` as V8 reads it, a local
      midnight. Ten characters "YYYY-MM-DD" of digits with a month from 1 to
      12 and a day from 1 to 31 give a date, the day rolling over past the
      end of its month; anything else is an invalid date (None). */
  function ParseYmd(s: string): (r: Option<ValidDate>)
    ensures r.Some? ==> |s| == 10 && s[4] == '-' && s[7] == '-'
    ensures r.Some? ==> AllDigits(s[..4]) && AllDigits(s[5..7]) && AllDigits(s[8..])
  {
    if |s| == 10 && s[4] == '-' && s[7] == '-'
       && AllDigits(s[..4]) && AllDigits(s[5..7]) && AllDigits(s[8..]) then
      var y, m, d := DecimalValue(s[..4]), DecimalValue(s[5..7]), DecimalValue(s[8..]);
      if 1 <= m <= 12 && 1 <= d <= 31 then Some(MakeDay(y, m, d)) else None
    else None
  }

  /** Formatting a date of years 1 to 9999 and parsing it back gives the same
      calendar day. */
  lemma YmdRoundTrip(d: ValidDate)
    requires 1 <= d.year <= 9999
    ensures ParseYmd(YmdString(d)) == Some(d)
  {
    ParseJoined(Digits4(d.year), Digits2(d.month), Digits2(d.day));
  }

  /** Conversely, a string `parseYmd` accepts with a year from 1 on is the
      formatting of the date it denotes exactly when its day field is that
      date's day: the accepted strings that did not roll over are exactly
      the canonical ones. */
  lemma ParseYmdCanonical(s: string, d: ValidDate)
    requires ParseYmd(s) == Some(d) && d.year >= 1
    ensures YmdString(d) == s <==> DecimalValue(s[8..]) == d.day
  {
    var y, m, dd := s[..4], s[5..7], s[8..];
    MakeDayKeepsDay(DecimalValue(y), DecimalValue(m), DecimalValue(dd));
    if DecimalValue(dd) == d.day {
      assert d == Date(DecimalValue(y), DecimalValue(m), DecimalValue(dd));
      Digits4Canonical(y);
      Digits2Canonical(m);
      Digits2Canonical(dd);
      SplitAtDashes(s);
    }
  }

  /** A 10-character string with dashes at 4 and 7 is its three fields
      joined by dashes. */
  lemma SplitAtDashes(s: string)
    requires |s| == 10 && s[4] == '-' && s[7] == '-'
    ensures s == s[..4] + "-" + s[5..7] + "-" + s[8..]
  {
    var t := s[..4] + "-" + s[5..7] + "-" + s[8..];
    assert |t| == 10;
    forall i | 0 <= i < 10 ensures s[i] == t[i] {
    }
  }

  /** Parsing three digit fields of widths 4, 2 and 2 joined by dashes reads
      each field's value, the day counted from the first of the month. */
  lemma ParseJoined(y: string, m: string, dd: string)
    requires |y| == 4 && |m| == 2 && |dd| == 2
    requires AllDigits(y) && AllDigits(m) && AllDigits(dd)
    ensures var s := y + "-" + m + "-" + dd;
      var mv, dv := DecimalValue(m), DecimalValue(dd);
      ParseYmd(s) == if 1 <= mv <= 12 && 1 <= dv <= 31
                     then Some(MakeDay(DecimalValue(y), mv, dv)) else None
  {
    var s := y + "-" + m + "-" + dd;
    assert |s| == 10 && s[4] == '-' && s[7] == '-';
    var ym := y + "-" + m;
    assert s[..7] == ym;
    assert s[..4] == ym[..4] == y;
    assert s[5..7] == ym[5..] == m;
    assert s[8..] == dd;
  }

  /** Distinct dates of years 1 to 9999 format to distinct strings. */
  lemma YmdInjective(a: ValidDate, b: ValidDate)
    requires 1 <= a.year <= 9999 && 1 <= b.year <= 9999
    ensures YmdString(a) == YmdString(b) <==> a == b
  {
    YmdRoundTrip(a);
    YmdRoundTrip(b);
  }

  /** The year-of-era convention makes 1 BC and AD 1 print alike. */
  lemma YearZeroPrintsAsOne()
    ensures YmdString(Date(0, 1, 1)) == YmdString(Date(1, 1, 1))
  {
  }

  /** `formatMd`: `format(parseYmd(s), "M/d")`, month and day without
      padding; an unparsable string makes `format` throw. */
  function FormatMd(s: string): (r: Result<string, DateError>)
    ensures r.Failure? <==> ParseYmd(s).None?
  {
    match ParseYmd(s)
    case None => Failure(InvalidTimeValue)
    case Some(d) => Success(NatToDecimal(d.month) + "/" + NatToDecimal(d.day))
  }

  /** For a formatted date, `formatMd` prints the month and the day in
      shortest decimal form: no leading zero, and each reads back as its
      number. */
  lemma FormatMdOfYmd(d: ValidDate)
    requires 1 <= d.year <= 9999
    ensures FormatMd(YmdString(d)) == Success(NatToDecimal(d.month) + "/" + NatToDecimal(d.day))
    ensures NatToDecimal(d.month)[0] != '0' && NatToDecimal(d.day)[0] != '0'
    ensures DecimalValue(NatToDecimal(d.month)) == d.month
    ensures DecimalValue(NatToDecimal(d.day)) == d.day
  {
    YmdRoundTrip(d);
    DecimalRoundTrip(d.month);
    DecimalRoundTrip(d.day);
  }

  /** The fixed-width fields of three numbers joined by dashes parse as
      `ParseJoined` reads them; the form the literal examples below take. */
  lemma ParseFields(s: string, y: nat, m: nat, d: nat)
    requires y < 10000 && m < 100 && d < 100
    requires s == Digits4(y) + "-" + Digits2(m) + "-" + Digits2(d)
    ensures ParseYmd(s) == if 1 <= m <= 12 && 1 <= d <= 31 then Some(MakeDay(y, m, d)) else None
  {
    ParseJoined(Digits4(y), Digits2(m), Digits2(d));
  }

  /** For every accepted string, `formatMd` prints the month and day of the
      date it denotes: the fields themselves when the day exists in the
      month, the next month and the excess days when it rolls over. */
  lemma FormatMdFields(s: string)
    requires ParseYmd(s).Some?
    ensures var y, m, dd := DecimalValue(s[..4]), DecimalValue(s[5..7]), DecimalValue(s[8..]);
            && 1 <= m <= 12 && 1 <= dd <= 31
            && (dd <= DaysInMonth(y, m) ==>
                  FormatMd(s) == Success(NatToDecimal(m) + "/" + NatToDecimal(dd)))
            && (dd > DaysInMonth(y, m) ==>
                  m < 12
                  && FormatMd(s) == Success(NatToDecimal(m + 1) + "/" + NatToDecimal(dd - DaysInMonth(y, m))))
  {
  }

  lemma Year2023Text()
    ensures Digits4(2023) == "2023"
  {
    assert Digits2(20) == "20" && Digits2(23) == "23";
  }

  lemma Year2024Text()
    ensures Digits4(2024) == "2024"
  {
    assert Digits2(20) == "20" && Digits2(24) == "24";
  }

  /** `formatMd` prints month and day without padding. */
  lemma FormatMdExample()
    ensures FormatMd("2024-03-05") == Success("3/5")
  {
    March5Text();
    ParsesAsWritten("2024-03-05", Date(2024, 3, 5));
    assert NatToDecimal(3) + "/" + NatToDecimal(5) == "3/5";
  }

  lemma FormatMdTwoDigits()
    ensures FormatMd("2024-12-25") == Success("12/25")
  {
    December25Text();
    ParsesAsWritten("2024-12-25", Date(2024, 12, 25));
    TwoDigitRendering();
  }

  lemma TwoDigitRendering()
    ensures NatToDecimal(12) + "/" + NatToDecimal(25) == "12/25"
  {
    assert NatToDecimal(12) == NatToDecimal(1) + "2" && NatToDecimal(25) == NatToDecimal(2) + "5";
  }

  lemma ParsesAsWritten(s: string, d: ValidDate)
    requires 1 <= d.year <= 9999 && YmdString(d) == s
    ensures ParseYmd(s) == Some(d)
  {
    YmdRoundTrip(d);
  }

  lemma March5Text()
    ensures YmdString(Date(2024, 3, 5)) == "2024-03-05"
  {
    Year2024Text();
    assert Digits2(3) == "03" && Digits2(5) == "05";
    assert YearField(2024) == "2024";
  }

  lemma December25Text()
    ensures YmdString(Date(2024, 12, 25)) == "2024-12-25"
  {
    Year2024Text();
    assert Digits2(12) == "12" && Digits2(25) == "25";
    assert YearField(2024) == "2024";
  }

  /** A thirteenth month does not parse, so `format` throws. */
  lemma FormatMdMonthThirteen()
    ensures FormatMd("2024-13-01") == Failure(InvalidTimeValue)
  {
    Year2024Text();
    assert Digits2(13) == "13" && Digits2(1) == "01";
    ParseFields("2024-13-01", 2024, 13, 1);
  }

  /** "2023-02-29" is read as 1 March 2023: 2023 is a common year. */
  lemma LeapDayRollsOver()
    ensures ParseYmd("2023-02-29") == Some(Date(2023, 3, 1))
  {
    Year2023Text();
    assert Digits2(2) == "02" && Digits2(29) == "29";
    ParseFields("2023-02-29", 2023, 2, 29);
    CommonYearLeapDay();
  }

  lemma CommonYearLeapDay()
    ensures MakeDay(2023, 2, 29) == Date(2023, 3, 1)
  {
    assert !IsLeapYear(2023);
  }

  /** 29 February of a common year rolls over to 1 March. */
  lemma FormatMdCommonYearLeapDay()
    ensures FormatMd("2023-02-29") == Success("3/1")
  {
    LeapDayRollsOver();
    assert NatToDecimal(3) + "/" + NatToDecimal(1) == "3/1";
  }

  /** A day field beyond 31 does not parse, so `format` throws. */
  lemma FormatMdDayThirtyTwo()
    ensures FormatMd("2024-01-32") == Failure(InvalidTimeValue)
  {
    Year2024Text();
    assert Digits2(1) == "01" && Digits2(32) == "32";
    ParseFields("2024-01-32", 2024, 1, 32);
  }

  /** The `days` calendar days ending at `end`, oldest first (none for
      days <= 0). */
  function DateWindow(end: ValidDate, days: int): (w: seq<ValidDate>)
    ensures |w| == if days > 0 then days else 0
    ensures forall i :: 0 <= i < |w| ==> ToDays(w[i]) == ToDays(end) - (days - 1) + i
    decreases days
  {
    if days <= 0 then []
    else DateWindow(AddDays(end, -1), days - 1) + [end]
  }

  /** A non-empty window starts `days - 1` days before `end` and ends at `end`. */
  lemma WindowEnds(end: ValidDate, days: int)
    requires days >= 1
    ensures DateWindow(end, days)[0] == AddDays(end, -(days - 1))
    ensures DateWindow(end, days)[days - 1] == end
  {
    var w := DateWindow(end, days);
    ToDaysInjective(w[0], AddDays(end, -(days - 1)));
    ToDaysInjective(w[days - 1], end);
  }

  /** Each day of a window is followed by the next calendar day. */
  lemma WindowConsecutive(end: ValidDate, days: int, i: int)
    requires 0 <= i < days - 1
    ensures DateWindow(end, days)[i + 1] == NextDay(DateWindow(end, days)[i])
  {
    var w := DateWindow(end, days);
    AddOneIsNextDay(w[i]);
    ToDaysInjective(w[i + 1], AddDays(w[i], 1));
  }

  /** A window is strictly increasing in calendar order, hence without repeats. */
  lemma WindowIncreasing(end: ValidDate, days: int, i: int, j: int)
    requires 0 <= i < j < days
    ensures Before(DateWindow(end, days)[i], DateWindow(end, days)[j])
    ensures DateWindow(end, days)[i] != DateWindow(end, days)[j]
  {
    var w := DateWindow(end, days);
    ToDaysOrder(w[i], w[j]);
  }

  /** Day `k` of a window is `k` days after its first day. */
  lemma WindowElement(end: ValidDate, days: int, k: int)
    requires 0 <= k < days
    ensures DateWindow(end, days)[k] == AddDays(AddDays(end, -(days - 1)), k)
  {
    ToDaysInjective(DateWindow(end, days)[k], AddDays(AddDays(end, -(days - 1)), k));
  }

  /** Moving a window's end moves each of its days by the same amount. */
  lemma WindowShift(end: ValidDate, days: int, shift: int, i: int)
    requires 0 <= i < days
    ensures DateWindow(AddDays(end, -shift), days)[i] == AddDays(DateWindow(end, days)[i], -shift)
  {
    WindowShiftDays(end, days, shift, i);
    DaysBack(DateWindow(AddDays(end, -shift), days)[i], DateWindow(end, days)[i], shift);
  }

  lemma WindowShiftDays(end: ValidDate, days: int, shift: int, i: int)
    requires 0 <= i < days
    ensures ToDays(DateWindow(AddDays(end, -shift), days)[i]) == ToDays(DateWindow(end, days)[i]) - shift
  {
  }

  /** Appending the image of the next element extends an elementwise image. */
  lemma MappedAppend<A, B>(ys: seq<B>, y: B, xs: seq<A>, f: A -> B, i: int)
    requires 0 <= i < |xs| && |ys| == i
    requires forall k :: 0 <= k < i ==> ys[k] == f(xs[k])
    requires y == f(xs[i])
    ensures forall k :: 0 <= k < i + 1 ==> (ys + [y])[k] == f(xs[k])
  {
  }

  /** `generateDateRange`: the "yyyy-MM-dd" strings of the window ending at
      `endDate`, built by stepping from its first day. */
  method GenerateDateRange(endDate: ValidDate, days: int) returns (dates: seq<string>)
    ensures |dates| == if days > 0 then days else 0
    ensures forall i :: 0 <= i < |dates| ==> dates[i] == YmdString(DateWindow(endDate, days)[i])
  {
    ghost var w := DateWindow(endDate, days);
    dates := [];
    var startDate := AddDays(endDate, -(days - 1));
    var i := 0;
    while i < days
      invariant 0 <= i && (days > 0 ==> i <= days) && (days <= 0 ==> i == 0)
      invariant |dates| == i
      invariant forall k :: 0 <= k < i ==> dates[k] == YmdString(w[k])
    {
      var day := AddDays(startDate, i);
      var text := YmdString(day);
      assert forall k :: 0 <= k < i + 1 ==> (dates + [text])[k] == YmdString(w[k]) by {
        WindowElement(endDate, days, i);
        MappedAppend(dates, text, w, YmdString, i);
      }
      dates := dates + [text];
      i := i + 1;
    }
  }

  /** Within years 1 to 9999 the strings of a window are pairwise distinct. */
  lemma WindowStringsDistinct(end: ValidDate, days: int, i: int, j: int)
    requires 0 <= i < j < days
    requires 1 <= DateWindow(end, days)[i].year <= 9999
    requires 1 <= DateWindow(end, days)[j].year <= 9999
    ensures YmdString(DateWindow(end, days)[i]) != YmdString(DateWindow(end, days)[j])
  {
    WindowIncreasing(end, days, i, j);
    YmdInjective(DateWindow(end, days)[i], DateWindow(end, days)[j]);
  }

  /** `toScoreFatigue`: 高 3, 中 2, 低 1. */
  function ToScoreFatigue(v: FatigueLevel): (n: int)
    ensures 1 <= n <= 3
  {
    if v == High then 3 else if v == Medium then 2 else 1
  }

  /** `toScoreSleep`: 悪 3, 普通 2, 良 1 (worse sleep scores higher). */
  function ToScoreSleep(v: SleepQuality): (n: int)
    ensures 1 <= n <= 3
  {
    if v == Poor then 3 else if v == Fair then 2 else 1
  }

  /** The chart scores follow the tier orders strictly, and each is one more
      than the status engine's points for the same tier. */
  lemma ScoresOrderPreserving(a: FatigueLevel, b: FatigueLevel, p: SleepQuality, q: SleepQuality)
    ensures ToScoreFatigue(a) < ToScoreFatigue(b) <==> FatigueRank(a) < FatigueRank(b)
    ensures ToScoreSleep(p) < ToScoreSleep(q) <==> SleepRank(p) < SleepRank(q)
    ensures ToScoreFatigue(a) == FatiguePoints(a) + 1
    ensures ToScoreSleep(p) == SleepPoints(p) + 1
  {
  }
}
