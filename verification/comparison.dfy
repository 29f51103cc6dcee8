/** Comparison periods of lib/logic/comparison.ts: the previous period of the
    same length, or the same window 365 days earlier. */
module Comparison {
  import opened Wrappers
  import opened Calendar
  import opened PeriodFilter
  import opened Text

  datatype ComparisonKey = NoComparison | Prev | Yoy

  function ComparisonKeyLiteral(k: ComparisonKey): string {
    match k
    case NoComparison => "none"
    case Prev => "prev"
    case Yoy => "yoy"
  }

  /** A selectable comparison: key and display caption (`label`). */
  datatype ComparisonOption = ComparisonOption(key: ComparisonKey, caption: string)

  const COMPARISON_OPTIONS: seq<ComparisonOption> := [
    ComparisonOption(NoComparison, "比較なし"),
    ComparisonOption(Prev, "前期間と比較"),
    ComparisonOption(Yoy, "去年と比較")
  ]

  /** The option list offers every key exactly once, "none" first. */
  lemma ComparisonOptionsShape()
    ensures |COMPARISON_OPTIONS| == 3
    ensures COMPARISON_OPTIONS[0].key == NoComparison
    ensures COMPARISON_OPTIONS[1].key == Prev && COMPARISON_OPTIONS[2].key == Yoy
    ensures forall i, j :: 0 <= i < j < |COMPARISON_OPTIONS| ==>
              COMPARISON_OPTIONS[i].key != COMPARISON_OPTIONS[j].key
              && ComparisonKeyLiteral(COMPARISON_OPTIONS[i].key) != ComparisonKeyLiteral(COMPARISON_OPTIONS[j].key)
  {
  }

  /** `getComparisonShiftDays`: how many days the comparison window lies
      before the current one. */
  function GetComparisonShiftDays(compareKey: ComparisonKey, periodDays: int): (n: int)
    ensures compareKey == Prev ==> n == periodDays
    ensures compareKey == Yoy ==> n == 365
    ensures compareKey == NoComparison ==> n == 0
  {
    if compareKey == Prev then periodDays
    else if compareKey == Yoy then 365
    else 0
  }

  /** `getComparisonDate`: the date the comparison window ends on, or None
      without a comparison. The date is parsed only when a comparison is
      asked for; an unparsable date then makes formatting fail. */
  function GetComparisonDate(date: string, compareKey: ComparisonKey, periodDays: int)
    : (r: Result<Option<string>, DateError>)
    ensures compareKey == NoComparison <==> r == Success(None)
    ensures r.Failure? <==> compareKey != NoComparison && ParseYmd(date).None?
  {
    if compareKey == NoComparison then Success(None)
    else
      match ParseYmd(date)
      case None => Failure(InvalidTimeValue)
      case Some(baseDate) =>
        if compareKey == Prev then Success(Some(ShiftedYmd(baseDate, periodDays)))
        else Success(Some(ShiftedYmd(baseDate, 365)))
  }

  /** `yyyyMmDd(addDays(baseDate, -days))`. */
  function ShiftedYmd(baseDate: ValidDate, days: int): (r: string)
    ensures var t := AddDays(baseDate, -days);
            1 <= t.year <= 9999 ==> ParseYmd(r) == Some(t)
  {
    var t := AddDays(baseDate, -days);
    if 1 <= t.year <= 9999 then YmdRoundTrip(t); YmdString(t) else YmdString(t)
  }

  /** The comparison date is the base date moved back by the shift days, so
      the two functions agree for every key. */
  lemma ComparisonDateMatchesShift(date: string, compareKey: ComparisonKey, periodDays: int, base: ValidDate)
    requires compareKey != NoComparison && ParseYmd(date) == Some(base)
    ensures GetComparisonDate(date, compareKey, periodDays)
            == Success(Some(ShiftedYmd(base, GetComparisonShiftDays(compareKey, periodDays))))
  {
  }

  /** The year-on-year date ignores the period length. */
  lemma YoyIgnoresPeriod(date: string, p: int, q: int)
    ensures GetComparisonDate(date, Yoy, p) == GetComparisonDate(date, Yoy, q)
  {
  }

  /** The comparison date, when its year is within 1 to 9999, parses back to
      exactly the shift's number of days before the base date. */
  lemma ComparisonDateParses(date: string, compareKey: ComparisonKey, periodDays: int, base: ValidDate)
    requires compareKey != NoComparison && ParseYmd(date) == Some(base)
    requires 1 <= AddDays(base, -GetComparisonShiftDays(compareKey, periodDays)).year <= 9999
    ensures var r := GetComparisonDate(date, compareKey, periodDays);
            r.Success? && r.value.Some? && ParseYmd(r.value.value).Some?
            && ToDays(ParseYmd(r.value.value).value)
               == ToDays(base) - GetComparisonShiftDays(compareKey, periodDays)
  {
    var shifted := AddDays(base, -GetComparisonShiftDays(compareKey, periodDays));
    ComparisonDateMatchesShift(date, compareKey, periodDays, base);
    YmdRoundTrip(shifted);
  }

  /** 365 days before 1 March lands on 1 March of the year before, except
      when a 29 February lies between them: then it lands on 2 March. */
  lemma YearBackFromMarch(y: int)
    ensures AddDays(Date(y + 1, 3, 1), -365)
            == if IsLeapYear(y + 1) then Date(y, 3, 2) else Date(y, 3, 1)
  {
    YearStartSucc(y);
    var target: ValidDate := if IsLeapYear(y + 1) then Date(y, 3, 2) else Date(y, 3, 1);
    assert ToDays(target) == ToDays(Date(y + 1, 3, 1)) - 365;
    ToDaysInjective(AddDays(Date(y + 1, 3, 1), -365), target);
  }

  /** "Last year" is 365 days back, not the same calendar date: from 1 March
      of a leap year it gives 2 March of the year before. */
  lemma YoyAcrossLeapDay(y: int, periodDays: int)
    requires 1 <= y <= 9998
    ensures GetComparisonDate(YmdString(Date(y + 1, 3, 1)), Yoy, periodDays)
            == Success(Some(YmdString(if IsLeapYear(y + 1) then Date(y, 3, 2) else Date(y, 3, 1))))
  {
    YmdRoundTrip(Date(y + 1, 3, 1));
    YearBackFromMarch(y);
  }

  /** A rolled-over base date is compared from the day it rolled over to:
      "2023-02-29" is 1 March 2023, and 365 days before it is 1 March 2022. */
  lemma YoyFromRolledOverDate(periodDays: int)
    ensures GetComparisonDate("2023-02-29", Yoy, periodDays) == Success(Some("2022-03-01"))
  {
    LeapDayRollsOver();
    YearBackFromCommonMarch();
    MarchFirstText();
  }

  lemma YearBackFromCommonMarch()
    ensures AddDays(Date(2023, 3, 1), -365) == Date(2022, 3, 1)
  {
    YearBackFromMarch(2022);
    assert !IsLeapYear(2023);
  }

  lemma MarchFirstText()
    ensures YmdString(Date(2022, 3, 1)) == "2022-03-01"
  {
    assert Digits4(2022) == "2022" by {
      Year2022Text();
    }
    assert Digits2(3) == "03" && Digits2(1) == "01";
    assert YearField(2022) == "2022";
  }

  lemma Year2022Text()
    ensures Digits4(2022) == "2022"
  {
    assert Digits2(20) == "20" && Digits2(22) == "22";
  }

  /** The previous-period window ends the day before the current window
      starts: the two windows are adjacent and do not overlap. */
  lemma PrevWindowAdjacent(end: ValidDate, days: int)
    requires days >= 1
    ensures var prev := DateWindow(AddDays(end, -GetComparisonShiftDays(Prev, days)), days);
            NextDay(prev[days - 1]) == DateWindow(end, days)[0]
  {
    var shift := GetComparisonShiftDays(Prev, days);
    assert shift == days;
    WindowEnds(AddDays(end, -shift), days);
    WindowEnds(end, days);
    NextOfAddDays(end, -shift, -(days - 1));
    NextOfEqual(DateWindow(AddDays(end, -shift), days)[days - 1], AddDays(end, -shift),
                DateWindow(end, days)[0], AddDays(end, -(days - 1)));
  }

  /** `NextDay` carried over equal dates. */
  lemma NextOfEqual(p: ValidDate, a: ValidDate, c: ValidDate, b: ValidDate)
    requires p == a && c == b && NextDay(a) == b
    ensures NextDay(p) == c
  {
  }

  /** The day after `days` days back is `days - 1` days back. */
  lemma StepAfterShift(end: ValidDate, days: int)
    ensures NextDay(AddDays(end, -days)) == AddDays(end, -(days - 1))
  {
    NextOfAddDays(end, -days, -(days - 1));
  }

  /** Each day of a comparison window is the matching day of the current
      window moved back by the shift. */
  lemma ComparisonWindowShift(end: ValidDate, days: int, compareKey: ComparisonKey, i: int)
    requires 0 <= i < days
    ensures DateWindow(AddDays(end, -GetComparisonShiftDays(compareKey, days)), days)[i]
            == AddDays(DateWindow(end, days)[i], -GetComparisonShiftDays(compareKey, days))
  {
    WindowShift(end, days, GetComparisonShiftDays(compareKey, days), i);
  }
}
