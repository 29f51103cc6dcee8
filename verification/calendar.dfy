/** Proleptic Gregorian calendar days, the date model behind `Date`/date-fns
    as the modelled code uses them (local midnight, no time of day).

    A day is numbered by its distance from 1970-01-01; `ToDays` and
    `FromDays` are mutually inverse between valid dates and integers, so
    that adding days is adding integers. */
module Calendar {

  datatype Date = Date(year: int, month: int, day: int)

  predicate IsLeapYear(y: int) {
    y % 4 == 0 && (y % 100 != 0 || y % 400 == 0)
  }

  function DaysInMonth(y: int, m: int): (n: int)
    requires 1 <= m <= 12
    ensures 28 <= n <= 31
  {
    if m == 2 then (if IsLeapYear(y) then 29 else 28)
    else if m == 4 || m == 6 || m == 9 || m == 11 then 30
    else 31
  }

  function DaysInYear(y: int): int {
    if IsLeapYear(y) then 366 else 365
  }

  /** A month 1..12 and a day that exists in that month. */
  predicate IsValid(d: Date) {
    1 <= d.month <= 12 && 1 <= d.day <= DaysInMonth(d.year, d.month)
  }

  type ValidDate = d: Date | IsValid(d) witness Date(1970, 1, 1)

  /** The number of days of year `y` before the first of month `m`
      (`m == 13` gives the length of the year). */
  function MonthStart(y: int, m: int): (n: int)
    requires 1 <= m <= 13
    ensures m == 1 ==> n == 0
    ensures m == 13 ==> n == DaysInYear(y)
  {
    var leap := if IsLeapYear(y) && m >= 3 then 1 else 0;
    leap + (
      if m == 1 then 0 else if m == 2 then 31 else if m == 3 then 59
      else if m == 4 then 90 else if m == 5 then 120 else if m == 6 then 151
      else if m == 7 then 181 else if m == 8 then 212 else if m == 9 then 243
      else if m == 10 then 273 else if m == 11 then 304 else if m == 12 then 334
      else 365)
  }

  /** Consecutive months start one month length apart. */
  lemma MonthStartStep(y: int, m: int)
    requires 1 <= m <= 12
    ensures MonthStart(y, m + 1) == MonthStart(y, m) + DaysInMonth(y, m)
  {
  }

  /** Later months start no earlier than the month after an earlier one. */
  lemma {:induction false} MonthStartMonotone(y: int, a: int, b: int)
    requires 1 <= a < b <= 13
    ensures MonthStart(y, a + 1) <= MonthStart(y, b)
    decreases b - a
  {
    if b > a + 1 {
      MonthStartMonotone(y, a, b - 1);
      MonthStartStep(y, b - 1);
    }
  }

  /** Each day of a year belongs to at most one month. */
  lemma InMonthUnique(y: int, a: int, b: int, doy: int)
    requires 1 <= a <= 12 && 1 <= b <= 12
    requires MonthStart(y, a) <= doy < MonthStart(y, a + 1)
    requires MonthStart(y, b) <= doy < MonthStart(y, b + 1)
    ensures a == b
  {
    if a < b {
      MonthStartMonotone(y, a, b);
    } else if b < a {
      MonthStartMonotone(y, b, a);
    }
  }

  /** The number of leap years in [0, y) (negative for y < 0). */
  function LeapsBefore(y: int): int {
    (y + 3) / 4 - (y + 99) / 100 + (y + 399) / 400
  }

  /** The day number of January 1st of year `y`; 1970-01-01 is day 0. */
  function YearStart(y: int): int {
    365 * y + LeapsBefore(y) - 719528
  }

  lemma YearStartEpoch()
    ensures YearStart(1970) == 0
  {
  }

  /** Crossing a multiple of 4, 100 or 400 adds one to the count of such
      multiples below. */
  lemma CountStep4(y: int)
    ensures (y + 4) / 4 - (y + 3) / 4 == if y % 4 == 0 then 1 else 0
  {
  }

  lemma CountStep100(y: int)
    ensures (y + 100) / 100 - (y + 99) / 100 == if y % 100 == 0 then 1 else 0
  {
  }

  lemma CountStep400(y: int)
    ensures (y + 400) / 400 - (y + 399) / 400 == if y % 400 == 0 then 1 else 0
  {
  }

  /** Multiples of 400 are multiples of 100, and those are multiples of 4. */
  lemma MultipleNesting(y: int)
    ensures y % 100 == 0 ==> y % 4 == 0
    ensures y % 400 == 0 ==> y % 100 == 0
  {
    if y % 100 == 0 {
      var k := y / 100;
      assert y == 4 * (25 * k);
    }
    if y % 400 == 0 {
      var k := y / 400;
      assert y == 100 * (4 * k);
    }
  }

  /** Consecutive years start exactly one year length apart. */
  lemma YearStartSucc(y: int)
    ensures YearStart(y + 1) == YearStart(y) + DaysInYear(y)
  {
    CountStep4(y);
    CountStep100(y);
    CountStep400(y);
    MultipleNesting(y);
    var step := (y + 4) / 4 - (y + 3) / 4 - ((y + 100) / 100 - (y + 99) / 100)
                + ((y + 400) / 400 - (y + 399) / 400);
    assert LeapsBefore(y + 1) == LeapsBefore(y) + step;
    assert step == if IsLeapYear(y) then 1 else 0;
  }

  /** Year starts follow the mean Gregorian year of 146097/400 days to within
      two days. */
  lemma YearStartEstimate(y: int)
    ensures 146097 * y - 396 <= 400 * (YearStart(y) + 719528) <= 146097 * y + 699
  {
    var a, b, c := (y + 3) / 4, (y + 99) / 100, (y + 399) / 400;
    assert y <= 4 * a <= y + 3;
    assert y <= 100 * b <= y + 99;
    assert y <= 400 * c <= y + 399;
  }

  /** A later year starts no earlier than the year after an earlier one. */
  lemma YearStartMonotone(a: int, b: int)
    requires a < b
    ensures YearStart(a + 1) <= YearStart(b)
  {
    if b > a + 1 {
      YearStartEstimate(a + 1);
      YearStartEstimate(b);
      YearStartSucc(a);
    }
  }

  predicate InYear(y: int, z: int) {
    YearStart(y) <= z < YearStart(y + 1)
  }

  /** Each day belongs to at most one year. */
  lemma InYearUnique(a: int, b: int, z: int)
    requires InYear(a, z) && InYear(b, z)
    ensures a == b
  {
    if a < b {
      YearStartMonotone(a, b);
    } else if b < a {
      YearStartMonotone(b, a);
    }
  }

  /** The year that day `z` falls in. */
  function YearOf(z: int): (y: int)
    ensures InYear(y, z)
  {
    var est := (400 * (z + 719528)) / 146097;
    YearStartEstimate(est - 1);
    YearStartEstimate(est + 2);
    YearStartSucc(est - 1);
    YearStartSucc(est);
    YearStartSucc(est + 1);
    if z < YearStart(est) then est - 1
    else if z < YearStart(est + 1) then est
    else est + 1
  }

  /** The month of year `y` (searching down from month `m`) holding day-of-year `doy`. */
  function MonthOf(y: int, doy: int, m: int): (r: int)
    requires 1 <= m <= 12 && 0 <= doy < MonthStart(y, m + 1)
    ensures 1 <= r <= m
    ensures MonthStart(y, r) <= doy < MonthStart(y, r + 1)
    decreases m
  {
    if m == 1 || MonthStart(y, m) <= doy then m else MonthOf(y, doy, m - 1)
  }

  /** The day number of a date. */
  function ToDays(d: ValidDate): int {
    YearStart(d.year) + MonthStart(d.year, d.month) + d.day - 1
  }

  /** The date of a day number: the only valid date numbered `z`. */
  function FromDays(z: int): (d: ValidDate)
    ensures ToDays(d) == z
  {
    DayHasDate(z);
    ToDaysInjectiveAll();
    var d: ValidDate :| ToDays(d) == z;
    d
  }

  /** Every day number belongs to a date, found from its year and day of year. */
  lemma DayHasDate(z: int)
    ensures exists d: ValidDate :: ToDays(d) == z
  {
    var y := YearOf(z);
    YearStartSucc(y);
    var d := DateInYear(y, z - YearStart(y));
    assert ToDays(d) == z;
  }

  lemma ToDaysInjectiveAll()
    ensures forall a: ValidDate, b: ValidDate :: ToDays(a) == ToDays(b) ==> a == b
  {
    forall a: ValidDate, b: ValidDate | ToDays(a) == ToDays(b) ensures a == b {
      ToDaysInjective(a, b);
    }
  }

  /** The date of day `doy` (counted from 0) of year `y`. */
  function DateInYear(y: int, doy: int): (d: ValidDate)
    requires 0 <= doy < DaysInYear(y)
    ensures d.year == y && MonthStart(y, d.month) + d.day - 1 == doy
  {
    var m := MonthOf(y, doy, 12);
    MonthStartStep(y, m);
    Date(y, m, doy - MonthStart(y, m) + 1)
  }

  /** A date lies in its own year. */
  lemma ToDaysInYear(d: ValidDate)
    ensures InYear(d.year, ToDays(d))
  {
    YearStartSucc(d.year);
    MonthStartStep(d.year, d.month);
    MonthStartMonotone(d.year, d.month, 13);
  }

  /** Distinct dates have distinct day numbers. */
  lemma ToDaysInjective(a: ValidDate, b: ValidDate)
    ensures ToDays(a) == ToDays(b) <==> a == b
  {
    if ToDays(a) == ToDays(b) {
      var z := ToDays(a);
      ToDaysInYear(a);
      ToDaysInYear(b);
      InYearUnique(a.year, b.year, z);
      SameYearInjective(a, b);
    }
  }

  /** Within one year, the day of the year determines month and day. */
  lemma SameYearInjective(a: ValidDate, b: ValidDate)
    requires a.year == b.year
    requires MonthStart(a.year, a.month) + a.day == MonthStart(b.year, b.month) + b.day
    ensures a == b
  {
    MonthStartStep(a.year, a.month);
    MonthStartStep(b.year, b.month);
    InMonthUnique(a.year, a.month, b.month, MonthStart(a.year, a.month) + a.day - 1);
  }

  /** Numbering and un-numbering a date gives the date back. */
  lemma FromToDays(d: ValidDate)
    ensures FromDays(ToDays(d)) == d
  {
    ToDaysInjective(FromDays(ToDays(d)), d);
  }

  /** date-fns `addDays`: the date `n` days after `d` (before it for n < 0). */
  function AddDays(d: ValidDate, n: int): (r: ValidDate)
    ensures ToDays(r) == ToDays(d) + n
  {
    FromDays(ToDays(d) + n)
  }

  /** The following calendar day, by the rules of the calendar alone. */
  function NextDay(d: ValidDate): ValidDate {
    if d.day < DaysInMonth(d.year, d.month) then Date(d.year, d.month, d.day + 1)
    else if d.month < 12 then Date(d.year, d.month + 1, 1)
    else Date(d.year + 1, 1, 1)
  }

  /** Adding one day is stepping to the next calendar day. */
  lemma AddOneIsNextDay(d: ValidDate)
    ensures AddDays(d, 1) == NextDay(d)
  {
    var n := NextDay(d);
    MonthStartStep(d.year, d.month);
    if d.day == DaysInMonth(d.year, d.month) && d.month == 12 {
      YearStartSucc(d.year);
    }
    assert ToDays(n) == ToDays(d) + 1;
    ToDaysInjective(AddDays(d, 1), n);
  }

  /** The day after the date `n` days on from `d` is the date `m == n + 1`
      days on. */
  lemma NextOfAddDays(d: ValidDate, n: int, m: int)
    requires m == n + 1
    ensures NextDay(AddDays(d, n)) == AddDays(d, m)
  {
    NextDayNumber(AddDays(d, n));
    DaysApart(NextDay(AddDays(d, n)), d, m);
  }

  /** A date whose day number is `n` more than that of `d` is `n` days after `d`. */
  lemma DaysApart(r: ValidDate, d: ValidDate, n: int)
    requires ToDays(r) == ToDays(d) + n
    ensures r == AddDays(d, n)
  {
    ToDaysInjective(r, AddDays(d, n));
  }

  /** The next calendar day carries the next day number. */
  lemma NextDayNumber(d: ValidDate)
    ensures ToDays(NextDay(d)) == ToDays(d) + 1
  {
    AddOneIsNextDay(d);
  }

  /** The same, counting backwards. */
  lemma DaysBack(r: ValidDate, d: ValidDate, n: int)
    requires ToDays(r) == ToDays(d) - n
    ensures r == AddDays(d, -n)
  {
    DaysApart(r, d, -n);
  }

  lemma AddZero(d: ValidDate)
    ensures AddDays(d, 0) == d
  {
    FromToDays(d);
  }

  /** Shifts compose by adding their lengths. */
  lemma AddDaysAdd(d: ValidDate, a: int, b: int)
    ensures AddDays(AddDays(d, a), b) == AddDays(d, a + b)
  {
    ToDaysInjective(AddDays(AddDays(d, a), b), AddDays(d, a + b));
  }

  /** Calendar order: earlier year, then earlier month, then earlier day. */
  predicate Before(a: Date, b: Date) {
    a.year < b.year
    || (a.year == b.year && a.month < b.month)
    || (a.year == b.year && a.month == b.month && a.day < b.day)
  }

  /** A date of an earlier year has a smaller day number. */
  lemma EarlierYearOrder(a: ValidDate, b: ValidDate)
    requires a.year < b.year
    ensures ToDays(a) < ToDays(b)
  {
    ToDaysInYear(a);
    ToDaysInYear(b);
    YearStartMonotone(a.year, b.year);
  }

  /** A date of an earlier month of the same year has a smaller day number. */
  lemma EarlierMonthOrder(a: ValidDate, b: ValidDate)
    requires a.year == b.year && a.month < b.month
    ensures ToDays(a) < ToDays(b)
  {
    MonthStartStep(a.year, a.month);
    MonthStartMonotone(a.year, a.month, b.month);
  }

  /** Day numbers follow calendar order. */
  lemma ToDaysOrder(a: ValidDate, b: ValidDate)
    ensures Before(a, b) <==> ToDays(a) < ToDays(b)
  {
    if a.year < b.year {
      EarlierYearOrder(a, b);
    } else if b.year < a.year {
      EarlierYearOrder(b, a);
    } else if a.month < b.month {
      EarlierMonthOrder(a, b);
    } else if b.month < a.month {
      EarlierMonthOrder(b, a);
    }
  }
}
