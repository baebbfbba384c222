/** The calendar that scheduling in desktop/heartbeat.go asks of Go's time package,
    in a zone with a fixed offset: the proleptic Gregorian calendar, Date with its
    normalisation of overflowing months and days, and AddDate. A local time is a
    number of milliseconds, a day the number of days since 1970-01-01, and month k
    is month k % 12 + 1 of year k / 12. */
module HeartbeatCalendar {

  const MINUTE := 60_000
  const DAY := 86_400_000

  predicate IsLeap(year: int) {
    year % 4 == 0 && (year % 100 != 0 || year % 400 == 0)
  }

  /** Day number of 1 January. */
  function YearStart(year: int): int {
    365 * (year - 1970) + (year - 1969) / 4 - (year - 1901) / 100 + (year - 1601) / 400
  }

  lemma YearLength(year: int)
    ensures YearStart(year + 1) == YearStart(year) + if IsLeap(year) then 366 else 365
  {
    Fourths(year);
    Hundredths(year);
    FourHundredths(year);
    FourHundredthIsHundredth(year);
    HundredthIsFourth(year);
  }

  lemma Fourths(year: int)
    ensures (year + 1 - 1969) / 4 == (year - 1969) / 4 + if year % 4 == 0 then 1 else 0
  {
  }

  lemma Hundredths(year: int)
    ensures (year + 1 - 1901) / 100 == (year - 1901) / 100 + if year % 100 == 0 then 1 else 0
  {
  }

  lemma FourHundredths(year: int)
    ensures (year + 1 - 1601) / 400 == (year - 1601) / 400 + if year % 400 == 0 then 1 else 0
  {
  }

  lemma FourHundredthIsHundredth(year: int)
    ensures year % 400 == 0 ==> year % 100 == 0
  {
    if year % 400 == 0 {
      assert year == 100 * (4 * (year / 400));
    }
  }

  lemma HundredthIsFourth(year: int)
    ensures year % 100 == 0 ==> year % 4 == 0
  {
    if year % 100 == 0 {
      assert year == 4 * (25 * (year / 100));
    }
  }

  /** Days of month k. */
  function MonthLength(k: int): (r: int)
    ensures 28 <= r <= 31
  {
    var m := k % 12 + 1;
    if m == 2 then (if IsLeap(k / 12) then 29 else 28)
    else if m == 4 || m == 6 || m == 9 || m == 11 then 30
    else 31
  }

  /** Days of the year before its month of index 0 to 11. */
  function DaysBefore(leap: bool, index: int): int
    requires 0 <= index < 12
  {
    [0, 31, 59, 90, 120, 151, 181, 212, 243, 273, 304, 334][index] + if leap && index >= 2 then 1 else 0
  }

  /** Day number of the first of month k. */
  function MonthStart(k: int): int {
    YearStart(k / 12) + DaysBefore(IsLeap(k / 12), k % 12)
  }

  lemma MonthStep(k: int)
    ensures MonthStart(k + 1) == MonthStart(k) + MonthLength(k)
  {
    YearLength(k / 12);
    hide YearStart, IsLeap;
    if k % 12 == 11 {
      assert (k + 1) / 12 == k / 12 + 1 && (k + 1) % 12 == 0;
    } else {
      assert (k + 1) / 12 == k / 12 && (k + 1) % 12 == k % 12 + 1;
    }
  }

  lemma {:induction false} MonthsApart(j: int, k: int)
    requires j <= k
    ensures MonthStart(j) + 28 * (k - j) <= MonthStart(k) <= MonthStart(j) + 31 * (k - j)
    decreases k - j
  {
    hide MonthStart, MonthLength;
    if j < k {
      MonthStep(j);
      MonthsApart(j + 1, k);
    }
  }

  /** The month a day lies in. */
  function MonthOf(day: int): (k: int)
    ensures MonthStart(k) <= day < MonthStart(k + 1)
  {
    hide MonthStart;
    MonthFrom(day, 12 * 1970)
  }

  function MonthFrom(day: int, k: int): (r: int)
    ensures MonthStart(r) <= day < MonthStart(r + 1)
    decreases if day < MonthStart(k) then MonthStart(k) - day else day - MonthStart(k)
  {
    MonthStep(k);
    MonthStep(k - 1);
    hide MonthStart;
    if day < MonthStart(k) then MonthBack(day, k) else if MonthStart(k + 1) <= day then MonthFrom(day, k + 1) else k
  }

  function MonthBack(day: int, k: int): (r: int)
    requires day < MonthStart(k)
    ensures MonthStart(r) <= day < MonthStart(r + 1)
    decreases MonthStart(k) - day
  {
    MonthStep(k - 1);
    hide MonthStart;
    if day < MonthStart(k - 1) then MonthBack(day, k - 1) else k - 1
  }

  /** A day lies in exactly one month. */
  lemma MonthUnique(day: int, k: int)
    requires MonthStart(k) <= day < MonthStart(k + 1)
    ensures k == MonthOf(day)
  {
    hide MonthStart, MonthOf;
    var r := MonthOf(day);
    if k < r {
      MonthsApart(k + 1, r);
    } else if r < k {
      MonthsApart(r + 1, k);
    }
  }

  function DayOf(t: int): int {
    t / DAY
  }

  /** Milliseconds past midnight. */
  function ClockOf(t: int): int {
    t % DAY
  }

  function Year(t: int): int {
    MonthOf(DayOf(t)) / 12
  }

  function Month(t: int): (m: int)
    ensures 1 <= m <= 12
  {
    MonthOf(DayOf(t)) % 12 + 1
  }

  function DayOfMonth(t: int): (d: int)
    ensures 1 <= d <= MonthLength(MonthOf(DayOf(t)))
  {
    MonthStep(MonthOf(DayOf(t)));
    hide MonthStart;
    DayOf(t) - MonthStart(MonthOf(DayOf(t))) + 1
  }

  /** 0 is Sunday. */
  function Weekday(day: int): (w: int)
    ensures 0 <= w < 7
  {
    (day + 4) % 7
  }

  /** Months and days outside their ranges carry over. */
  function Date(year: int, month: int, day: int, clock: int): int {
    (MonthStart(12 * year + month - 1) + day - 1) * DAY + clock
  }

  function AddDate(t: int, years: int, months: int, days: int): int {
    Date(Year(t) + years, Month(t) + months, DayOfMonth(t) + days, ClockOf(t))
  }

  lemma JanuaryOf1970()
    ensures MonthStart(12 * 1970 + 1 - 1) == 0 && MonthLength(12 * 1970 + 1 - 1) == 31
  {
  }

  /** Time starts on Thursday, 1 January 1970, at midnight. */
  lemma EpochIsDayZero()
    ensures Date(1970, 1, 1, 0) == 0 && Year(0) == 1970 && Month(0) == 1 && DayOfMonth(0) == 1
    ensures DayOf(0) == 0 && ClockOf(0) == 0 && Weekday(0) == 4
  {
    JanuaryOf1970();
    hide MonthStart, MonthOf, MonthLength, Year, Month, DayOfMonth;
    assert Date(1970, 1, 1, 0) == 0;
    DateReadsBack(1970, 1, 1, 0);
  }

  /** Taking a time apart and putting it together again changes nothing, and
      shifting by days moves the day and keeps the clock. */
  lemma DateRoundTrip(t: int, days: int)
    ensures AddDate(t, 0, 0, days) == t + days * DAY
    ensures DayOf(AddDate(t, 0, 0, days)) == DayOf(t) + days && ClockOf(AddDate(t, 0, 0, days)) == ClockOf(t)
    ensures forall clock :: Date(Year(t), Month(t), DayOfMonth(t), clock) == DayOf(t) * DAY + clock
  {
    hide MonthStart, MonthOf, MonthLength;
    var k := MonthOf(DayOf(t));
    assert 12 * (k / 12) + k % 12 + 1 - 1 == k;
    assert MonthStart(12 * Year(t) + Month(t) - 1) == MonthStart(k);
    assert AddDate(t, 0, 0, days) == (DayOf(t) + days) * DAY + ClockOf(t);
  }

  /** A date inside its month reads back as written. */
  lemma DateReadsBack(year: int, month: int, day: int, clock: int)
    requires 1 <= month <= 12 && 1 <= day <= MonthLength(12 * year + month - 1) && 0 <= clock < DAY
    ensures
      var t := Date(year, month, day, clock);
      Year(t) == year && Month(t) == month && DayOfMonth(t) == day && ClockOf(t) == clock
  {
    var k := 12 * year + month - 1;
    MonthStep(k);
    var t := Date(year, month, day, clock);
    assert DayOf(t) == MonthStart(k) + day - 1;
    MonthUnique(DayOf(t), k);
    hide MonthStart, MonthOf;
    assert k / 12 == year && k % 12 == month - 1;
  }

  /** The zeroth day of the next month is the last of this one. */
  function DaysInMonth(year: int, month: int): int {
    DayOfMonth(Date(year, month + 1, 0, 0))
  }

  lemma DaysInMonthIsItsLength(year: int, month: int)
    ensures DaysInMonth(year, month) == MonthLength(12 * year + month - 1)
  {
    var k := 12 * year + month - 1;
    MonthStep(k);
    var t := Date(year, month + 1, 0, 0);
    assert DayOf(t) == MonthStart(k + 1) - 1;
    MonthUnique(DayOf(t), k);
    hide MonthStart, MonthOf;
  }
}
