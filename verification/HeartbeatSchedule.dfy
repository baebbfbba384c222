/** "Latest slot not after now" for the five schedule kinds (desktop/heartbeat.go).
    A slot is described by what its day and clock look like; the code searches for
    the latest one with calendar arithmetic. */
module HeartbeatSchedule {
  import opened Options
  import opened HeartbeatCalendar

  /** A parsed rule. Weekdays count from Sunday; clock is in milliseconds past
      midnight. */
  datatype Schedule =
    | Daily(clock: int)
    | Weekly(days: seq<int>, clock: int)
    | Biweekly(days: seq<int>, clock: int)
    | Monthly(day: nat, clock: int)
    | Yearly(month: int, day: nat, clock: int)

  /** What parsing guarantees of every rule it accepts. */
  predicate Parsed(s: Schedule) {
    && 0 <= s.clock < DAY
    && (s.Weekly? || s.Biweekly? ==> s.days != [] && forall w :: w in s.days ==> 0 <= w < 7)
    && (s.Yearly? ==> 1 <= s.month <= 12)
  }

  // ------------------------------------------------------------------ slots

  /** Weeks run from Monday. */
  function WeekIndex(day: int): int {
    (day + 3) / 7
  }

  predicate SameParity(anchor: int, day: int) {
    (WeekIndex(day) - WeekIndex(DayOf(anchor))) % 2 == 0
  }

  /** The day of the month a rule names, kept within month k. */
  function Clamped(day: nat, k: int): int {
    if day < 1 then 1 else if day > MonthLength(k) then MonthLength(k) else day
  }

  predicate DayMatches(s: Schedule, anchor: int, day: int) {
    match s
    case Daily(_) => true
    case Weekly(days, _) => Weekday(day) in days
    case Biweekly(days, _) => Weekday(day) in days && SameParity(anchor, day)
    case Monthly(d, _) => day == MonthStart(MonthOf(day)) + Clamped(d, MonthOf(day)) - 1
    case Yearly(m, d, _) => MonthOf(day) % 12 + 1 == m && day == MonthStart(MonthOf(day)) + Clamped(d, MonthOf(day)) - 1
  }

  predicate IsSlot(s: Schedule, anchor: int, t: int) {
    ClockOf(t) == s.clock && DayMatches(s, anchor, DayOf(t))
  }

  ghost predicate Latest(s: Schedule, anchor: int, now: int, t: int) {
    && IsSlot(s, anchor, t) && t <= now
    && forall u :: IsSlot(s, anchor, u) && u <= now ==> u <= t
  }

  // --------------------------------------------------------- the algorithms

  function PreviousDailyAt(clock: int, now: int): int {
    var candidate := Date(Year(now), Month(now), DayOfMonth(now), clock);
    if candidate > now then AddDate(candidate, 0, 0, -1) else candidate
  }

  function MonthlyCandidate(year: int, month: int, day: nat, clock: int): int {
    var atLeastOne := if day < 1 then 1 else day;
    var max := DaysInMonth(year, month);
    Date(year, month, if atLeastOne > max then max else atLeastOne, clock)
  }

  function PreviousMonthlyAt(day: nat, clock: int, now: int): int {
    var candidate := MonthlyCandidate(Year(now), Month(now), day, clock);
    if candidate > now then
      var prev := AddDate(now, 0, -1, 0);
      MonthlyCandidate(Year(prev), Month(prev), day, clock)
    else candidate
  }

  function PreviousYearlyAt(month: int, day: nat, clock: int, now: int): int {
    var candidate := MonthlyCandidate(Year(now), month, day, clock);
    if candidate > now then MonthlyCandidate(Year(now) - 1, month, day, clock) else candidate
  }

  function WeekStart(t: int): int {
    var dayOffset := (Weekday(DayOf(t)) + 6) % 7;
    AddDate(Date(Year(t), Month(t), DayOfMonth(t), 0), 0, 0, -dayOffset)
  }

  function WeeksBetween(a: int, b: int): int {
    if b < a then (a - b) / DAY / 7 else (b - a) / DAY / 7
  }

  /** A day whose candidate the weekly search accepts. */
  predicate Accepted(days: seq<int>, clock: int, anchor: Option<int>, now: int, day: int) {
    && Weekday(day) in days && day * DAY + clock <= now
    && (anchor.Some? ==> SameParity(anchor.value, day))
  }

  /** The search returns the newest accepted day of the window, if there is one. */
  method PreviousWeeklyAt(days: seq<int>, clock: int, now: int, windowDays: nat, anchor: Option<int>)
    returns (best: Option<int>)
    requires 0 <= clock < DAY
    ensures best.None? ==>
        forall d :: DayOf(now) - windowDays < d <= DayOf(now) ==> !Accepted(days, clock, anchor, now, d)
    ensures best.Some? ==>
              var d := DayOf(best.value);
              && ClockOf(best.value) == clock && DayOf(now) - windowDays < d <= DayOf(now)
              && Accepted(days, clock, anchor, now, d)
              && forall e :: d < e <= DayOf(now) ==> !Accepted(days, clock, anchor, now, e)
  {
    hide MonthOf, MonthStart, AddDate, Date, WeekStart, WeeksBetween, SameParity, Year, Month, DayOfMonth, Weekday;
    best := None;
    var offset: nat := 0;
    while offset < windowDays
      invariant offset <= windowDays
      invariant best.None? ==>
          forall d :: DayOf(now) - offset < d <= DayOf(now) ==> !Accepted(days, clock, anchor, now, d)
      invariant best.Some? ==>
                  var d := DayOf(best.value);
                  && ClockOf(best.value) == clock && DayOf(now) - offset < d <= DayOf(now)
                  && Accepted(days, clock, anchor, now, d)
                  && forall e :: d < e <= DayOf(now) ==> !Accepted(days, clock, anchor, now, e)
    {
      ghost var before := best;
      var back: int := 0 - offset;
      var day := AddDate(now, 0, 0, back);
      DateRoundTrip(now, back);
      DateRoundTrip(day, 0);
      ghost var today := DayOf(now) - offset;
      assert DayOf(day) == today;
      var i: nat := 0;
      while i < |days|
        invariant i <= |days|
        invariant before.Some? ==> best == before
        invariant before.None? ==>
            best == if Accepted(days[..i], clock, anchor, now, today) then Some(today * DAY + clock) else None
      {
        assert days[..i + 1] == days[..i] + [days[i]];
        if Weekday(DayOf(day)) == days[i] {
          var candidate := Date(Year(day), Month(day), DayOfMonth(day), clock);
          assert candidate == today * DAY + clock;
          SlotParts(today, clock);
          if candidate <= now {
            var skip := false;
            if anchor.Some? {
              ParityIsWeeksBetween(anchor.value, candidate);
              skip := WeeksBetween(WeekStart(anchor.value), WeekStart(candidate)) % 2 != 0;
            }
            if !skip && (best.None? || candidate > best.value) {
              best := Some(candidate);
            }
          }
        }
        i := i + 1;
      }
      assert days[..i] == days;
      SlotParts(today, clock);
      offset := offset + 1;
    }
  }

  lemma SlotParts(day: int, clock: int)
    requires 0 <= clock < DAY
    ensures DayOf(day * DAY + clock) == day && ClockOf(day * DAY + clock) == clock
  {
  }

  lemma ParityIsWeeksBetween(anchor: int, t: int)
    ensures WeeksBetween(WeekStart(anchor), WeekStart(t)) % 2 == 0 <==> SameParity(anchor, DayOf(t))
  {
    WeekStartIsMonday(anchor);
    WeekStartIsMonday(t);
    hide WeekStart, WeekIndex;
    var i, j := WeekIndex(DayOf(anchor)), WeekIndex(DayOf(t));
    assert WeekStart(t) - WeekStart(anchor) == 7 * (j - i) * DAY;
    assert WeeksBetween(WeekStart(anchor), WeekStart(t)) == if j < i then i - j else j - i;
  }

  lemma WeekStartIsMonday(t: int)
    ensures WeekStart(t) == (7 * WeekIndex(DayOf(t)) - 3) * DAY
  {
    hide MonthOf, MonthStart, AddDate, Date, Year, Month, DayOfMonth;
    var base := Date(Year(t), Month(t), DayOfMonth(t), 0);
    DateRoundTrip(t, 0);
    assert base == DayOf(t) * DAY;
    DateRoundTrip(base, -((Weekday(DayOf(t)) + 6) % 7));
  }

  // ------------------------------------------------------------ correctness

  lemma DailyIsLatest(s: Schedule, anchor: int, now: int)
    requires s.Daily? && Parsed(s)
    ensures Latest(s, anchor, now, PreviousDailyAt(s.clock, now))
  {
    hide MonthOf, MonthStart, AddDate, Date, Year, Month, DayOfMonth;
    DateRoundTrip(now, 0);
    var candidate := Date(Year(now), Month(now), DayOfMonth(now), s.clock);
    DateRoundTrip(candidate, -1);
  }

  function MonthSlot(day: nat, clock: int, k: int): int {
    (MonthStart(k) + Clamped(day, k) - 1) * DAY + clock
  }

  lemma MonthSlotParts(day: nat, clock: int, k: int)
    requires 0 <= clock < DAY
    ensures var t := MonthSlot(day, clock, k);
      ClockOf(t) == clock && MonthOf(DayOf(t)) == k && DayOf(t) == MonthStart(k) + Clamped(day, k) - 1
  {
    hide MonthOf, MonthStart, MonthLength;
    MonthStep(k);
    MonthUnique(MonthStart(k) + Clamped(day, k) - 1, k);
  }

  lemma CandidateIsMonthSlot(year: int, month: int, day: nat, clock: int)
    ensures MonthlyCandidate(year, month, day, clock) == MonthSlot(day, clock, 12 * year + month - 1)
  {
    hide MonthOf, MonthStart, MonthLength;
    DaysInMonthIsItsLength(year, month);
  }

  /** Slots of later months are later. */
  lemma MonthSlotsIncrease(day: nat, clock: int, j: int, k: int)
    requires 0 <= clock < DAY && j < k
    ensures MonthSlot(day, clock, j) < MonthStart(k) * DAY <= MonthSlot(day, clock, k)
  {
    hide MonthOf, MonthStart, MonthLength;
    MonthStep(j);
    MonthsApart(j + 1, k);
  }

  lemma MonthsInOrder(a: int, b: int)
    requires a <= b
    ensures MonthOf(a) <= MonthOf(b)
  {
    hide MonthOf, MonthStart;
    if MonthOf(b) < MonthOf(a) {
      MonthsApart(MonthOf(b) + 1, MonthOf(a));
    }
  }

  /** The guard of the case in which stepping back a month stays in this one. */
  predicate StaysInMonth(day: nat, clock: int, now: int) {
    var k := MonthOf(DayOf(now));
    MonthSlot(day, clock, k) > now && DayOfMonth(now) > MonthLength(k - 1)
  }

  /** Monthly: the latest slot, unless this month's slot is still ahead and today's
      day number exceeds the length of the previous month; then the answer is the
      slot that is still ahead. */
  lemma MonthlyIsLatestIff(s: Schedule, anchor: int, now: int)
    requires s.Monthly? && Parsed(s)
    ensures
      var t := PreviousMonthlyAt(s.day, s.clock, now);
      && (Latest(s, anchor, now, t) <==> !StaysInMonth(s.day, s.clock, now))
      && (t > now <==> StaysInMonth(s.day, s.clock, now))
  {
    hide MonthOf, MonthStart, MonthLength, MonthlyCandidate, MonthSlot;
    var k := MonthOf(DayOf(now));
    MonthlySearch(s.day, s.clock, now);
    var hit := if MonthSlot(s.day, s.clock, k) <= now then k else k - 1;
    if !StaysInMonth(s.day, s.clock, now) {
      MonthSlotIsLatest(s, anchor, now, hit);
    }
  }

  /** What the two branches of the monthly search compute. */
  lemma MonthlySearch(day: nat, clock: int, now: int)
    requires 0 <= clock < DAY
    ensures
      var k := MonthOf(DayOf(now));
      PreviousMonthlyAt(day, clock, now) ==
      MonthSlot(day, clock, if MonthSlot(day, clock, k) > now && !StaysInMonth(day, clock, now) then k - 1 else k)
  {
    hide MonthOf, MonthStart, MonthLength, MonthlyCandidate, MonthSlot;
    var k := MonthOf(DayOf(now));
    var prev := AddDate(now, 0, -1, 0);
    MonthStep(k - 1);
    MonthStep(k);
    CandidateIsMonthSlot(Year(now), Month(now), day, clock);
    assert 12 * Year(now) + Month(now) - 1 == k;
    assert 12 * Year(now) + (Month(now) - 1) - 1 == k - 1;
    assert DayOf(prev) == MonthStart(k - 1) + DayOfMonth(now) - 1;
    var p := if DayOfMonth(now) > MonthLength(k - 1) then k else k - 1;
    MonthUnique(DayOf(prev), p);
    CandidateIsMonthSlot(Year(prev), Month(prev), day, clock);
    assert 12 * Year(prev) + Month(prev) - 1 == p;
  }

  /** The slot of the newest month whose slot has come is the latest. */
  lemma MonthSlotIsLatest(s: Schedule, anchor: int, now: int, k: int)
    requires s.Monthly? && Parsed(s)
    requires MonthSlot(s.day, s.clock, k) <= now || k < MonthOf(DayOf(now))
    requires k == MonthOf(DayOf(now)) || (k + 1 == MonthOf(DayOf(now)) && MonthSlot(s.day, s.clock, k + 1) > now)
    ensures Latest(s, anchor, now, MonthSlot(s.day, s.clock, k))
  {
    hide MonthOf, MonthStart, MonthLength, Clamped;
    MonthSlotParts(s.day, s.clock, k);
    if k < MonthOf(DayOf(now)) {
      MonthSlotsIncrease(s.day, s.clock, k, k + 1);
    }
    forall u | IsSlot(s, anchor, u) && u <= now ensures u <= MonthSlot(s.day, s.clock, k) {
      var j := MonthOf(DayOf(u));
      assert u == MonthSlot(s.day, s.clock, j);
      MonthsInOrder(DayOf(u), DayOf(now));
      if j < k {
        MonthSlotsIncrease(s.day, s.clock, j, k);
      }
    }
  }

  lemma YearlyIsLatest(s: Schedule, anchor: int, now: int)
    requires s.Yearly? && Parsed(s)
    ensures Latest(s, anchor, now, PreviousYearlyAt(s.month, s.day, s.clock, now))
  {
    hide MonthOf, MonthStart, MonthLength, Clamped, MonthlyCandidate;
    var thisYears := 12 * Year(now) + s.month - 1;
    CandidateIsMonthSlot(Year(now), s.month, s.day, s.clock);
    CandidateIsMonthSlot(Year(now) - 1, s.month, s.day, s.clock);
    var k := if MonthSlot(s.day, s.clock, thisYears) > now then thisYears - 12 else thisYears;
    MonthSlotParts(s.day, s.clock, k);
    var m := MonthOf(DayOf(now));
    if k < thisYears {
      MonthSlotsIncrease(s.day, s.clock, k, m);
    }
    forall u | IsSlot(s, anchor, u) && u <= now ensures u <= MonthSlot(s.day, s.clock, k) {
      var j := MonthOf(DayOf(u));
      assert u == MonthSlot(s.day, s.clock, j);
      MonthsInOrder(DayOf(u), DayOf(now));
      if j < k {
        MonthSlotsIncrease(s.day, s.clock, j, k);
      }
      assert j % 12 == k % 12;
    }
  }

  /** The guard of the case in which no day of a window is found: only today is
      listed, and its time is still ahead. */
  predicate OnlyTodayAhead(s: Schedule, anchor: int, now: int)
    requires s.Weekly? || s.Biweekly?
  {
    && s.clock > ClockOf(now)
    && (forall w :: w in s.days ==> w == Weekday(DayOf(now)))
    && (s.Biweekly? ==> SameParity(anchor, DayOf(now)))
  }

  function WindowDays(s: Schedule): nat {
    if s.Weekly? then 7 else 14
  }

  predicate Accepts(s: Schedule, anchor: int, now: int, day: int)
    requires s.Weekly? || s.Biweekly?
  {
    Accepted(s.days, s.clock, if s.Biweekly? then Some(anchor) else None, now, day)
  }

  /** Every weekday the rule lists matches exactly one day of a window. */
  lemma WindowCoversWeekday(s: Schedule, anchor: int, today: int, w: int) returns (d: int)
    requires (s.Weekly? || s.Biweekly?) && w in s.days && 0 <= w < 7
    ensures today - WindowDays(s) < d <= today && Weekday(d) == w && (s.Biweekly? ==> SameParity(anchor, d))
  {
    d := today - (today + 4 - w) % 7;
    assert (d + 4) % 7 == w;
    if s.Biweekly? && !SameParity(anchor, d) {
      WeekBefore(anchor, d);
      d := d - 7;
    }
    hide SameParity;
  }

  lemma WeekBefore(anchor: int, d: int)
    ensures Weekday(d - 7) == Weekday(d) && SameParity(anchor, d - 7) == !SameParity(anchor, d)
  {
    OneWeekDown(d);
    hide WeekIndex, Weekday;
    ParityFlips(WeekIndex(d) - WeekIndex(DayOf(anchor)));
  }

  lemma OneWeekDown(d: int)
    ensures WeekIndex(d - 7) == WeekIndex(d) - 1 && Weekday(d - 7) == Weekday(d)
  {
  }

  lemma ParityFlips(n: int)
    ensures (n - 1) % 2 == 0 <==> n % 2 != 0
  {
  }

  lemma SameWeekdayInWindow(today: int, d: int)
    requires today - 14 < d <= today && Weekday(d) == Weekday(today)
    ensures d == today || d == today - 7
  {
  }

  /** Weekly and biweekly: nothing is found exactly when only today is listed and
      its time is still ahead. */
  lemma NothingFoundIff(s: Schedule, anchor: int, now: int)
    requires (s.Weekly? || s.Biweekly?) && Parsed(s)
    ensures (forall d :: DayOf(now) - WindowDays(s) < d <= DayOf(now) ==> !Accepts(s, anchor, now, d)) <==>
        OnlyTodayAhead(s, anchor, now)
  {
    var today := DayOf(now);
    assert WeekIndex(today - 7) == WeekIndex(today) - 1;
    if OnlyTodayAhead(s, anchor, now) {
      forall d | today - WindowDays(s) < d <= today ensures !Accepts(s, anchor, now, d) {
        if Weekday(d) in s.days {
          SameWeekdayInWindow(today, d);
        }
      }
    }
    if forall d :: today - WindowDays(s) < d <= today ==> !Accepts(s, anchor, now, d) {
      forall w | w in s.days ensures w == Weekday(today) {
        var d := WindowCoversWeekday(s, anchor, today, w);
        assert !Accepts(s, anchor, now, d);
      }
      var d := WindowCoversWeekday(s, anchor, today, s.days[0]);
      assert !Accepts(s, anchor, now, d);
    }
  }

  /** The newest accepted day gives the latest slot. */
  lemma NewestAcceptedIsLatest(s: Schedule, anchor: int, now: int, d: int)
    requires (s.Weekly? || s.Biweekly?) && Parsed(s)
    requires d <= DayOf(now) && Accepts(s, anchor, now, d)
    requires forall e :: d < e <= DayOf(now) ==> !Accepts(s, anchor, now, e)
    ensures Latest(s, anchor, now, d * DAY + s.clock)
  {
    SlotParts(d, s.clock);
    hide SameParity, Weekday;
    forall u | IsSlot(s, anchor, u) && u <= now ensures u <= d * DAY + s.clock {
      assert u == DayOf(u) * DAY + s.clock;
      assert Accepts(s, anchor, now, DayOf(u));
    }
  }

  /** In the case that finds nothing there is a latest slot all the same, exactly
      one window ago. */
  lemma MissedSlotIsOneWindowAgo(s: Schedule, anchor: int, now: int)
    requires (s.Weekly? || s.Biweekly?) && Parsed(s) && OnlyTodayAhead(s, anchor, now)
    ensures Latest(s, anchor, now, (DayOf(now) - WindowDays(s)) * DAY + s.clock)
  {
    var today := DayOf(now);
    var d := today - WindowDays(s);
    assert s.days[0] in s.days;
    assert s.days[0] == Weekday(today);
    assert Weekday(today - 7) == Weekday(today) && Weekday(today - 14) == Weekday(today);
    assert WeekIndex(today - 14) == WeekIndex(today) - 2;
    assert Accepts(s, anchor, now, d);
    NothingFoundIff(s, anchor, now);
    NewestAcceptedIsLatest(s, anchor, now, d);
  }

  /** Cases in which the search misses the latest slot: it finds none, or finds one
      that is still ahead. */
  predicate FindsNone(s: Schedule, anchor: int, now: int) {
    (s.Weekly? || s.Biweekly?) && OnlyTodayAhead(s, anchor, now)
  }

  predicate FindsNext(s: Schedule, now: int) {
    s.Monthly? && StaysInMonth(s.day, s.clock, now)
  }

  /** For every rule: none, the latest slot, or one that is not due yet, each
      exactly in the named case. */
  method PreviousScheduleAt(s: Schedule, anchor: int, now: int) returns (slot: Option<int>)
    requires Parsed(s)
    ensures slot.None? <==> FindsNone(s, anchor, now)
    ensures slot.Some? ==> (slot.value > now <==> FindsNext(s, now))
    ensures slot.Some? ==> (Latest(s, anchor, now, slot.value) <==> !FindsNext(s, now))
  {
    hide Latest, StaysInMonth, OnlyTodayAhead, PreviousDailyAt, PreviousMonthlyAt, PreviousYearlyAt, Accepted;
    match s {
      case Daily(clock) =>
        DailyIsLatest(s, anchor, now);
        LatestHasCome(s, anchor, now, PreviousDailyAt(clock, now));
        slot := Some(PreviousDailyAt(clock, now));
      case Weekly(days, clock) =>
        slot := PreviousWeeklyAt(days, clock, now, 7, None);
        WeeklyFound(s, anchor, now, slot);
      case Biweekly(days, clock) =>
        slot := PreviousWeeklyAt(days, clock, now, 14, Some(anchor));
        WeeklyFound(s, anchor, now, slot);
      case Monthly(day, clock) =>
        MonthlyIsLatestIff(s, anchor, now);
        slot := Some(PreviousMonthlyAt(day, clock, now));
      case Yearly(month, day, clock) =>
        YearlyIsLatest(s, anchor, now);
        LatestHasCome(s, anchor, now, PreviousYearlyAt(month, day, clock, now));
        slot := Some(PreviousYearlyAt(month, day, clock, now));
    }
  }

  lemma LatestHasCome(s: Schedule, anchor: int, now: int, t: int)
    requires Latest(s, anchor, now, t)
    ensures t <= now && IsSlot(s, anchor, t)
  {
  }

  lemma WeeklyFound(s: Schedule, anchor: int, now: int, best: Option<int>)
    requires (s.Weekly? || s.Biweekly?) && Parsed(s)
    requires best.None? ==> forall d :: DayOf(now) - WindowDays(s) < d <= DayOf(now) ==> !Accepts(s, anchor, now, d)
    requires best.Some? ==>
               var d := DayOf(best.value);
               && ClockOf(best.value) == s.clock && DayOf(now) - WindowDays(s) < d <= DayOf(now)
               && Accepts(s, anchor, now, d)
               && forall e :: d < e <= DayOf(now) ==> !Accepts(s, anchor, now, e)
    ensures best.None? <==> OnlyTodayAhead(s, anchor, now)
    ensures best.Some? ==> best.value <= now && Latest(s, anchor, now, best.value)
  {
    NothingFoundIff(s, anchor, now);
    hide OnlyTodayAhead, Accepts;
    if best.Some? {
      NewestAcceptedIsLatest(s, anchor, now, DayOf(best.value));
      assert best.value == DayOf(best.value) * DAY + s.clock;
    }
  }

  // -------------------------------------------- inputs of the two missing cases

  /** Every year: on 31 March before the time of a rule for day 31, stepping back a
      month lands in March again, so the slot at the end of February is missed. */
  lemma MarchMissesFebruary(year: int, clock: int, earlier: int, anchor: int)
    requires 0 <= earlier < clock < DAY
    ensures
      var now := Date(year, 3, 31, earlier);
      var s := Monthly(31, clock);
      && StaysInMonth(31, clock, now) && PreviousMonthlyAt(31, clock, now) == Date(year, 3, 31, clock) > now
      && Latest(s, anchor, now, Date(year, 2, MonthLength(12 * year + 1), clock))
  {
    hide MonthStart, MonthOf, MonthLength;
    var k := 12 * year + 2;
    var now := Date(year, 3, 31, earlier);
    assert MonthLength(k) == 31 && MonthLength(k - 1) <= 29 by { MarchAndFebruary(year); }
    DateReadsBack(year, 3, 31, earlier);
    SlotParts(MonthStart(k) + 30, earlier);
    MonthStep(k);
    MonthUnique(MonthStart(k) + 30, k);
    MonthlySearch(31, clock, now);
    MonthSlotIsLatest(Monthly(31, clock), anchor, now, k - 1);
  }

  lemma MarchAndFebruary(year: int)
    ensures MonthLength(12 * year + 2) == 31 && MonthLength(12 * year + 1) <= 29
  {
    assert (12 * year + 2) % 12 == 2 && (12 * year + 1) % 12 == 1;
  }

  /** Every day: a weekly rule for that weekday alone, or a biweekly one in its even
      week, finds nothing before its time, although the slot a window ago was one. */
  lemma OwnDayFindsNothing(day: int, clock: int, earlier: int, anchor: int)
    requires 0 <= earlier < clock < DAY
    ensures
      var (now, weekly) := (day * DAY + earlier, Weekly([Weekday(day)], clock));
      FindsNone(weekly, anchor, now) && Latest(weekly, anchor, now, (day - 7) * DAY + clock)
    ensures
      var (now, biweekly) := (day * DAY + earlier, Biweekly([Weekday(day)], clock));
      SameParity(anchor, day) ==>
          FindsNone(biweekly, anchor, now) && Latest(biweekly, anchor, now, (day - 14) * DAY + clock)
  {
    SlotParts(day, earlier);
    var now := day * DAY + earlier;
    hide Weekday, SameParity, Latest;
    MissedSlotIsOneWindowAgo(Weekly([Weekday(day)], clock), anchor, now);
    if SameParity(anchor, day) {
      MissedSlotIsOneWindowAgo(Biweekly([Weekday(day)], clock), anchor, now);
    }
  }
}
