/**
 Workday arithmetic over a partial calendar (app/common/calendar_utils.py).

 A date is its proleptic Gregorian ordinal, day 1 being a Monday. A calendar says which dates are
 workdays; a date it does not mention falls back to Monday-to-Friday. Both walks give up after 1001 steps.
*/
module WorkCalendar {

  type Date = int

  type Calendar = map<Date, bool>

  const MAX_WORKDAY_ITERATIONS := 1000

  /** The walk stops once its counter exceeds the maximum, so it may take one step more. */
  const REACH := MAX_WORKDAY_ITERATIONS + 1

  /** `n: int | float`: only a float is rounded up. */
  datatype DayCount = Whole(days: int) | Fractional(value: real) {
    function Ceil(): int {
      match this
      case Whole(n) => n
      case Fractional(x) => -((-x).Floor)
    }
  }

  /** date.weekday(): Monday is 0. */
  function Weekday(d: Date): int {
    (d + 6) % 7
  }

  predicate IsWorkday(d: Date, calendar: Calendar) {
    if d in calendar then calendar[d] else Weekday(d) < 5
  }

  /** The number of workdays d with lo <= d < hi. */
  function WorkdaysIn(lo: Date, hi: Date, calendar: Calendar): nat
    decreases hi - lo
  {
    if hi <= lo then 0
    else (if IsWorkday(lo, calendar) then 1 else 0) + WorkdaysIn(lo + 1, hi, calendar)
  }

  function StepBack(date: Date, n: int, calendar: Calendar, budget: nat): Date
    decreases budget
  {
    if n <= 0 || budget == 0 then date
    else StepBack(date - 1, if IsWorkday(date - 1, calendar) then n - 1 else n, calendar, budget - 1)
  }

  function StepForward(date: Date, n: int, calendar: Calendar, budget: nat): Date
    decreases budget
  {
    if n <= 0 || budget == 0 then date
    else StepForward(date + 1, if IsWorkday(date + 1, calendar) then n - 1 else n, calendar, budget - 1)
  }

  /** The date `n` workdays before `date`, or the end of the reach. */
  function Subtract(date: Date, n: int, calendar: Calendar): Date {
    StepBack(date, n, calendar, REACH)
  }

  function Add(date: Date, n: int, calendar: Calendar): Date {
    StepForward(date, n, calendar, REACH)
  }

  /** What a backward walk may return, said by counting workdays instead of walking. */
  ghost predicate LandsBefore(r: Date, date: Date, n: int, calendar: Calendar, budget: nat) {
    if n <= 0 then r == date
    else
      && date - budget <= r <= date
      && WorkdaysIn(r, date, calendar) <= n
      && (WorkdaysIn(r, date, calendar) == n ==> IsWorkday(r, calendar))
      && (WorkdaysIn(r, date, calendar) < n ==> r == date - budget)
  }

  ghost predicate LandsAfter(r: Date, date: Date, n: int, calendar: Calendar, budget: nat) {
    if n <= 0 then r == date
    else
      && date <= r <= date + budget
      && WorkdaysIn(date + 1, r + 1, calendar) <= n
      && (WorkdaysIn(date + 1, r + 1, calendar) == n ==> IsWorkday(r, calendar))
      && (WorkdaysIn(date + 1, r + 1, calendar) < n ==> r == date + budget)
  }

  method SubtractWorkdays(date: Date, n: DayCount, calendar: Calendar) returns (current: Date)
    ensures current == Subtract(date, n.Ceil(), calendar)
  {
    var days := n.Ceil();
    if days <= 0 { return date; }
    current := date;
    var count, iterations := 0, 0;
    while count < days
      invariant 0 <= count <= days && 0 <= iterations <= MAX_WORKDAY_ITERATIONS
      invariant StepBack(date, days, calendar, REACH) == StepBack(current, days - count, calendar, REACH - iterations)
      decreases REACH - iterations
    {
      current := current - 1;
      if IsWorkday(current, calendar) {
        count := count + 1;
      }
      iterations := iterations + 1;
      if iterations > MAX_WORKDAY_ITERATIONS { break; }
    }
  }

  method AddWorkdays(date: Date, n: DayCount, calendar: Calendar) returns (current: Date)
    ensures current == Add(date, n.Ceil(), calendar)
  {
    var days := n.Ceil();
    if days <= 0 { return date; }
    current := date;
    var count, iterations := 0, 0;
    while count < days
      invariant 0 <= count <= days && 0 <= iterations <= MAX_WORKDAY_ITERATIONS
      invariant StepForward(date, days, calendar, REACH)
        == StepForward(current, days - count, calendar, REACH - iterations)
      decreases REACH - iterations
    {
      current := current + 1;
      if IsWorkday(current, calendar) {
        count := count + 1;
      }
      iterations := iterations + 1;
      if iterations > MAX_WORKDAY_ITERATIONS { break; }
    }
  }

  // ---- counting ----

  lemma {:induction false} CountSplits(lo: Date, mid: Date, hi: Date, calendar: Calendar)
    requires lo <= mid <= hi
    ensures WorkdaysIn(lo, hi, calendar) == WorkdaysIn(lo, mid, calendar) + WorkdaysIn(mid, hi, calendar)
    decreases mid - lo
  {
    if lo < mid { CountSplits(lo + 1, mid, hi, calendar); }
  }

  lemma CountLast(lo: Date, hi: Date, calendar: Calendar)
    requires lo < hi
    ensures WorkdaysIn(lo, hi, calendar)
      == WorkdaysIn(lo, hi - 1, calendar) + if IsWorkday(hi - 1, calendar) then 1 else 0
  {
    CountSplits(lo, hi - 1, hi, calendar);
  }

  lemma {:induction false} StepBackLands(date: Date, n: int, calendar: Calendar, budget: nat)
    ensures LandsBefore(StepBack(date, n, calendar, budget), date, n, calendar, budget)
    decreases budget
  {
    if n > 0 && budget > 0 {
      var left := if IsWorkday(date - 1, calendar) then n - 1 else n;
      var r := StepBack(date - 1, left, calendar, budget - 1);
      StepBackLands(date - 1, left, calendar, budget - 1);
      CountLast(r, date, calendar);
    }
  }

  lemma {:induction false} StepForwardLands(date: Date, n: int, calendar: Calendar, budget: nat)
    ensures LandsAfter(StepForward(date, n, calendar, budget), date, n, calendar, budget)
    decreases budget
  {
    if n > 0 && budget > 0 {
      StepForwardLands(date + 1, if IsWorkday(date + 1, calendar) then n - 1 else n, calendar, budget - 1);
    }
  }

  /** The counting description has one solution, so it defines the subtraction. */
  lemma SubtractIsTheOnlyLanding(date: Date, n: int, calendar: Calendar, r: Date)
    ensures r == Subtract(date, n, calendar) <==> LandsBefore(r, date, n, calendar, REACH)
  {
    var s := Subtract(date, n, calendar);
    StepBackLands(date, n, calendar, REACH);
    if LandsBefore(r, date, n, calendar, REACH) && n > 0 {
      if r < s { CountSplits(r, s, date, calendar); }
      if s < r { CountSplits(s, r, date, calendar); }
    }
  }

  lemma AddIsTheOnlyLanding(date: Date, n: int, calendar: Calendar, r: Date)
    ensures r == Add(date, n, calendar) <==> LandsAfter(r, date, n, calendar, REACH)
  {
    var s := Add(date, n, calendar);
    StepForwardLands(date, n, calendar, REACH);
    if LandsAfter(r, date, n, calendar, REACH) && n > 0 {
      if r < s {
        CountSplits(date + 1, r + 1, s + 1, calendar);
        CountLast(r + 1, s + 1, calendar);
      }
      if s < r {
        CountSplits(date + 1, s + 1, r + 1, calendar);
        CountLast(s + 1, r + 1, calendar);
      }
    }
  }

  // ---- the calendar is read ----

  /** Open dates: those the calendar calls workdays, and the Mondays to Fridays it does not mention. */
  predicate IsOpen(d: Date, calendar: Calendar) {
    if d in calendar then calendar[d] else 1 <= d % 7 <= 5
  }

  function OpenDays(lo: Date, hi: Date, calendar: Calendar): set<Date> {
    set d: int | lo <= d < hi && IsOpen(d, calendar)
  }

  lemma WeekdayOfOrdinal(d: Date, calendar: Calendar)
    ensures Weekday(d) < 5 <==> 1 <= d % 7 <= 5
    ensures IsWorkday(d, calendar) <==> IsOpen(d, calendar)
  {
  }

  lemma OpenDaysExtend(lo: Date, hi: Date, calendar: Calendar)
    requires lo < hi
    ensures OpenDays(lo, hi, calendar) == OpenDays(lo + 1, hi, calendar) + if IsOpen(lo, calendar) then {lo} else {}
    ensures lo !in OpenDays(lo + 1, hi, calendar)
  {
  }

  lemma {:induction false} CountIsOpenDays(lo: Date, hi: Date, calendar: Calendar)
    ensures WorkdaysIn(lo, hi, calendar) == |OpenDays(lo, hi, calendar)|
    decreases hi - lo
  {
    if lo < hi {
      CountIsOpenDays(lo + 1, hi, calendar);
      OpenDaysExtend(lo, hi, calendar);
      WeekdayOfOrdinal(lo, calendar);
    } else {
      assert OpenDays(lo, hi, calendar) == {};
    }
  }

  /**
   The n-th open date before the start is where a subtraction lands; a walk that does not meet n of them in 1001
   days ends there.
  */
  lemma SubtractLandsOnOpenDay(date: Date, n: int, calendar: Calendar, r: Date)
    requires n > 0
    ensures r == Subtract(date, n, calendar) <==>
      || (date - 1001 <= r < date && |OpenDays(r, date, calendar)| == n && IsOpen(r, calendar))
      || (r == date - 1001 && |OpenDays(r, date, calendar)| < n)
  {
    SubtractIsTheOnlyLanding(date, n, calendar, r);
    CountIsOpenDays(r, date, calendar);
    WeekdayOfOrdinal(r, calendar);
  }

  lemma AddLandsOnOpenDay(date: Date, n: int, calendar: Calendar, r: Date)
    requires n > 0
    ensures r == Add(date, n, calendar) <==>
      || (date < r <= date + 1001 && |OpenDays(date + 1, r + 1, calendar)| == n && IsOpen(r, calendar))
      || (r == date + 1001 && |OpenDays(date + 1, r + 1, calendar)| < n)
  {
    AddIsTheOnlyLanding(date, n, calendar, r);
    CountIsOpenDays(date + 1, r + 1, calendar);
    WeekdayOfOrdinal(r, calendar);
  }

  /** One workday back from a date is the day before exactly when the calendar, or else the weekday, says so. */
  lemma OneDayReadsTheCalendar(date: Date, calendar: Calendar)
    ensures Subtract(date, 1, calendar) == date - 1 <==>
      if date - 1 in calendar then calendar[date - 1] else 1 <= (date - 1) % 7 <= 5
    ensures Add(date, 1, calendar) == date + 1 <==>
      if date + 1 in calendar then calendar[date + 1] else 1 <= (date + 1) % 7 <= 5
  {
    OneOpenDay(date - 1, calendar);
    OneOpenDay(date + 1, calendar);
    SubtractLandsOnOpenDay(date, 1, calendar, date - 1);
    AddLandsOnOpenDay(date, 1, calendar, date + 1);
  }

  lemma OneOpenDay(d: Date, calendar: Calendar)
    ensures OpenDays(d, d + 1, calendar) == if IsOpen(d, calendar) then {d} else {}
  {
  }

  lemma {:induction false} WeeksHaveFiveDays(lo: Date, k: nat, calendar: Calendar)
    requires forall d :: lo <= d < lo + 7 * k ==> d !in calendar
    ensures WorkdaysIn(lo, lo + 7 * k, calendar) == 5 * k
    decreases k
  {
    if k > 0 {
      WeeksHaveFiveDays(lo + 7, k - 1, calendar);
      CountSplits(lo, lo + 7, lo + 7 * k, calendar);
      OmittedDatesFallBack(lo, lo + 7, calendar);
      OneWeek(lo);
    }
  }

  lemma {:induction false} OmittedDatesFallBack(lo: Date, hi: Date, calendar: Calendar)
    requires forall d :: lo <= d < hi ==> d !in calendar
    ensures WorkdaysIn(lo, hi, calendar) == WorkdaysIn(lo, hi, map[])
    decreases hi - lo
  {
    if lo < hi { OmittedDatesFallBack(lo + 1, hi, calendar); }
  }

  lemma CountFirst(lo: Date, next: Date, hi: Date, calendar: Calendar)
    requires next == lo + 1 <= hi
    ensures WorkdaysIn(lo, hi, calendar) == WorkdaysIn(next, hi, calendar) + if IsWorkday(lo, calendar) then 1 else 0
  {
  }

  lemma DayAfterMonday(monday: Date, i: int, n: nat)
    requires monday % 7 == 1 && 0 <= i < 7 && WorkdaysIn(monday + i + 1, monday + 7, map[]) == n
    ensures WorkdaysIn(monday + i, monday + 7, map[]) == if i < 5 then n + 1 else n
  {
    assert (monday + i) % 7 == if i < 6 then i + 1 else 0;
    WeekdayOfOrdinal(monday + i, map[]);
    CountFirst(monday + i, monday + i + 1, monday + 7, map[]);
  }

  lemma WeekFromMonday(lo: Date)
    requires lo % 7 == 1
    ensures WorkdaysIn(lo, lo + 7, map[]) == 5
  {
    DayAfterMonday(lo, 6, 0);
    DayAfterMonday(lo, 5, 0);
    DayAfterMonday(lo, 4, 0);
    DayAfterMonday(lo, 3, 1);
    DayAfterMonday(lo, 2, 2);
    DayAfterMonday(lo, 1, 3);
    DayAfterMonday(lo, 0, 4);
  }

  /** Shifting a week by a day drops a date and adds the same day of the next week. */
  lemma {:induction false} OneWeek(lo: Date)
    ensures WorkdaysIn(lo, lo + 7, map[]) == 5
    decreases (lo + 6) % 7
  {
    if lo % 7 == 1 {
      WeekFromMonday(lo);
    } else {
      OneWeek(lo - 1);
      CountFirst(lo - 1, lo, lo + 6, map[]);
      CountLast(lo, lo + 7, map[]);
    }
  }

  /** Over dates the calendar does not mention, five workdays back from a weekday are a week, up to 143 weeks. */
  lemma FiveDaysBackAreAWeek(date: Date, k: nat, calendar: Calendar)
    requires 1 <= date % 7 <= 5 && k <= 143 && forall d :: date - 7 * k <= d < date ==> d !in calendar
    ensures Subtract(date, 5 * k, calendar) == date - 7 * k
  {
    if k > 0 {
      WeeksHaveFiveDays(date - 7 * k, k, calendar);
      WeekdayOfOrdinal(date - 7 * k, calendar);
      SameDayWeeksBefore(date, k);
      SubtractIsTheOnlyLanding(date, 5 * k, calendar, date - 7 * k);
    } else {
      SubtractNeverLater(date, 0, calendar);
    }
  }

  lemma FiveDaysForwardAreAWeek(date: Date, k: nat, calendar: Calendar)
    requires 1 <= date % 7 <= 5 && k <= 143 && forall d :: date < d <= date + 7 * k ==> d !in calendar
    ensures Add(date, 5 * k, calendar) == date + 7 * k
  {
    if k > 0 {
      WeeksHaveFiveDays(date + 1, k, calendar);
      WeekdayOfOrdinal(date + 7 * k, calendar);
      SameDayWeeksBefore(date + 7 * k, k);
    }
    AddIsTheOnlyLanding(date, 5 * k, calendar, date + 7 * k);
  }

  lemma SameDayWeeksBefore(date: Date, k: nat)
    ensures (date - 7 * k) % 7 == date % 7
  {
  }

  /** From a Monday the workday before is the Friday, and from a Friday the next one is the Monday. */
  lemma WeekendsAreSkipped(date: Date)
    ensures date % 7 == 1 ==> Subtract(date, 1, map[]) == date - 3
    ensures date % 7 == 5 ==> Add(date, 1, map[]) == date + 3
  {
    if date % 7 == 1 {
      assert OpenDays(date - 3, date, map[]) == {date - 3};
      SubtractLandsOnOpenDay(date, 1, map[], date - 3);
    }
    if date % 7 == 5 {
      assert OpenDays(date + 1, date + 4, map[]) == {date + 3};
      AddLandsOnOpenDay(date, 1, map[], date + 3);
    }
  }

  /** A fraction of a workday counts as a whole one. */
  lemma FractionsRoundUp(x: real, n: int)
    ensures Fractional(x).Ceil() == n <==> (n as real) - 1.0 < x <= n as real
    ensures Whole(n).Ceil() == n
  {
  }

  // ---- the algebra of workdays ----

  lemma SubtractNeverLater(date: Date, n: int, calendar: Calendar)
    ensures date - REACH <= Subtract(date, n, calendar) <= date
    ensures Subtract(date, n, calendar) == date <==> n <= 0
  {
    StepBackLands(date, n, calendar, REACH);
  }

  /** A later date never has an earlier n-th workday before it, cap or no cap. */
  lemma SubtractMonotoneInDate(a: Date, b: Date, n: int, calendar: Calendar)
    requires a <= b
    ensures Subtract(a, n, calendar) <= Subtract(b, n, calendar)
  {
    var r, s := Subtract(a, n, calendar), Subtract(b, n, calendar);
    StepBackLands(a, n, calendar, REACH);
    StepBackLands(b, n, calendar, REACH);
    if s < r {
      CountSplits(s, r, b, calendar);
      CountSplits(r, a, b, calendar);
    }
  }

  /** More days never end later, cap or no cap. */
  lemma SubtractAntitoneInDays(date: Date, n: int, m: int, calendar: Calendar)
    requires n <= m
    ensures Subtract(date, m, calendar) <= Subtract(date, n, calendar)
  {
    var r, s := Subtract(date, m, calendar), Subtract(date, n, calendar);
    StepBackLands(date, m, calendar, REACH);
    StepBackLands(date, n, calendar, REACH);
    if s < r && n > 0 {
      CountSplits(s, r, date, calendar);
    }
  }

  /** The walk for n days ends on its own, before the iteration cap. */
  ghost predicate WithinReach(date: Date, n: int, calendar: Calendar) {
    n <= WorkdaysIn(date - REACH, date, calendar)
  }

  /** Within reach, a positive subtraction lands on a workday with exactly n workdays from there to the start. */
  lemma SubtractWithinReach(date: Date, n: int, calendar: Calendar)
    requires n > 0
    ensures var r := Subtract(date, n, calendar);
      WithinReach(date, n, calendar) <==> IsWorkday(r, calendar) && WorkdaysIn(r, date, calendar) == n
  {
    var r := Subtract(date, n, calendar);
    StepBackLands(date, n, calendar, REACH);
    CountSplits(date - REACH, r, date, calendar);
  }

  /** Within reach, subtracting a and then b is subtracting a + b. */
  lemma SubtractComposes(date: Date, a: nat, b: nat, calendar: Calendar)
    requires WithinReach(date, a + b, calendar)
    ensures Subtract(Subtract(date, a, calendar), b, calendar) == Subtract(date, a + b, calendar)
  {
    var m, r := Subtract(date, a, calendar), Subtract(date, a + b, calendar);
    if a > 0 && b > 0 {
      SubtractWithinReach(date, a, calendar);
      SubtractWithinReach(date, a + b, calendar);
      SubtractAntitoneInDays(date, a, a + b, calendar);
      SubtractNeverLater(date, a, calendar);
      SubtractNeverLater(date, a + b, calendar);
      CountSplits(r, m, date, calendar);
      SubtractIsTheOnlyLanding(m, b, calendar, r);
    }
  }

  /** w is the first workday on or after the given date. */
  ghost predicate FirstWorkdayFrom(w: Date, date: Date, calendar: Calendar) {
    date <= w && IsWorkday(w, calendar) && WorkdaysIn(date, w, calendar) == 0
  }

  ghost predicate LastWorkdayUpTo(w: Date, date: Date, calendar: Calendar) {
    w <= date && IsWorkday(w, calendar) && WorkdaysIn(w + 1, date + 1, calendar) == 0
  }

  /** Going n workdays back and n forward again ends on the first workday on or after the start. */
  lemma AddUndoesSubtract(date: Date, n: int, calendar: Calendar, w: Date)
    requires n > 0 && WithinReach(date, n, calendar)
    requires FirstWorkdayFrom(w, date, calendar) && w - Subtract(date, n, calendar) <= REACH
    ensures Add(Subtract(date, n, calendar), n, calendar) == w
  {
    var r := Subtract(date, n, calendar);
    SubtractWithinReach(date, n, calendar);
    SubtractNeverLater(date, n, calendar);
    CountSplits(r, r + 1, date, calendar);
    CountSplits(r + 1, date, w + 1, calendar);
    CountLast(date, w + 1, calendar);
    AddIsTheOnlyLanding(r, n, calendar, w);
  }

  /** Going n workdays forward and n back again ends on the last workday on or before the start. */
  lemma SubtractUndoesAdd(date: Date, n: int, calendar: Calendar, w: Date)
    requires n > 0 && n <= WorkdaysIn(date + 1, date + REACH + 1, calendar)
    requires LastWorkdayUpTo(w, date, calendar) && Add(date, n, calendar) - w <= REACH
    ensures Subtract(Add(date, n, calendar), n, calendar) == w
  {
    var r := Add(date, n, calendar);
    StepForwardLands(date, n, calendar, REACH);
    CountSplits(date + 1, r + 1, date + REACH + 1, calendar);
    CountLast(date + 1, r + 1, calendar);
    CountSplits(w, date + 1, r, calendar);
    CountSplits(w, w + 1, date + 1, calendar);
    SubtractIsTheOnlyLanding(r, n, calendar, w);
  }

  /** Two calendars that agree on the dates from the landing up to the start give the same landing. */
  lemma {:induction false} StepBackReadsOnlyItsWalk(date: Date, n: int, c: Calendar, d: Calendar, budget: nat)
    requires forall x :: StepBack(date, n, c, budget) <= x < date ==> IsWorkday(x, c) == IsWorkday(x, d)
    ensures StepBack(date, n, d, budget) == StepBack(date, n, c, budget)
    decreases budget
  {
    if n > 0 && budget > 0 {
      var left := if IsWorkday(date - 1, c) then n - 1 else n;
      StepBackLands(date - 1, left, c, budget - 1);
      assert IsWorkday(date - 1, c) == IsWorkday(date - 1, d);
      StepBackReadsOnlyItsWalk(date - 1, left, c, d, budget - 1);
    }
  }

  /** get_calendar_map(start, end): the rows of the work calendar in a closed date range. */
  function Window(calendar: Calendar, start: Date, end: Date): Calendar {
    map d | d in calendar && start <= d <= end :: calendar[d]
  }

  /** A walk through a window sees nothing of the calendar outside the window. */
  lemma WindowHidesTheRest(date: Date, n: int, c: Calendar, d: Calendar, start: Date, end: Date)
    requires forall x :: start <= x <= end ==> (x in c <==> x in d) && (x in c ==> c[x] == d[x])
    ensures Subtract(date, n, Window(c, start, end)) == Subtract(date, n, Window(d, start, end))
  {
    assert Window(c, start, end) == Window(d, start, end);
  }

  /** A window reaching back to the landing gives the landing of the whole calendar. */
  lemma WindowHarmlessWhenItReaches(date: Date, n: int, calendar: Calendar, start: Date, end: Date)
    requires start <= Subtract(date, n, calendar) && date <= end + 1
    ensures Subtract(date, n, Window(calendar, start, end)) == Subtract(date, n, calendar)
  {
    StepBackReadsOnlyItsWalk(date, n, calendar, Window(calendar, start, end), REACH);
  }

  /** A window that does not reach still cannot bring the landing back inside it. */
  lemma WindowKeepsLandingOutside(date: Date, n: int, calendar: Calendar, start: Date, end: Date)
    requires Subtract(date, n, calendar) < start && date <= end + 1
    ensures Subtract(date, n, Window(calendar, start, end)) < start
  {
    var w := Window(calendar, start, end);
    if start <= Subtract(date, n, w) {
      StepBackReadsOnlyItsWalk(date, n, w, calendar, REACH);
    }
  }

  /** Whether a window reaches the landing can be seen from the windowed landing, and then the two are one. */
  lemma WindowReaches(date: Date, n: int, calendar: Calendar, start: Date, end: Date)
    requires date <= end + 1
    ensures start <= Subtract(date, n, Window(calendar, start, end)) <==> start <= Subtract(date, n, calendar)
    ensures start <= Subtract(date, n, calendar) ==>
      Subtract(date, n, Window(calendar, start, end)) == Subtract(date, n, calendar)
  {
    if start <= Subtract(date, n, calendar) {
      WindowHarmlessWhenItReaches(date, n, calendar, start, end);
    } else {
      WindowKeepsLandingOutside(date, n, calendar, start, end);
    }
  }
}
