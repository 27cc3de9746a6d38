/** The banking calendar: `src/domain/inputValidation.ts` and the month stepping of
    `src/domain/recurring.ts`.

    A date is its (year, month, day) triple; the order of the `YYYY-MM-DD` strings is the
    lexicographic order of the triples. Month lengths and leap years follow section 5.7 and
    Appendix C of RFC 3339. An instant is a UTC date with a time of day in milliseconds. */
module Calendar {
  import opened Arithmetic
  import opened Wrappers

  datatype CalendarDate = CalendarDate(year: int, month: int, day: int)

  predicate IsLeapYear(year: int) {
    year % 4 == 0 && (year % 100 != 0 || year % 400 == 0)
  }

  function DaysInMonth(year: int, month: int): int {
    if month == 2 then (if IsLeapYear(year) then 29 else 28)
    else if month == 4 || month == 6 || month == 9 || month == 11 then 30
    else 31
  }

  predicate IsIsoDate(d: CalendarDate) {
    && 0 <= d.year <= 9999
    && 1 <= d.month <= 12
    && 1 <= d.day <= DaysInMonth(d.year, d.month)
  }

  type Date = d: CalendarDate | IsIsoDate(d) witness CalendarDate(1970, 1, 1)

  predicate Before(a: CalendarDate, b: CalendarDate) {
    || a.year < b.year
    || (a.year == b.year && a.month < b.month)
    || (a.year == b.year && a.month == b.month && a.day < b.day)
  }

  predicate AtMost(a: CalendarDate, b: CalendarDate) {
    !Before(b, a)
  }

  /** Months since January of year 0: the `YYYY-MM` prefix of a date. */
  function MonthIndex(d: CalendarDate): int {
    12 * d.year + d.month - 1
  }

  // ---------------------------------------------------------------- instants

  const MS_PER_DAY := 86_400_000

  datatype UtcInstant = UtcInstant(date: Date, ms: int)

  type Instant = t: UtcInstant | 0 <= t.ms < MS_PER_DAY
    witness UtcInstant(CalendarDate(1970, 1, 1), 0)

  predicate NotAfter(a: Instant, b: Instant) {
    Before(a.date, b.date) || (a.date == b.date && a.ms <= b.ms)
  }

  /** The UTC day number of a date, counted from 1 January 1970. */
  function EpochDay(d: Date): int {
    DaysBeforeYear(d.year) + DaysBeforeMonth(d.year, d.month) + d.day - 719_529
  }

  function DaysBeforeYear(year: int): int {
    365 * year + (year + 3) / 4 - (year + 99) / 100 + (year + 399) / 400
  }

  function DaysBeforeMonth(year: int, month: int): int
    requires 1 <= month <= 13
  {
    if month == 1 then 0 else DaysBeforeMonth(year, month - 1) + DaysInMonth(year, month - 1)
  }

  lemma {:induction false} YearLength(year: int)
    requires 0 <= year
    ensures DaysBeforeYear(year + 1) == DaysBeforeYear(year) + (if IsLeapYear(year) then 366 else 365)
  {
    MultiplesBelow(year, 4);
    MultiplesBelow(year, 100);
    MultiplesBelow(year, 400);
    if year % 100 == 0 {
      MultipleOfMultiple(year, 4, 25);
    }
    if year % 400 == 0 {
      MultipleOfMultiple(year, 100, 4);
    }
  }

  lemma {:induction false} MonthsFillTheYear(year: int)
    ensures DaysBeforeMonth(year, 13) == if IsLeapYear(year) then 366 else 365
  {
    assert DaysBeforeMonth(year, 2) == 31;
    assert DaysBeforeMonth(year, 3) == 31 + DaysInMonth(year, 2);
    assert DaysBeforeMonth(year, 5) == DaysBeforeMonth(year, 3) + 61;
    assert DaysBeforeMonth(year, 7) == DaysBeforeMonth(year, 5) + 61;
    assert DaysBeforeMonth(year, 9) == DaysBeforeMonth(year, 7) + 62;
    assert DaysBeforeMonth(year, 11) == DaysBeforeMonth(year, 9) + 61;
  }

  lemma {:induction false} LaterMonthStartsLater(year: int, m1: int, m2: int)
    requires 1 <= m1 < m2 <= 13
    ensures DaysBeforeMonth(year, m1) + DaysInMonth(year, m1) <= DaysBeforeMonth(year, m2)
    decreases m2
  {
    if m1 + 1 < m2 {
      LaterMonthStartsLater(year, m1, m2 - 1);
    }
  }

  lemma {:induction false} LaterYearStartsLater(y1: int, y2: int)
    requires 0 <= y1 < y2
    ensures DaysBeforeYear(y1) + DaysBeforeMonth(y1, 13) <= DaysBeforeYear(y2)
    decreases y2
  {
    YearLength(y2 - 1);
    MonthsFillTheYear(y1);
    if y1 < y2 - 1 {
      LaterYearStartsLater(y1, y2 - 1);
    }
  }

  lemma {:induction false} EarlierDateHasSmallerDay(a: Date, b: Date)
    requires Before(a, b)
    ensures EpochDay(a) < EpochDay(b)
  {
    if a.year < b.year {
      LaterYearStartsLater(a.year, b.year);
      LaterMonthStartsLater(a.year, a.month, 13);
      if b.month > 1 {
        LaterMonthStartsLater(b.year, 1, b.month);
      }
    } else if a.month < b.month {
      LaterMonthStartsLater(a.year, a.month, b.month);
    }
  }

  /** Day numbers order dates exactly as their strings do, and two dates share a day number only if
      they are the same date. */
  lemma {:induction false} EpochDayIsCalendarOrder(a: Date, b: Date)
    ensures EpochDay(a) < EpochDay(b) <==> Before(a, b)
    ensures EpochDay(a) == EpochDay(b) <==> a == b
  {
    hide EpochDay, IsIsoDate;
    if Before(a, b) {
      EarlierDateHasSmallerDay(a, b);
    } else if Before(b, a) {
      EarlierDateHasSmallerDay(b, a);
    }
  }

  // ---------------------------------------------------------------- day numbers count calendar days

  const LAST_DATE := CalendarDate(9999, 12, 31)

  /** The next day of the calendar, by the lengths of the months alone. */
  function DayAfter(d: Date): (next: Date)
    requires d != LAST_DATE
  {
    if d.day < DaysInMonth(d.year, d.month) then CalendarDate(d.year, d.month, d.day + 1)
    else if d.month < 12 then CalendarDate(d.year, d.month + 1, 1)
    else CalendarDate(d.year + 1, 1, 1)
  }

  /** The date so many days later; `None` past the end of the calendar. */
  function DaysLater(d: Date, n: nat): Option<Date>
    decreases n
  {
    if n == 0 then Some(d)
    else if d == LAST_DATE then None
    else DaysLater(DayAfter(d), n - 1)
  }

  lemma {:induction false} NextDayNumber(d: Date)
    requires d != LAST_DATE
    ensures EpochDay(DayAfter(d)) == EpochDay(d) + 1
  {
    if d.day == DaysInMonth(d.year, d.month) && d.month == 12 {
      YearLength(d.year);
      MonthsFillTheYear(d.year);
      assert DaysBeforeMonth(d.year, 13) == DaysBeforeMonth(d.year, 12) + 31;
    }
  }

  /** The count starts on 1 January 1970, and the difference of two day numbers is the number of steps from
      day to day that the calendar takes from the one date to the other. */
  lemma {:induction false} DayNumbersCountDays(a: Date, b: Date, n: nat)
    ensures EpochDay(CalendarDate(1970, 1, 1)) == 0
    ensures DaysLater(a, n) == Some(b) <==> EpochDay(b) - EpochDay(a) == n
    decreases n
  {
    FirstDayNumber();
    hide EpochDay, IsIsoDate, DayAfter;
    EpochDayIsCalendarOrder(a, b);
    if n > 0 {
      if a == LAST_DATE {
        NothingAfterLast(b);
        EpochDayIsCalendarOrder(b, a);
      } else {
        NextDayNumber(a);
        DayNumbersCountDays(DayAfter(a), b, n - 1);
      }
    }
  }

  lemma {:induction false} FirstDayNumber()
    ensures EpochDay(CalendarDate(1970, 1, 1)) == 0
  {
    assert DaysBeforeMonth(1970, 1) == 0;
  }

  lemma {:induction false} NothingAfterLast(d: Date)
    ensures !Before(LAST_DATE, d)
  {
  }

  // ---------------------------------------------------------------- the ten-year window

  /** `setUTCFullYear(y - 10)`: 29 February has no counterpart ten years earlier and becomes 1 March.
      A year below zero prints with a leading `-`, which sorts before every digit. */
  function OldestAllowed(today: Date): CalendarDate {
    if today.month == 2 && today.day == 29 && !IsLeapYear(today.year - 10)
    then CalendarDate(today.year - 10, 3, 1)
    else CalendarDate(today.year - 10, today.month, today.day)
  }

  predicate IsAllowedEffectiveDate(d: CalendarDate, now: Instant) {
    IsIsoDate(d) && AtMost(OldestAllowed(now.date), d) && AtMost(d, now.date)
  }

  /** A date is allowed when it has come and its tenth anniversary, read as a date string, has not passed; an
      anniversary on 29 February stands between 28 February and 1 March of any year. */
  lemma {:induction false} AllowedIsTenYears(d: CalendarDate, now: Instant)
    ensures IsAllowedEffectiveDate(d, now)
            <==> IsIsoDate(d) && AtMost(d, now.date) && AtMost(now.date, CalendarDate(d.year + 10, d.month, d.day))
  {
  }

  // ---------------------------------------------------------------- monthly occurrences

  function Min(a: int, b: int): int { if a < b then a else b }

  function MonthOccurrence(year: int, month: int, anchorDay: int): Option<Date> {
    if year < 1 || year > 9999 || month < 1 || month > 12 || anchorDay < 1 || anchorDay > 31 then None
    else Some(CalendarDate(year, month, Min(anchorDay, DaysInMonth(year, month))))
  }

  function NextMonthOccurrence(date: Date, anchorDay: int): Option<Date> {
    if date.month == 12 then MonthOccurrence(date.year + 1, 1, anchorDay)
    else MonthOccurrence(date.year, date.month + 1, anchorDay)
  }

  const FIRST_MONTH := 12 // January of year 1
  const MONTH_LIMIT := 120_000 // January of year 10000

  /** The date of the anchor day in the month with index `m`, clamped to the month's length. */
  function OccurrenceIn(m: int, anchorDay: int): (d: Date)
    requires FIRST_MONTH <= m < MONTH_LIMIT
    requires 1 <= anchorDay <= 31
  {
    CalendarDate(m / 12, m % 12 + 1, Min(anchorDay, DaysInMonth(m / 12, m % 12 + 1)))
  }

  predicate IsAnchored(d: Date, anchorDay: int) {
    MonthOccurrence(d.year, d.month, anchorDay) == Some(d)
  }

  lemma {:induction false} AnchoredIsOccurrence(d: Date, anchorDay: int)
    requires IsAnchored(d, anchorDay)
    ensures FIRST_MONTH <= MonthIndex(d) < MONTH_LIMIT && 1 <= anchorDay <= 31
    ensures d == OccurrenceIn(MonthIndex(d), anchorDay)
  {
  }

  /** Stepping to the next month from any date lands on the anchored date of the following month, and
      fails exactly past December of year 9999. */
  lemma {:induction false} NextIsFollowingMonth(d: Date, anchorDay: int)
    requires 1 <= anchorDay <= 31
    ensures NextMonthOccurrence(d, anchorDay)
         == if FIRST_MONTH <= MonthIndex(d) + 1 < MONTH_LIMIT
            then Some(OccurrenceIn(MonthIndex(d) + 1, anchorDay)) else None
  {
    if d.month == 12 {
      assert (MonthIndex(d) + 1) / 12 == d.year + 1;
    } else {
      assert (MonthIndex(d) + 1) / 12 == d.year;
    }
  }

  lemma {:induction false} OccurrenceOrder(m1: int, m2: int, anchorDay: int)
    requires FIRST_MONTH <= m1 < MONTH_LIMIT && FIRST_MONTH <= m2 < MONTH_LIMIT
    requires 1 <= anchorDay <= 31
    ensures MonthIndex(OccurrenceIn(m1, anchorDay)) == m1
    ensures m1 < m2 <==> Before(OccurrenceIn(m1, anchorDay), OccurrenceIn(m2, anchorDay))
  {
    assert m1 == 12 * (m1 / 12) + m1 % 12;
    assert m2 == 12 * (m2 / 12) + m2 % 12;
  }

  // ---------------------------------------------------------------- catch-up schedules

  /** Dates due so far, and the first date that is not. */
  datatype Schedule = Schedule(due: seq<Date>, next: Date)

  /** What the catch-up loop computes from `first`: `None` when more than `maximum` dates are due or
      the calendar runs out. */
  function DueThrough(first: Date, anchorDay: int, through: Date, maximum: nat): Option<Schedule>
    decreases maximum
  {
    if Before(through, first) then Some(Schedule([], first))
    else if maximum == 0 then None
    else match NextMonthOccurrence(first, anchorDay)
      case None => None
      case Some(second) =>
        match DueThrough(second, anchorDay, through, maximum - 1)
        case None => None
        case Some(rest) => Some(Schedule([first] + rest.due, rest.next))
  }

  function Prepend(due: seq<Date>, rest: Option<Schedule>): Option<Schedule> {
    match rest
    case None => None
    case Some(s) => Some(Schedule(due + s.due, s.next))
  }

  method OccurrenceDates(first: Date, anchorDay: int, through: Date, maximum: nat)
    returns (schedule: Option<Schedule>)
    ensures schedule == DueThrough(first, anchorDay, through, maximum)
  {
    hide IsLeapYear, DaysInMonth, MonthOccurrence, NextMonthOccurrence, IsIsoDate, Before, Prepend;
    var due: seq<Date> := [];
    var cursor := first;
    PrependNothing(DueThrough(first, anchorDay, through, maximum));
    while !Before(through, cursor)
      invariant |due| <= maximum
      invariant DueThrough(first, anchorDay, through, maximum)
             == Prepend(due, DueThrough(cursor, anchorDay, through, maximum - |due|))
      decreases maximum - |due|
    {
      PrependNone(due);
      if |due| >= maximum {
        return None;
      }
      var next := NextMonthOccurrence(cursor, anchorDay);
      if next.None? {
        return None;
      }
      PrependOne(due, cursor, DueThrough(next.value, anchorDay, through, maximum - |due| - 1));
      due := due + [cursor];
      cursor := next.value;
    }
    PrependToLast(due, cursor);
    return Some(Schedule(due, cursor));
  }

  lemma {:induction false} PrependNothing(rest: Option<Schedule>)
    ensures Prepend([], rest) == rest
  {
    if rest.Some? {
      assert [] + rest.value.due == rest.value.due;
    }
  }

  lemma {:induction false} PrependNone(due: seq<Date>)
    ensures Prepend(due, None) == None
  {
  }

  lemma {:induction false} PrependOne(due: seq<Date>, d: Date, rest: Option<Schedule>)
    ensures Prepend(due, match rest case None => None case Some(s) => Some(Schedule([d] + s.due, s.next)))
         == Prepend(due + [d], rest)
  {
    if rest.Some? {
      assert due + ([d] + rest.value.due) == due + [d] + rest.value.due;
    }
  }

  lemma {:induction false} PrependToLast(due: seq<Date>, next: Date)
    ensures Prepend(due, Some(Schedule([], next))) == Some(Schedule(due, next))
  {
    assert due + [] == due;
  }

  /** The closed form of a schedule that starts on an anchored date: one date per calendar month, all
      of them on or before `through`, and the next one after it. */
  ghost predicate IsScheduleOf(s: Schedule, first: Date, anchorDay: int, through: Date, maximum: nat)
    requires IsAnchored(first, anchorDay)
  {
    && |s.due| <= maximum
    && MonthIndex(first) + |s.due| < MONTH_LIMIT
    && s.next == OccurrenceIn(MonthIndex(first) + |s.due|, anchorDay)
    && (forall i :: 0 <= i < |s.due| ==> s.due[i] == OccurrenceIn(MonthIndex(first) + i, anchorDay))
    && (forall i :: 0 <= i < |s.due| ==> AtMost(s.due[i], through))
    && Before(through, s.next)
  }

  lemma {:induction false} FollowingMonth(d: Date, anchorDay: int) returns (next: Date)
    requires IsAnchored(d, anchorDay) && NextMonthOccurrence(d, anchorDay).Some?
    ensures NextMonthOccurrence(d, anchorDay) == Some(next) && IsAnchored(next, anchorDay)
    ensures MonthIndex(next) == MonthIndex(d) + 1
  {
    next := NextMonthOccurrence(d, anchorDay).value;
  }

  lemma {:induction false} ScheduleIsMonthly(first: Date, anchorDay: int, through: Date, maximum: nat)
    requires IsAnchored(first, anchorDay)
    ensures var r := DueThrough(first, anchorDay, through, maximum);
            r.Some? ==> IsScheduleOf(r.value, first, anchorDay, through, maximum)
    decreases maximum
  {
    hide IsLeapYear, DaysInMonth, MonthOccurrence, NextMonthOccurrence, OccurrenceIn, Before;
    AnchoredIsOccurrence(first, anchorDay);
    var r := DueThrough(first, anchorDay, through, maximum);
    if r.Some? && !Before(through, first) {
      var second := FollowingMonth(first, anchorDay);
      ScheduleIsMonthly(second, anchorDay, through, maximum - 1);
      var rest := DueThrough(second, anchorDay, through, maximum - 1).value;
      forall i | 0 <= i < |r.value.due|
        ensures r.value.due[i] == OccurrenceIn(MonthIndex(first) + i, anchorDay)
        ensures AtMost(r.value.due[i], through)
      {
        if i > 0 {
          assert r.value.due[i] == rest.due[i - 1];
        }
      }
    }
  }

  /** Conversely, a schedule exists as soon as one of the next `maximum` occurrences is still to come. */
  lemma {:induction false} ScheduleExists(first: Date, anchorDay: int, through: Date, maximum: nat, n: nat)
    requires IsAnchored(first, anchorDay)
    requires n <= maximum && MonthIndex(first) + n < MONTH_LIMIT
    requires Before(through, OccurrenceIn(MonthIndex(first) + n, anchorDay))
    ensures DueThrough(first, anchorDay, through, maximum).Some?
    decreases n
  {
    hide IsLeapYear, DaysInMonth, MonthOccurrence, NextMonthOccurrence, OccurrenceIn, Before;
    AnchoredIsOccurrence(first, anchorDay);
    if !Before(through, first) {
      NextIsFollowingMonth(first, anchorDay);
      var second := FollowingMonth(first, anchorDay);
      ScheduleExists(second, anchorDay, through, maximum - 1, n - 1);
    }
  }

  /** And none exists when more than `maximum` of them are due. */
  lemma {:induction false} NoSchedule(first: Date, anchorDay: int, through: Date, maximum: nat)
    requires IsAnchored(first, anchorDay)
    requires MonthIndex(first) + maximum < MONTH_LIMIT
    requires AtMost(OccurrenceIn(MonthIndex(first) + maximum, anchorDay), through)
    ensures DueThrough(first, anchorDay, through, maximum) == None
    decreases maximum
  {
    hide IsLeapYear, DaysInMonth, MonthOccurrence, NextMonthOccurrence, OccurrenceIn;
    AnchoredIsOccurrence(first, anchorDay);
    if maximum > 0 {
      OccurrenceOrder(MonthIndex(first), MonthIndex(first) + maximum, anchorDay);
      NextIsFollowingMonth(first, anchorDay);
      var second := FollowingMonth(first, anchorDay);
      NoSchedule(second, anchorDay, through, maximum - 1);
    }
  }

  /** Catching up to `t1` and later from there to `t2` posts exactly the dates that one catch-up to
      `t2` would have posted, in the same order. */
  lemma {:induction false} CatchUpComposes(first: Date, anchorDay: int, t1: Date, t2: Date, n1: nat, n2: nat)
    requires AtMost(t1, t2)
    requires DueThrough(first, anchorDay, t1, n1).Some?
    requires DueThrough(DueThrough(first, anchorDay, t1, n1).value.next, anchorDay, t2, n2).Some?
    ensures var s1 := DueThrough(first, anchorDay, t1, n1).value;
            var s2 := DueThrough(s1.next, anchorDay, t2, n2).value;
            DueThrough(first, anchorDay, t2, n1 + n2) == Some(Schedule(s1.due + s2.due, s2.next))
    decreases n1
  {
    var s1 := DueThrough(first, anchorDay, t1, n1).value;
    if Before(t1, first) {
      MoreRoomSameSchedule(first, anchorDay, t2, n2, n1 + n2);
      assert s1.due + DueThrough(first, anchorDay, t2, n2).value.due
          == DueThrough(first, anchorDay, t2, n2).value.due;
    } else {
      var second := NextMonthOccurrence(first, anchorDay).value;
      CatchUpComposes(second, anchorDay, t1, t2, n1 - 1, n2);
      var rest := DueThrough(second, anchorDay, t1, n1 - 1).value;
      var s2 := DueThrough(s1.next, anchorDay, t2, n2).value;
      assert [first] + (rest.due + s2.due) == s1.due + s2.due;
    }
  }

  lemma {:induction false} MoreRoomSameSchedule(first: Date, anchorDay: int, through: Date, n: nat, more: nat)
    requires n <= more && DueThrough(first, anchorDay, through, n).Some?
    ensures DueThrough(first, anchorDay, through, more) == DueThrough(first, anchorDay, through, n)
    decreases n
  {
    if !Before(through, first) {
      MoreRoomSameSchedule(NextMonthOccurrence(first, anchorDay).value, anchorDay, through, n - 1, more - 1);
    }
  }

  /** The cap of 120 occurrences alone keeps a catch-up inside the ten-year window: no separate date
      check is needed, in leap years and at month ends included. */
  lemma {:induction false} CapKeepsDatesInWindow(first: Date, anchorDay: int, now: Instant)
    requires IsAnchored(first, anchorDay)
    requires DueThrough(first, anchorDay, now.date, 120).Some?
    ensures forall d :: d in DueThrough(first, anchorDay, now.date, 120).value.due
                        ==> IsAllowedEffectiveDate(d, now)
  {
    hide IsLeapYear, DaysInMonth, MonthOccurrence, NextMonthOccurrence, DueThrough;
    var s := DueThrough(first, anchorDay, now.date, 120).value;
    var m := MonthIndex(first);
    AnchoredIsOccurrence(first, anchorDay);
    ScheduleIsMonthly(first, anchorDay, now.date, 120);
    forall d | d in s.due
      ensures IsAllowedEffectiveDate(d, now)
    {
      var i :| 0 <= i < |s.due| && s.due[i] == d;
      OccurrenceWithinTenYears(m + i, m + |s.due|, anchorDay, now.date);
    }
  }

  /** If the anchored date at most 120 months later is still to come, this one is not too old. */
  lemma {:induction false} OccurrenceWithinTenYears(m: int, later: int, anchorDay: int, today: Date)
    requires FIRST_MONTH <= m < MONTH_LIMIT && m <= later <= m + 120 && later < MONTH_LIMIT
    requires 1 <= anchorDay <= 31
    requires Before(today, OccurrenceIn(later, anchorDay))
    ensures AtMost(OldestAllowed(today), OccurrenceIn(m, anchorDay))
  {
    assert later == 12 * (later / 12) + later % 12;
    assert m == 12 * (m / 12) + m % 12;
    if later == m + 120 {
      assert later / 12 == m / 12 + 10 && later % 12 == m % 12;
      if today.month == 2 {
        assert !(IsLeapYear(today.year) && IsLeapYear(today.year - 10));
      }
    }
  }

  /** One more occurrence would be too many: with a cap of 121 this catch-up would post a date that the
      ten-year window refuses. */
  lemma {:induction false} CapIsTight()
    ensures var first := CalendarDate(2014, 1, 15); var today := CalendarDate(2024, 1, 16);
            && IsAnchored(first, 15)
            && DueThrough(first, 15, today, 120) == None
            && !IsAllowedEffectiveDate(first, UtcInstant(today, 0))
  {
    assert OccurrenceIn(24_288, 15) == CalendarDate(2024, 1, 15);
    NoSchedule(CalendarDate(2014, 1, 15), 15, CalendarDate(2024, 1, 16), 120);
  }
}
