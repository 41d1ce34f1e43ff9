/**
 * The due-check of the rank-tracking cron job (`isDue`). Instants are integer
 * milliseconds since 1970-01-01T00:00:00Z; the UTC calendar fields are derived
 * with floor division (Dafny's `/` and `%` are Euclidean, which agrees with
 * floor division for a positive divisor, so instants before 1970 are right too).
 */
module Schedule {
  import opened Wrappers

  const MsPerHour: int := 60 * 60 * 1000
  const MsPerDay: int := 24 * MsPerHour
  /** The weekly guard: more than six days must have passed since the last run. */
  const WeeklyGapMs: int := 6 * 24 * 60 * 60 * 1000
  /** `day_of_week ?? 1`: an unset weekday means Monday. */
  const DefaultWeekday: int := 1

  /** `getUTCHours()`. */
  function UtcHour(t: int): (h: int)
    ensures 0 <= h < 24
  {
    (t / MsPerHour) % 24
  }

  /** Index of the UTC calendar day; two instants have the same `YYYY-MM-DD` prefix iff it is equal. */
  function UtcDay(t: int): int {
    t / MsPerDay
  }

  /** `getUTCDay()`, 0 = Sunday: day 0 (1970-01-01) was a Thursday. */
  function UtcWeekday(t: int): (d: int)
    ensures 0 <= d < 7
  {
    (UtcDay(t) + 4) % 7
  }

  datatype Frequency = Daily | Weekly

  /** The cohort a schedule tracks (radius and notes only matter to the provider and are omitted). */
  datatype Cohort = Cohort(id: string, name: string, postcode: string, keyword: Option<string>, businessName: Option<string>)

  datatype ScheduleRow = ScheduleRow(
    id: string,
    ownerId: string,
    cohortId: string,
    frequency: Frequency,
    dayOfWeek: Option<int>,
    hourUtc: int,
    isActive: bool,
    lastRunAt: Option<int>,
    cohort: Option<Cohort>)

  /** The weekday a weekly schedule fires on. */
  function Weekday(s: ScheduleRow): int {
    s.dayOfWeek.GetOr(DefaultWeekday)
  }

  /** `isDue(schedule, now)`. */
  function IsDue(s: ScheduleRow, now: int): (due: bool)
    ensures due ==> s.isActive && UtcHour(now) == s.hourUtc
    ensures due && s.frequency == Weekly ==> UtcWeekday(now) == Weekday(s)
    ensures due && s.frequency == Weekly && s.lastRunAt.Some? ==> now > s.lastRunAt.value
  {
    if !s.isActive then false
    else if UtcHour(now) != s.hourUtc then false
    else if s.frequency == Daily then
      match s.lastRunAt
      case None => true
      case Some(last) => UtcDay(last) != UtcDay(now)
    else if UtcWeekday(now) != Weekday(s) then false
    else
      match s.lastRunAt
      case None => true
      case Some(last) => now - last > WeeklyGapMs
  }

  /** The UTC day of `t` is the unique `d` with `d * MsPerDay <= t < (d + 1) * MsPerDay`. */
  lemma UtcDayBounds(t: int, d: int)
    ensures UtcDay(t) == d <==> d * MsPerDay <= t < d * MsPerDay + MsPerDay
  {
    var q := UtcDay(t);
    assert q * MsPerDay <= t < q * MsPerDay + MsPerDay;
    if d < q {
      assert d * MsPerDay + MsPerDay <= q * MsPerDay;
    } else if d > q {
      assert q * MsPerDay + MsPerDay <= d * MsPerDay;
    }
  }

  /** Two instants fall on the same UTC date, stated with calendar-day intervals. */
  ghost predicate SameUtcDate(a: int, b: int) {
    exists d :: d * MsPerDay <= a < d * MsPerDay + MsPerDay && d * MsPerDay <= b < d * MsPerDay + MsPerDay
  }

  lemma SameUtcDateIff(a: int, b: int)
    ensures SameUtcDate(a, b) <==> UtcDay(a) == UtcDay(b)
  {
    UtcDayBounds(a, UtcDay(a));
    UtcDayBounds(b, UtcDay(a));
    if SameUtcDate(a, b) {
      var d :| d * MsPerDay <= a < d * MsPerDay + MsPerDay && d * MsPerDay <= b < d * MsPerDay + MsPerDay;
      UtcDayBounds(a, d);
      UtcDayBounds(b, d);
    }
  }

  /** Daily: inside its hour, an active schedule is due iff it never ran or last ran on another UTC date. */
  lemma DailyDueIff(s: ScheduleRow, now: int)
    requires s.frequency == Daily && s.isActive && UtcHour(now) == s.hourUtc
    ensures IsDue(s, now) <==> s.lastRunAt.None? || !SameUtcDate(s.lastRunAt.value, now)
  {
    if s.lastRunAt.Some? {
      SameUtcDateIff(s.lastRunAt.value, now);
    }
  }

  /** Weekly: inside its hour and on its weekday, due iff it never ran or ran more than six days ago. */
  lemma WeeklyDueIff(s: ScheduleRow, now: int)
    requires s.frequency == Weekly && s.isActive && UtcHour(now) == s.hourUtc
    ensures UtcWeekday(now) != Weekday(s) ==> !IsDue(s, now)
    ensures UtcWeekday(now) == Weekday(s) ==>
              (IsDue(s, now) <==> s.lastRunAt.None? || now - s.lastRunAt.value > WeeklyGapMs)
  {
  }

  /** Once run at `now`, a daily schedule is not due again on the same UTC date. */
  lemma DailyRunsOncePerDate(s: ScheduleRow, now: int, later: int)
    requires s.frequency == Daily && SameUtcDate(now, later)
    ensures !IsDue(s.(lastRunAt := Some(now)), later)
  {
    SameUtcDateIff(now, later);
  }

  /** Once run at `now`, a weekly schedule is not due again for six days, whatever its weekday. */
  lemma WeeklyRunsOncePerWeek(s: ScheduleRow, now: int, later: int)
    requires s.frequency == Weekly && later - now <= WeeklyGapMs
    ensures !IsDue(s.(lastRunAt := Some(now)), later)
  {
  }

  /** A weekly schedule last run five days ago is not due; one last run seven days ago is. */
  lemma WeeklyFiveAndSevenDays(s: ScheduleRow, now: int)
    requires s.frequency == Weekly && s.isActive && UtcHour(now) == s.hourUtc && UtcWeekday(now) == Weekday(s)
    ensures !IsDue(s.(lastRunAt := Some(now - 5 * MsPerDay)), now)
    ensures IsDue(s.(lastRunAt := Some(now - 7 * MsPerDay)), now)
  {
  }
}
