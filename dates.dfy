/**
 * The calendar the core needs, on instants counted in milliseconds since the epoch
 * (UTC): calendar days, `isToday`, `isTomorrow`, `isPast`, `isAfter`, `startOfDay`,
 * `startOfDay(addDays(now, 1))`, and `startOfWeek` / `endOfWeek` with weeks starting
 * on Sunday.
 */
module Dates {

  const DayLength: int := 86_400_000

  /** The calendar day an instant falls on, counted from the epoch's day. */
  function Day(t: int): int {
    t / DayLength
  }

  /** `startOfDay(t)`: the first instant of the day `t` falls on. */
  function StartOfDay(t: int): (r: int)
    ensures r <= t < r + DayLength
    ensures Day(r) == Day(t)
  {
    Day(t) * DayLength
  }

  /** `isToday(t)`: `t` is on the same calendar day as `now`. */
  predicate IsToday(t: int, now: int) {
    Day(t) == Day(now)
  }

  /** `isTomorrow(t)`: `t` is on the calendar day after the one `now` is on. */
  predicate IsTomorrow(t: int, now: int) {
    Day(t) == Day(now) + 1
  }

  /** `isPast(t)`: `t` is strictly before the current instant. */
  predicate IsPast(t: int, now: int) {
    t < now
  }

  /** `isAfter(t, bound)`: `t` is strictly later than `bound`. */
  predicate IsAfter(t: int, bound: int) {
    t > bound
  }

  /** The day of the week, 0 for Sunday; the epoch's day was a Thursday. */
  function WeekDay(t: int): (r: int)
    ensures 0 <= r < 7
  {
    (Day(t) + 4) % 7
  }

  /** `startOfWeek(now)`: the first instant of the Sunday on or before `now`'s day. */
  function StartOfWeek(now: int): (r: int)
    ensures r <= now < r + 7 * DayLength
    ensures r == StartOfDay(r) && WeekDay(r) == 0
  {
    var d := Day(now) - WeekDay(now);
    assert Day(d * DayLength) == d;
    d * DayLength
  }

  /** `endOfWeek(now)`: the last instant of the Saturday on or after `now`'s day. */
  function EndOfWeek(now: int): (r: int)
    ensures now <= r && r - StartOfWeek(now) == 7 * DayLength - 1
    ensures WeekDay(r) == 6 && StartOfDay(r + 1) == r + 1
  {
    var s := StartOfWeek(now);
    var d := Day(s);
    assert Day(s + 7 * DayLength - 1) == d + 6;
    assert Day(s + 7 * DayLength) == d + 7;
    s + 7 * DayLength - 1
  }

  /** `startOfDay(addDays(now, 1))`: the first instant of tomorrow. */
  function StartOfTomorrow(now: int): (r: int)
    ensures now < r && r == StartOfDay(r) && Day(r) == Day(now) + 1
  {
    var d := Day(now) + 1;
    assert Day(d * DayLength) == d;
    d * DayLength
  }

  /** An instant is today exactly when it lies in `[startOfDay(now), startOfTomorrow)`. */
  lemma TodayIff(t: int, now: int)
    ensures IsToday(t, now) <==> StartOfDay(now) <= t < StartOfTomorrow(now)
  {
    var s := StartOfDay(now);
    if StartOfDay(now) <= t < StartOfTomorrow(now) {
      assert Day(t) == (t - s) / DayLength + Day(now);
    }
  }

  /** An instant is tomorrow exactly when it lies in the day that starts at `startOfTomorrow`. */
  lemma TomorrowIff(t: int, now: int)
    ensures IsTomorrow(t, now) <==> StartOfTomorrow(now) <= t < StartOfTomorrow(now) + DayLength
  {
    var s := StartOfTomorrow(now);
    if s <= t < s + DayLength {
      assert Day(t) == (t - s) / DayLength + Day(now) + 1;
    }
  }

  /**
   * "Past and not today" is exactly "before the start of today": a moment earlier
   * today is past but still today.
   */
  lemma OverdueIff(t: int, now: int)
    ensures (IsPast(t, now) && !IsToday(t, now)) <==> t < StartOfDay(now)
  {
    TodayIff(t, now);
  }

  /** Every instant of today lies in this week. */
  lemma TodayInWeek(t: int, now: int)
    requires IsToday(t, now)
    ensures StartOfWeek(now) <= t <= EndOfWeek(now)
  {
    TodayIff(t, now);
  }

  /** After the start of tomorrow is neither today nor in the past. */
  lemma AfterTomorrowStart(t: int, now: int)
    requires IsAfter(t, StartOfTomorrow(now))
    ensures !IsToday(t, now) && !IsPast(t, now) && IsAfter(t, now)
  {
    TodayIff(t, now);
  }
}
