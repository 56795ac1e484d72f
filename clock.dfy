/** Instants are integer milliseconds; calendar days are counted in one fixed zone
    (daylight saving is not modelled). These are the `Date` operations the source uses:
    `setHours(0, 0, 0, 0)`, `setHours(23, 59, 59, 999)`, `setDate(getDate() + 1)` and
    `setHours(h, m, 0, 0)` with the hour and minute of another instant. */
module Clock {

  const MsPerMinute: int := 60000
  const MsPerHour: int := 3600000
  const MsPerDay: int := 86400000

  /** The calendar day an instant falls on (floor division, also for negative instants). */
  function Day(t: int): int { t / MsPerDay }

  /** Milliseconds since the start of the instant's day. */
  function TimeOfDay(t: int): (r: int)
    ensures 0 <= r < MsPerDay
  {
    t % MsPerDay
  }

  /** `setHours(0, 0, 0, 0)`. */
  function StartOfDay(t: int): int { Day(t) * MsPerDay }

  /** `setHours(23, 59, 59, 999)`. */
  function EndOfDay(t: int): int { StartOfDay(t) + MsPerDay - 1 }

  /** Hour and minute of `t`, with seconds and milliseconds zeroed, as an offset into the day. */
  function HourMinute(t: int): (r: int)
    ensures 0 <= r <= TimeOfDay(t) < MsPerDay
    ensures r % MsPerMinute == 0
  {
    TimeOfDay(t) / MsPerMinute * MsPerMinute
  }

  /** The `k`-th calendar day after the day of `anchor`, at the hour and minute of `source`
      (`currentDate` advanced `k` times by `setDate(getDate() + 1)`, then `setHours(h, m, 0, 0)`). */
  function OnDay(anchor: int, k: int, source: int): int
  {
    StartOfDay(anchor) + k * MsPerDay + HourMinute(source)
  }

  /** Number of calendar days from the day of `a` to the day of `b`, both included. */
  function DaysSpanned(a: int, b: int): int { Day(b) - Day(a) + 1 }

  /** Iterations of a day loop that runs from the day of `a` through the day of `b` and stops
      after `cap` days. */
  function CappedDays(a: int, b: int, cap: int): (n: int)
    requires a <= b && cap >= 1
    ensures 1 <= n <= cap
    ensures n <= DaysSpanned(a, b) && (n < cap ==> n == DaysSpanned(a, b))
  {
    DayMonotone(a, b);
    if DaysSpanned(a, b) < cap then DaysSpanned(a, b) else cap
  }

  lemma DayBounds(t: int)
    ensures StartOfDay(t) <= t <= EndOfDay(t)
    ensures TimeOfDay(t) == t - StartOfDay(t)
  {
  }

  /** An instant lies in the window [StartOfDay(t), EndOfDay(t)] exactly when it is on the same day as t. */
  lemma SameDayWindow(s: int, t: int)
    ensures StartOfDay(t) <= s <= EndOfDay(t) <==> Day(s) == Day(t)
  {
    var d := Day(t);
    if Day(s) < d {
      assert s < Day(s) * MsPerDay + MsPerDay;
      assert (Day(s) + 1) * MsPerDay <= d * MsPerDay;
    } else if Day(s) > d {
      assert (d + 1) * MsPerDay <= Day(s) * MsPerDay;
    }
  }

  lemma OnDayPlacement(anchor: int, k: int, source: int)
    ensures Day(OnDay(anchor, k, source)) == Day(anchor) + k
    ensures TimeOfDay(OnDay(anchor, k, source)) == HourMinute(source)
  {
    var t := OnDay(anchor, k, source);
    assert t == (Day(anchor) + k) * MsPerDay + HourMinute(source);
  }

  /** The loop guard `currentDate <= endDateOnly`: day `k` after the day of `start` is not later than the day of `end`. */
  lemma DayGuard(start: int, end: int, k: int)
    ensures (StartOfDay(start) + k * MsPerDay <= EndOfDay(end)) <==> k < DaysSpanned(start, end)
  {
    assert StartOfDay(start) + k * MsPerDay == (Day(start) + k) * MsPerDay;
    assert EndOfDay(end) == (Day(end) + 1) * MsPerDay - 1;
    if k < DaysSpanned(start, end) {
      assert Day(start) + k <= Day(end);
      assert (Day(start) + k) * MsPerDay <= Day(end) * MsPerDay;
    } else {
      assert Day(start) + k >= Day(end) + 1;
      assert (Day(start) + k) * MsPerDay >= (Day(end) + 1) * MsPerDay;
    }
  }

  /** The guard of a capped day loop holds on iteration `k` exactly while `k` is below CappedDays. */
  lemma CappedLoopGuard(a: int, b: int, cap: int, k: int)
    requires a <= b && cap >= 1 && 0 <= k
    ensures (StartOfDay(a) + k * MsPerDay <= EndOfDay(b) && k < cap) <==> k < CappedDays(a, b, cap)
  {
    DayGuard(a, b, k);
  }

  /** Midnight of the `k`-th day after the day of `anchor`. */
  lemma OnDayMidnight(anchor: int, k: int, source: int)
    ensures StartOfDay(OnDay(anchor, k, source)) == StartOfDay(anchor) + k * MsPerDay
  {
    OnDayPlacement(anchor, k, source);
    assert (Day(anchor) + k) * MsPerDay == Day(anchor) * MsPerDay + k * MsPerDay;
  }

  lemma DayMonotone(a: int, b: int)
    requires a <= b
    ensures Day(a) <= Day(b)
  {
  }

  /** `subDays(t, k)` moves the instant back `k` calendar days. */
  lemma DaysBefore(t: int, k: int)
    ensures Day(t - k * MsPerDay) == Day(t) - k
  {
    var r := TimeOfDay(t);
    DayBounds(t);
    assert t - k * MsPerDay == (Day(t) - k) * MsPerDay + r;
  }

  /** An instant is at or after the midnight of `s`'s day exactly when its day is not earlier. */
  lemma FromStartOfDay(t: int, s: int)
    ensures t >= StartOfDay(s) <==> Day(t) >= Day(s)
  {
    DayBounds(t);
    if Day(t) >= Day(s) {
      assert Day(t) * MsPerDay >= Day(s) * MsPerDay;
    } else {
      assert (Day(t) + 1) * MsPerDay <= Day(s) * MsPerDay;
    }
  }
}
