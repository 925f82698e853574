/**
 * Local time as integer milliseconds. A day has exactly 24 hours (no daylight-saving
 * shifts), so calendar days are `t / DAY`; Dafny's `/` and `%` floor, as the calendar does
 * for instants before the epoch.
 */
module Clock {

  const MINUTE: int := 60000
  const HOUR: int := 60 * MINUTE
  const DAY: int := 24 * HOUR

  /** A `Date` holds time values up to 8.64e15 ms either side of the epoch; beyond, it is invalid. */
  const MAX_TIME: int := 8_640_000_000_000_000

  /** A time value a `Date` can hold. */
  predicate ValidTime(t: int)
  {
    -MAX_TIME <= t <= MAX_TIME
  }

  /** The calendar day `t` falls on, as a day number. */
  function Day(t: int): int
  {
    t / DAY
  }

  /** `getHours()`: the hour of the day, 0..23. */
  function HourOf(t: int): (h: int)
    ensures 0 <= h < 24
  {
    (t % DAY) / HOUR
  }

  /** `isSameDay`. */
  predicate SameDay(a: int, b: int)
  {
    Day(a) == Day(b)
  }

  /** `addDays(t, n)` (`subDays` for negative `n`). */
  function AddDays(t: int, n: int): int
  {
    t + n * DAY
  }

  /** Moving by whole days shifts the day number by exactly that many and keeps the hour. */
  lemma {:induction false} AddDaysShiftsDay(t: int, n: int)
    ensures Day(AddDays(t, n)) == Day(t) + n
    ensures HourOf(AddDays(t, n)) == HourOf(t)
  {
    var q, r := t / DAY, t % DAY;
    assert t == q * DAY + r && 0 <= r < DAY;
    assert AddDays(t, n) == (q + n) * DAY + r;
  }

  /** The instant at hour `h`, minute `m` of the day `t` falls on, seconds and ms zero. */
  function AtTime(t: int, h: int, m: int): int
  {
    Day(t) * DAY + h * HOUR + m * MINUTE
  }

  /** Within a day, an instant set to `h:m` keeps its day and reads back hour `h`. */
  lemma {:induction false} AtTimeInDay(t: int, h: int, m: int)
    requires 0 <= h < 24 && 0 <= m < 60
    ensures Day(AtTime(t, h, m)) == Day(t)
    ensures HourOf(AtTime(t, h, m)) == h
    ensures MinuteOf(AtTime(t, h, m)) == m
    ensures AtTime(t, h, m) % MINUTE == 0
  {
    var off := h * HOUR + m * MINUTE;
    assert 0 <= off < DAY;
    assert AtTime(t, h, m) == Day(t) * DAY + off;
    assert AtTime(t, h, m) / DAY == Day(t);
    assert AtTime(t, h, m) % DAY == off;
    assert off / HOUR == h;
    assert AtTime(t, h, m) == (Day(t) * 24 + h) * HOUR + m * MINUTE;
    assert AtTime(t, h, m) % HOUR == m * MINUTE;
  }

  /** `getMinutes()`: the minute of the hour, 0..59. */
  function MinuteOf(t: int): (m: int)
    ensures 0 <= m < 60
  {
    (t % HOUR) / MINUTE
  }

  /** Every instant is its day, hour, minute and the seconds and milliseconds below a minute. */
  lemma {:induction false} Decompose(t: int)
    ensures t == Day(t) * DAY + HourOf(t) * HOUR + MinuteOf(t) * MINUTE + t % MINUTE
  {
    var r := t % DAY;
    assert t == Day(t) * DAY + r;
    var q := t / HOUR;
    assert t == q * HOUR + t % HOUR;
    assert q == Day(t) * 24 + HourOf(t) by {
      assert r == (q - Day(t) * 24) * HOUR + t % HOUR;
    }
    var s := t % HOUR;
    assert s == MinuteOf(t) * MINUTE + s % MINUTE;
    assert s % MINUTE == t % MINUTE by {
      assert t == (q * 60 + s / MINUTE) * MINUTE + s % MINUTE;
    }
  }
}
