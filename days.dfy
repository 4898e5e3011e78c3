/**
 * Local calendar days as the services query them. A day is an integer day number and an
 * instant is local milliseconds; `setHours(0, 0, 0, 0)` and dayjs `startOf('day')` give the
 * day's midnight, `setDate(getDate() + 1)` the next one, and `setHours(23, 59, 59, 999)` or
 * dayjs `endOf('day')` its last millisecond.
 */
module Days {

  const MsPerDay: int := 24 * 60 * 60 * 1000

  /** Local midnight at the start of day number `day`. */
  function Midnight(day: int): int {
    day * MsPerDay
  }

  /** The day holding instant t. */
  function DayOf(t: int): int {
    t / MsPerDay
  }

  /** The query window from a day's midnight to the next midnight. */
  function DayWindow(day: int): (w: (int, int))
    ensures w.0 == Midnight(day) && w.1 == Midnight(day + 1)
    ensures w.1 - w.0 == MsPerDay
  {
    var start := Midnight(day);
    (start, start + MsPerDay)
  }

  /** `setHours(23, 59, 59, 999)` on the day: one millisecond before the next midnight. */
  function EndOfDay(day: int): (t: int)
    ensures t + 1 == Midnight(day + 1)
    ensures Midnight(day) <= t
  {
    Midnight(day) + 23 * 60 * 60 * 1000 + 59 * 60 * 1000 + 59 * 1000 + 999
  }

  /** Every instant lies in the window of exactly one day: the day DayOf names. */
  lemma InWindowIffDay(t: int, day: int)
    ensures DayWindow(day).0 <= t < DayWindow(day).1 <==> DayOf(t) == day
  {
    var d := DayOf(t);
    assert d * MsPerDay <= t < (d + 1) * MsPerDay;
    if day < d {
      assert (day + 1) * MsPerDay <= d * MsPerDay;
    } else if day > d {
      assert (d + 1) * MsPerDay <= day * MsPerDay;
    }
  }

  /** Consecutive days' windows meet and do not overlap. */
  lemma WindowsTile(day: int)
    ensures DayWindow(day).1 == DayWindow(day + 1).0
    ensures EndOfDay(day) < DayWindow(day + 1).0
  {
  }
}
