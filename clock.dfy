/** Date/time helpers: LiftLog's DateOnly and TimeOnly messages. */
module Clock {

  const SecondsPerDay: int := 86400

  /** A wall-clock timestamp as `datetime.strptime(..., "%Y-%m-%d %H:%M:%S")` yields it. */
  datatype DateTime = DateTime(year: int, month: int, day: int, hour: int, minute: int, second: int)

  datatype DateOnly = DateOnly(year: int, month: int, day: int)

  datatype TimeOnly = TimeOnly(hour: int, minute: int, second: int, millisecond: int, microsecond: int)

  /** Seconds since midnight of a timestamp's time of day. */
  function SecondOfDay(dt: DateTime): int
  {
    dt.hour * 3600 + dt.minute * 60 + dt.second
  }

  /** Seconds since midnight that a TimeOnly denotes (to whole seconds). */
  function TimeSeconds(t: TimeOnly): int
  {
    t.hour * 3600 + t.minute * 60 + t.second
  }

  predicate IsValidTime(t: TimeOnly)
  {
    0 <= t.hour < 24 && 0 <= t.minute < 60 && 0 <= t.second < 60 && t.millisecond == 0 && t.microsecond == 0
  }

  /** `make_date_dao`: the calendar date of the timestamp. */
  function MakeDateDao(dt: DateTime): (d: DateOnly)
    ensures d.year == dt.year && d.month == dt.month && d.day == dt.day
  {
    DateOnly(dt.year, dt.month, dt.day)
  }

  /**
   * `make_time_dao`: the time of day `offset` seconds after the timestamp's,
   * wrapped into one day. Python's `%` and `//` floor; for the positive divisors
   * used here they agree with Dafny's Euclidean operators.
   */
  function MakeTimeDao(dt: DateTime, offset: int): (t: TimeOnly)
    ensures IsValidTime(t)
    ensures TimeSeconds(t) == (SecondOfDay(dt) + offset) % SecondsPerDay
  {
    var total := (dt.hour * 3600 + dt.minute * 60 + dt.second + offset) % SecondsPerDay;
    TimeOnly(total / 3600, (total % 3600) / 60, total % 60, 0, 0)
  }

  /** A valid time of day is reproduced from its own hour, minute and second. */
  lemma MakeTimeDaoOfTime(t: TimeOnly, year: int, month: int, day: int)
    requires IsValidTime(t)
    ensures MakeTimeDao(DateTime(year, month, day, t.hour, t.minute, t.second), 0) == t
  {
    var dt := DateTime(year, month, day, t.hour, t.minute, t.second);
    var r := MakeTimeDao(dt, 0);
    var x := TimeSeconds(t);
    assert SecondOfDay(dt) + 0 == x;
    SmallMod(x);
    assert TimeSeconds(r) == x;
    TimeSecondsInjective(r, t);
  }

  lemma SmallMod(x: int)
    requires 0 <= x < SecondsPerDay
    ensures x % SecondsPerDay == x
  {
  }

  /** Two valid times of day with the same number of seconds are equal. */
  lemma TimeSecondsInjective(a: TimeOnly, b: TimeOnly)
    requires IsValidTime(a) && IsValidTime(b)
    requires TimeSeconds(a) == TimeSeconds(b)
    ensures a == b
  {
    assert a.hour == TimeSeconds(a) / 3600;
    assert b.hour == TimeSeconds(b) / 3600;
    assert a.minute * 60 + a.second == b.minute * 60 + b.second;
    assert a.minute == (a.minute * 60 + a.second) / 60;
    assert b.minute == (b.minute * 60 + b.second) / 60;
  }

  /** Each further step of `step` seconds moves the time of day on by `step`, modulo one day. */
  lemma NextOffsetTime(dt: DateTime, step: int, k: int)
    ensures TimeSeconds(MakeTimeDao(dt, step * (k + 1)))
         == (TimeSeconds(MakeTimeDao(dt, step * k)) + step) % SecondsPerDay
  {
    var a := SecondOfDay(dt) + step * k;
    assert step * (k + 1) == step * k + step;
    ModAddLeft(a, step);
  }

  lemma ModAddLeft(a: int, b: int)
    ensures (a + b) % SecondsPerDay == (a % SecondsPerDay + b) % SecondsPerDay
  {
    var q := a / SecondsPerDay;
    assert a == q * SecondsPerDay + a % SecondsPerDay;
  }
}
