/**
 * Calendar arithmetic over instants, written as integer milliseconds since the
 * Unix epoch (what JavaScript's Date.getTime() returns). The viewer's time zone
 * is a fixed offset; daylight-saving changes are not modelled. Every date-fns
 * helper the pages use (startOfDay, endOfDay, addDays, isToday, isTomorrow,
 * isSameDay, isThisWeek, isThisMonth) is stated through Day, Week and Month.
 */
module Clock {

  const MsPerDay: int := 86400000

  /** Offset of local time from UTC, in milliseconds. */
  const LocalOffsetMs: int := 0

  /** The local calendar day of an instant, as a day number (floor division). */
  function Day(t: int): int
  {
    (t + LocalOffsetMs) / MsPerDay
  }

  /** date-fns startOfDay: the first millisecond of the local day holding t. */
  function StartOfDay(t: int): (r: int)
    ensures r <= t < r + MsPerDay
    ensures Day(r) == Day(t)
  {
    var q := Day(t);
    DivUnique(t + LocalOffsetMs - (t + LocalOffsetMs) % MsPerDay, q, 0);
    q * MsPerDay - LocalOffsetMs
  }

  /** Division by MsPerDay has exactly one quotient-remainder pair. */
  lemma DivUnique(x: int, q: int, r: int)
    requires x == q * MsPerDay + r && 0 <= r < MsPerDay
    ensures x / MsPerDay == q
  {
  }

  /** Later instants never fall on earlier days. */
  lemma DayMonotone(a: int, b: int)
    requires a <= b
    ensures Day(a) <= Day(b)
  {
  }

  /**
   * The k-th day after t's day is exactly the half-open window of MsPerDay
   * milliseconds starting k days after startOfDay(t).
   */
  lemma DayWindow(t: int, d: int, k: int)
    ensures Day(d) == Day(t) + k <==>
            StartOfDay(t) + k * MsPerDay <= d < StartOfDay(t) + (k + 1) * MsPerDay
  {
    var s := StartOfDay(t);
    var x := d + LocalOffsetMs;
    if s + k * MsPerDay <= d < s + (k + 1) * MsPerDay {
      DivUnique(x, Day(t) + k, x - (Day(t) + k) * MsPerDay);
    }
    if Day(d) == Day(t) + k {
      assert x == Day(d) * MsPerDay + x % MsPerDay;
    }
  }

  /** An instant is on or after startOfDay(t) exactly when its day is not before t's day. */
  lemma AtOrAfterStartOfDay(t: int, d: int)
    ensures d >= StartOfDay(t) <==> Day(d) >= Day(t)
  {
    var x := d + LocalOffsetMs;
    assert x == Day(d) * MsPerDay + x % MsPerDay;
    if Day(d) >= Day(t) {
      assert Day(d) * MsPerDay >= Day(t) * MsPerDay;
    } else {
      assert Day(d) * MsPerDay <= Day(t) * MsPerDay - MsPerDay;
    }
  }

  /** date-fns isThisWeek with its default Sunday week start: 1970-01-01 was a Thursday. */
  function Week(t: int): int
  {
    WeekOfDay(Day(t))
  }

  /** The week of a day number, weeks starting on Sunday. */
  function WeekOfDay(day: int): int
  {
    (day + 4) / 7
  }

  /**
   * date-fns isThisMonth: the proleptic Gregorian month holding t's day,
   * counted as 12 * year + (month - 1) (the civil-from-days conversion).
   */
  function Month(t: int): int
  {
    MonthOfDay(Day(t))
  }

  /** The civil month of a day number. */
  function MonthOfDay(day: int): int
  {
    var z := day + 719468;
    var era := z / 146097;
    var doe := z - era * 146097;
    var yoe := (doe - doe / 1460 + doe / 36524 - doe / 146096) / 365;
    var doy := doe - (365 * yoe + yoe / 4 - yoe / 100);
    var mp := (5 * doy + 2) / 153;
    var m := if mp < 10 then mp + 3 else mp - 9;
    var y := yoe + era * 400 + (if m <= 2 then 1 else 0);
    y * 12 + (m - 1)
  }

  /** Instants on one day are in one week and one month. */
  lemma SameDaySameWeekAndMonth(a: int, b: int)
    requires Day(a) == Day(b)
    ensures Week(a) == Week(b) && Month(a) == Month(b)
  {
  }
}
