/**
 * Dates as JavaScript sees them (src/utils/date.ts). A `Date` holds a time value,
 * milliseconds since the epoch in UTC, or is an Invalid Date whose time value is NaN.
 * Parsing text into a `Date` and the runtime's time zone are outside the model: the
 * zone is a parameter giving the local-time offset of each instant and the calendar
 * date of each local day number.
 */
module DateUtil {
  import opened Wrappers

  const MsPerMinute: int := 60_000
  const MsPerHour: int := 3_600_000
  const MsPerDay: int := 86_400_000

  /** The largest magnitude a time value may have; `new Date(t)` beyond it is an Invalid Date. */
  const MaxTimeValue: int := 8_640_000_000_000_000

  type Instant = int

  type TimeValue = t: Instant | -MaxTimeValue <= t <= MaxTimeValue

  /** A JavaScript `Date`. */
  datatype DateValue = Valid(time: TimeValue) | Invalid

  /** What `getFullYear()`, `getMonth()` (counted from 0) and `getDate()` report. */
  datatype CalendarDay = CalendarDay(year: int, month: int, date: int)

  /** The runtime's local time zone. */
  datatype Zone = Zone(offset: Instant -> int, calendar: int -> CalendarDay)

  /** The local time value of an instant: wall-clock milliseconds. */
  function LocalTime(z: Zone, t: Instant): int {
    t + z.offset(t)
  }

  /** The local calendar day an instant falls on. */
  function LocalDay(z: Zone, t: Instant): CalendarDay {
    z.calendar(LocalTime(z, t) / MsPerDay)
  }

  /**
   * `isToday(iso)`, where `d` is `new Date(iso)` and `now` the clock reading:
   * the two have equal local year, month and day of the month. Every comparison
   * with NaN is false, so an Invalid Date is never today.
   */
  function IsToday(z: Zone, d: DateValue, now: TimeValue): (r: bool)
    ensures r <==> d.Valid? && LocalDay(z, d.time) == LocalDay(z, now)
  {
    d.Valid?
    && LocalDay(z, d.time).year == LocalDay(z, now).year
    && LocalDay(z, d.time).month == LocalDay(z, now).month
    && LocalDay(z, d.time).date == LocalDay(z, now).date
  }

  /** The clock reading itself is always today. */
  lemma NowIsToday(z: Zone, now: TimeValue)
    ensures IsToday(z, Valid(now), now)
  {
  }

  /**
   * `addMinutes(iso, minutes)`, where `d` is `new Date(iso)`: the instant `minutes`
   * whole minutes later, as `toISOString()` renders it. `toISOString()` throws a
   * RangeError on an Invalid Date, and the sum is one when it leaves the range of
   * time values; `None` stands for that exception.
   */
  function AddMinutes(d: DateValue, minutes: int): (r: Option<TimeValue>)
    ensures r.Some? <==> d.Valid? && -MaxTimeValue <= d.time + minutes * MsPerMinute <= MaxTimeValue
    ensures r.Some? ==> r.value - d.time == minutes * MsPerMinute
  {
    match d
    case Invalid => None
    case Valid(t) =>
      var sum := t + minutes * MsPerMinute;
      if -MaxTimeValue <= sum <= MaxTimeValue then Some(sum) else None
  }

  /** Adding no minutes gives back the same instant. */
  lemma AddZeroMinutes(t: TimeValue)
    ensures AddMinutes(Valid(t), 0) == Some(t)
  {
  }

  /** Adding a positive number of minutes, when it succeeds, gives a strictly later instant. */
  lemma AddMinutesIsLater(t: TimeValue, minutes: int)
    requires minutes > 0 && AddMinutes(Valid(t), minutes).Some?
    ensures AddMinutes(Valid(t), minutes).value > t
  {
  }

  /**
   * Two additions in a row make one addition of the sum, whenever the first one
   * stays in range (otherwise the first already throws).
   */
  lemma AddMinutesCompose(t: TimeValue, a: int, b: int)
    requires AddMinutes(Valid(t), a).Some?
    ensures AddMinutes(Valid(AddMinutes(Valid(t), a).value), b) == AddMinutes(Valid(t), a + b)
  {
  }
}
