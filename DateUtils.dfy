/**
 * `get_time_scope_filter_range` of `common/date_utils.py`: the hourly, daily
 * or weekly window that contains a datetime.
 *
 * A naive Python datetime is modelled as its proleptic Gregorian ordinal day
 * (`date.toordinal()`, 1 for 0001-01-01) and the microseconds since midnight.
 * `timedelta` arithmetic on datetimes is wall-clock arithmetic, so it is
 * arithmetic on these two numbers with a carry between them.
 */
module DateUtils {
  import opened Wrappers

  const MicrosPerHour: int := 3_600_000_000
  const MicrosPerDay: int := 24 * MicrosPerHour
  const MicrosPerWeek: int := 7 * MicrosPerDay

  /** `date(9999, 12, 31).toordinal()`: the last day a Python datetime can hold. */
  const MaxOrdinal: int := 3_652_059

  datatype DateTime = DateTime(day: int, micros: int) {
    /** Inside Python's range: 0001-01-01 00:00 to 9999-12-31 23:59:59.999999. */
    predicate Valid() {
      1 <= day <= MaxOrdinal && 0 <= micros < MicrosPerDay
    }

    /** `datetime.weekday()`: 0 for Monday; ordinal 1 was a Monday. */
    function Weekday(): (w: int)
      ensures 0 <= w < 7
    {
      (day + 6) % 7
    }

    /** Microseconds since the midnight that begins ordinal day 0. */
    function Instant(): int {
      day * MicrosPerDay + micros
    }
  }

  /** The `(start, end)` pair returned by `get_time_scope_filter_range`. */
  datatype Window = Window(start: DateTime, end: DateTime)

  /** A granularity that the source handles as daily: anything but "hourly" and "weekly". */
  predicate IsDaily(granularity: string) {
    granularity != "hourly" && granularity != "weekly"
  }

  /** The length of the window for each granularity. */
  function Span(granularity: string): int {
    if granularity == "hourly" then MicrosPerHour
    else if granularity == "weekly" then MicrosPerWeek
    else MicrosPerDay
  }

  /**
   * `dt + timedelta(microseconds=delta)`; `None` where Python raises
   * `OverflowError` because the result lies past 9999-12-31.
   */
  function AddTimedelta(dt: DateTime, delta: nat): (r: Option<DateTime>)
    requires dt.Valid()
    ensures r.Some? ==> r.value.Valid() && r.value.Instant() == dt.Instant() + delta
    ensures r.None? <==> dt.Instant() + delta >= (MaxOrdinal + 1) * MicrosPerDay
  {
    var total := dt.micros + delta;
    var day := dt.day + total / MicrosPerDay;
    if day > MaxOrdinal then None else Some(DateTime(day, total % MicrosPerDay))
  }

  /**
   * The window of `granularity` that contains `dt`; `None` where computing
   * its end overflows Python's datetime range.
   */
  function GetTimeScopeFilterRange(dt: DateTime, granularity: string := "daily"): (r: Option<Window>)
    requires dt.Valid()
    ensures r.Some? ==> r.value.start.Valid() && r.value.end.Valid()
    ensures r.Some? ==> r.value.start.Instant() <= dt.Instant() < r.value.end.Instant()
    ensures r.Some? ==> r.value.end.Instant() - r.value.start.Instant() == Span(granularity)
    // hourly: the top of dt's hour; only the last hour of 9999-12-31 has no end
    ensures granularity == "hourly" && r.Some? ==>
              r.value.start.day == dt.day && r.value.start.micros % MicrosPerHour == 0
    ensures granularity == "hourly" ==>
              (r.None? <==> dt.day == MaxOrdinal && dt.micros >= 23 * MicrosPerHour)
    // weekly: the Monday midnight on or before dt
    ensures granularity == "weekly" && r.Some? ==>
              r.value.start.Weekday() == 0 && r.value.start.micros == 0
    ensures granularity == "weekly" ==> (r.None? <==> dt.day - dt.Weekday() + 7 > MaxOrdinal)
    // daily (and every other granularity): dt's midnight
    ensures IsDaily(granularity) && r.Some? ==> r.value.start == DateTime(dt.day, 0)
    ensures IsDaily(granularity) ==> (r.None? <==> dt.day == MaxOrdinal)
  {
    if granularity == "hourly" then
      var start := dt.(micros := dt.micros - dt.micros % MicrosPerHour);
      match AddTimedelta(start, MicrosPerHour)
      case None => None
      case Some(end) => Some(Window(start, end))
    else if granularity == "weekly" then
      var monday := DateTime(dt.day - dt.Weekday(), dt.micros);
      var start := monday.(micros := 0);
      assert start.Weekday() == 0;
      match AddTimedelta(start, MicrosPerWeek)
      case None => None
      case Some(end) => Some(Window(start, end))
    else
      var start := dt.(micros := 0);
      match AddTimedelta(start, MicrosPerDay)
      case None => None
      case Some(end) => Some(Window(start, end))
  }

  /** The granularity defaults to daily. */
  lemma DefaultGranularityIsDaily(dt: DateTime)
    requires dt.Valid()
    ensures GetTimeScopeFilterRange(dt) == GetTimeScopeFilterRange(dt, "daily")
  {
  }

  /** `dt - timedelta(days=dt.weekday())` never leaves Python's range: ordinal 1 is a Monday. */
  lemma WeekStartInRange(dt: DateTime)
    requires dt.Valid()
    ensures 1 <= dt.day - dt.Weekday() <= dt.day
  {
  }
}
