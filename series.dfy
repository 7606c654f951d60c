/** The canonical demand series shared by the loader, the scenario engine and the KPI calculator. */
module Series {

  /** A timezone-naive instant, in whole minutes from an epoch at midnight. */
  type Minutes = int

  const MinutesPerHour: int := 60
  const HoursPerDay: int := 24
  const MinutesPerDay: int := 1440

  /** One row of the frame: its `timestamp` and `demand_kw` columns. */
  datatype Sample = Sample(timestamp: Minutes, demandKw: real)

  /**
   * The hour of day of a timestamp (pandas `.dt.hour`). Dafny's division rounds
   * down for a positive divisor, so instants before the epoch get their calendar hour too.
   */
  function HourOf(t: Minutes): (h: int)
    ensures 0 <= h < HoursPerDay
    ensures h * MinutesPerHour <= t % MinutesPerDay < (h + 1) * MinutesPerHour
  {
    var d := t / MinutesPerDay;
    var m := t % MinutesPerDay;
    assert t == d * MinutesPerDay + m;
    assert t / MinutesPerHour == d * HoursPerDay + m / MinutesPerHour by {
      DivAfterWholeDays(t, d, m);
    }
    (t / MinutesPerHour) % HoursPerDay
  }

  lemma DivAfterWholeDays(t: int, d: int, m: int)
    requires 0 <= m < MinutesPerDay && t == d * MinutesPerDay + m
    ensures t / MinutesPerHour == d * HoursPerDay + m / MinutesPerHour
  {
    var q := m / MinutesPerHour;
    var r := m % MinutesPerHour;
    assert t == (d * HoursPerDay + q) * MinutesPerHour + r;
  }

  /** The hour of day does not depend on the date: it repeats every 1440 minutes. */
  lemma HourOfRepeatsDaily(t: Minutes, days: int)
    ensures HourOf(t + days * MinutesPerDay) == HourOf(t)
  {
    var u := t + days * MinutesPerDay;
    assert u % MinutesPerDay == t % MinutesPerDay;
  }

  /** The `timestamp` column of a series. */
  function Timestamps(s: seq<Sample>): (ts: seq<Minutes>)
    ensures |ts| == |s|
  {
    seq(|s|, i requires 0 <= i < |s| => s[i].timestamp)
  }
}
