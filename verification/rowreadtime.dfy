/** The row read time of the detector, valid only for observation dates
    between the first ground data (IIT) and the end of the mission. */
module RowReadTime {
  import opened Base

  /** A UTC instant given by its calendar fields. */
  datatype Instant = Instant(year: int, month: int, day: int, hour: int, minute: int, second: real)

  /** Chronological order of instants with in-range calendar fields: the
      lexicographic order of (year, month, day, hour, minute, second). */
  predicate Before(a: Instant, b: Instant) {
    if a.year != b.year then a.year < b.year
    else if a.month != b.month then a.month < b.month
    else if a.day != b.day then a.day < b.day
    else if a.hour != b.hour then a.hour < b.hour
    else if a.minute != b.minute then a.minute < b.minute
    else a.second < b.second
  }

  /** 2023-11-01 00:00:00: the first data collected on the ground. */
  const IitStart: Instant := Instant(2023, 11, 1, 0, 0, 0.0)

  /** 2040-01-01 00:00:00: past the end of the mission. */
  const MissionEnd: Instant := Instant(2040, 1, 1, 0, 0, 0.0)

  /** 2024-03-01 00:00:00: the date used when none is given. */
  const DefaultObservation: Instant := Instant(2024, 3, 1, 0, 0, 0.0)

  /** ValueError raised for a date outside the window. */
  datatype DateError = BeforeGroundData | AfterMissionEnd

  /** The observation date, with the default filled in. */
  function ObservationDate(when: Option<Instant>): Instant {
    if when.None? then DefaultObservation else when.value
  }

  /** The dates get_rowreadtime_sec accepts: IitStart <= d < MissionEnd. */
  predicate InWindow(d: Instant) {
    !Before(d, IitStart) && Before(d, MissionEnd)
  }

  /** get_rowreadtime_sec: the metadata's rowreadtime_sec for a date in the
      window, an error naming the violated end otherwise. */
  function RowReadTimeSec(when: Option<Instant>, rowreadtimeSec: real): (r: Result<real, DateError>)
    ensures r.Ok? <==> InWindow(ObservationDate(when))
    ensures r.Ok? ==> r.value == rowreadtimeSec
    ensures Before(ObservationDate(when), IitStart) <==> r == Err(BeforeGroundData)
    ensures !Before(ObservationDate(when), MissionEnd) && !Before(ObservationDate(when), IitStart)
            <==> r == Err(AfterMissionEnd)
  {
    var d := ObservationDate(when);
    if Before(d, IitStart) then Err(BeforeGroundData)
    else if Before(d, MissionEnd) then Ok(rowreadtimeSec)
    else Err(AfterMissionEnd)
  }

  /** Before is a strict total order. */
  lemma BeforeIsStrictTotalOrder(a: Instant, b: Instant, c: Instant)
    ensures !Before(a, a)
    ensures Before(a, b) ==> !Before(b, a)
    ensures a != b ==> Before(a, b) || Before(b, a)
    ensures Before(a, b) && Before(b, c) ==> Before(a, c)
  {
  }

  /** The accepted dates form an interval: a date between two accepted
      dates is accepted. */
  lemma WindowIsInterval(a: Instant, b: Instant, c: Instant)
    requires InWindow(a) && InWindow(c)
    requires !Before(b, a) && !Before(c, b)
    ensures InWindow(b)
  {
    BeforeIsStrictTotalOrder(b, a, IitStart);
    BeforeIsStrictTotalOrder(a, b, IitStart);
    BeforeIsStrictTotalOrder(b, IitStart, a);
    BeforeIsStrictTotalOrder(b, c, MissionEnd);
    BeforeIsStrictTotalOrder(c, b, MissionEnd);
  }

  /** The default date lies inside the window. */
  lemma DefaultDateAccepted(rowreadtimeSec: real)
    ensures RowReadTimeSec(None, rowreadtimeSec) == Ok(rowreadtimeSec)
  {
  }
}
