/**
 * Instants and calendar days. An instant is a count of milliseconds on the
 * local wall-clock axis, so every local day is exactly 86 400 000 ms long and
 * the day of an instant is a floor division. Calendar dates are rendered by
 * Luxon's `toISODate` (ISO 8601:2004 extended calendar date, section 4.1.2.2,
 * YYYY-MM-DD); that formatter is passed around as a function `Day -> string`
 * and the model relies only on its injectivity.
 */
module Time {

  /** Milliseconds since the local epoch, read on the local wall clock. */
  type Instant = int

  /** Days since the local epoch day. */
  type Day = int

  const MillisPerDay: int := 86_400_000

  /** The calendar day an instant falls on. */
  function DayOf(t: Instant): Day {
    t / MillisPerDay
  }

  /** Luxon `startOf('day')`: 00:00:00.000 of the day. */
  function StartOfDay(d: Day): Instant {
    d * MillisPerDay
  }

  /** Luxon `endOf('day')`: 23:59:59.999 of the day, the last millisecond in it. */
  function EndOfDay(d: Day): Instant {
    StartOfDay(d) + MillisPerDay - 1
  }

  /** Milliseconds elapsed since the start of the instant's day. */
  function TimeOfDay(t: Instant): int {
    t % MillisPerDay
  }

  /**
   * The range a day's read asks the store for:
   * `timestamp >= startOf(day)` and `timestamp < endOf(day)`.
   */
  predicate InReadRange(t: Instant, d: Day) {
    StartOfDay(d) <= t < EndOfDay(d)
  }

  lemma DayBounds(t: Instant)
    ensures StartOfDay(DayOf(t)) <= t <= EndOfDay(DayOf(t))
    ensures TimeOfDay(t) == t - StartOfDay(DayOf(t))
  {
  }

  /** The read range of d holds exactly the instants of day d except its last millisecond. */
  lemma InReadRangeIff(t: Instant, d: Day)
    ensures InReadRange(t, d) <==> DayOf(t) == d && t != EndOfDay(d)
  {
    DayBounds(t);
    if InReadRange(t, d) {
      assert DayOf(t) == d by { DayOfWithin(t, d); }
    }
  }

  lemma DayOfWithin(t: Instant, d: Day)
    requires StartOfDay(d) <= t <= EndOfDay(d)
    ensures DayOf(t) == d
  {
    var r := t - StartOfDay(d);
    assert t == d * MillisPerDay + r && 0 <= r < MillisPerDay;
  }

  /** The last millisecond of a day belongs to that day but to no day's read range. */
  lemma LastInstantUnread(d: Day, e: Day)
    ensures DayOf(EndOfDay(d)) == d
    ensures !InReadRange(EndOfDay(d), e)
  {
    DayOfWithin(EndOfDay(d), d);
    InReadRangeIff(EndOfDay(d), e);
  }

  /**
   * Luxon `now.set({year, month, day})` with the date of `day`: the time of day of
   * `now` moved onto the given day.
   */
  function OnDay(now: Instant, day: Day): (t: Instant)
    ensures DayOf(t) == day
    ensures TimeOfDay(t) == TimeOfDay(now)
  {
    var t := StartOfDay(day) + TimeOfDay(now);
    DayOfWithin(t, day);
    t
  }

  /** Luxon `plus({days: n})` on a day. */
  function PlusDays(d: Day, n: int): Day {
    d + n
  }

  /** Two different days never share a calendar-date text. */
  ghost predicate InjectiveDates(isoDate: Day -> string) {
    forall d1: Day, d2: Day :: isoDate(d1) == isoDate(d2) ==> d1 == d2
  }
}
