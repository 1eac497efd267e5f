/** Instants and the date-fns helpers used by the subscription workflow.
    An instant is a count of milliseconds in one fixed timezone; hours and days
    are numbered by Euclidean division, so they also behave for instants before
    the epoch. */
module Time {

  type Instant = int

  const MsPerHour: int := 3600000
  const MsPerDay: int := 86400000

  /** Number of the clock hour an instant falls in. */
  function HourIndex(t: Instant): (h: int)
  {
    t / MsPerHour
  }

  /** Number of the calendar day an instant falls in. */
  function DayIndex(t: Instant): (d: int)
  {
    t / MsPerDay
  }

  /** `startOfHour`: minutes, seconds and milliseconds set to zero. */
  function StartOfHour(t: Instant): (r: Instant)
    ensures r <= t < r + MsPerHour
    ensures r == HourIndex(t) * MsPerHour
  {
    t - t % MsPerHour
  }

  /** `isAfter(a, b)`: `a` lies strictly later than `b`. Equal instants are not
      after one another, and a later instant never has an earlier hour start. */
  predicate IsAfter(a: Instant, b: Instant): (after: bool)
    ensures a == b ==> !after
    ensures after ==> StartOfHour(b) <= StartOfHour(a)
  {
    a > b
  }

  /** `isSameHour`: date-fns compares the two hour starts, which is the same
      as comparing hour indices. */
  predicate IsSameHour(a: Instant, b: Instant): (same: bool)
    ensures same <==> StartOfHour(a) == StartOfHour(b)
  {
    HourIndex(a) == HourIndex(b)
  }

  /** `isSameDay`: date-fns compares the two day starts, which is the same as
      comparing day indices. */
  predicate IsSameDay(a: Instant, b: Instant): (same: bool)
    ensures same <==> a - a % MsPerDay == b - b % MsPerDay
  {
    DayIndex(a) == DayIndex(b)
  }

  /** A day is 24 whole hours: the day index is the hour index divided by 24. */
  lemma DayOfHour(t: Instant)
    ensures DayIndex(t) == HourIndex(t) / 24
  {
  }

  /** The test the conflict search applies to two meetup dates. Two instants
      in the same hour are on the same day, so it is the same-hour test alone. */
  predicate SameDateHour(a: Instant, b: Instant): (same: bool)
    ensures same <==> IsSameHour(a, b)
  {
    DayOfHour(a);
    DayOfHour(b);
    IsSameDay(a, b) && IsSameHour(a, b)
  }

  /** The hour-start test passes exactly for the instants whose hour is not
      later than the hour of `now`, i.e. those before the end of the current hour. */
  lemma StartOfHourNotAfter(t: Instant, now: Instant)
    ensures !IsAfter(StartOfHour(t), now) <==> HourIndex(t) <= HourIndex(now)
    ensures !IsAfter(StartOfHour(t), now) <==> t < StartOfHour(now) + MsPerHour
  {
    var h, n := HourIndex(t), HourIndex(now);
    assert StartOfHour(now) == n * MsPerHour;
    if h <= n {
      assert h * MsPerHour <= n * MsPerHour;
    } else {
      assert h >= n + 1;
      assert h * MsPerHour >= n * MsPerHour + MsPerHour;
    }
  }
}
