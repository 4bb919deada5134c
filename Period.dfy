/** The daily window test of IdleBuster. Every time value is a TimeSpan, which
    compares by its tick count (100 ns units), so it is modelled as that count. */
module Period {

  /** TimeSpan.MinValue: its tick count is the least 64-bit signed integer. */
  const MinValue: int := -0x8000_0000_0000_0000

  const TicksPerMinute: int := 600_000_000
  const TicksPerHour: int := 60 * TicksPerMinute
  const TicksPerDay: int := 24 * TicksPerHour

  /** A time of day on the wall clock, as DateTime.TimeOfDay produces it. */
  function Clock(hours: int, minutes: int): int {
    hours * TicksPerHour + minutes * TicksPerMinute
  }

  /** Whether `now` lies in the daily window from `start` to `end`, both ends
      included; a window whose start is after its end runs past midnight.
      The current time of day is a parameter rather than read from the clock. */
  function IsInPeriod(start: int, end: int, now: int): (r: bool)
    ensures now == start ==> r
    ensures now == end ==> r
    ensures end < now < start ==> !r
    ensures start <= end && (now < start || end < now) ==> !r
  {
    if start <= end then
      // start and end fall on the same day
      now >= start && now <= end
    else
      // the window crosses midnight
      now >= start || now <= end
  }

  /** A window that does not cross midnight holds exactly the instants between its ends. */
  lemma SameDayWindow(start: int, end: int, now: int)
    requires start <= end
    ensures IsInPeriod(start, end, now) <==> start <= now <= end
  {
  }

  /** A window of a single instant holds that instant and nothing else. */
  lemma SingleInstantWindow(at: int, now: int)
    ensures IsInPeriod(at, at, now) <==> now == at
  {
  }

  /** A window that crosses midnight holds everything from its start on and
      everything up to its end. */
  lemma OvernightWindow(start: int, end: int, now: int)
    requires start > end
    ensures IsInPeriod(start, end, now) <==> now >= start || now <= end
  {
  }

  predicate IsTimeOfDay(t: int) {
    0 <= t < TicksPerDay
  }

  /** How far `to` lies after `from`, going forward around the clock face. */
  function Forward(from: int, to: int): (d: int)
    ensures 0 <= d < TicksPerDay
  {
    (to - from) % TicksPerDay
  }

  /** The reference meaning of a daily window: walking forward from `start`,
      one meets `now` no later than `end`. */
  predicate OnClockArc(start: int, end: int, now: int) {
    Forward(start, now) <= Forward(start, end)
  }

  /** On times of day, the two comparisons of the source decide exactly the
      clock-face arc from start to end, whichever side of midnight they fall. */
  lemma MatchesClockArc(start: int, end: int, now: int)
    requires IsTimeOfDay(start) && IsTimeOfDay(end) && IsTimeOfDay(now)
    ensures IsInPeriod(start, end, now) <==> OnClockArc(start, end, now)
  {
  }

  /** The worked examples of a 22:00 to 02:00 and a 09:00 to 18:00 window. */
  lemma WindowExamples()
    ensures IsInPeriod(Clock(22, 0), Clock(2, 0), Clock(23, 30))
    ensures !IsInPeriod(Clock(22, 0), Clock(2, 0), Clock(12, 0))
    ensures IsInPeriod(Clock(22, 0), Clock(2, 0), Clock(1, 0))
    ensures IsInPeriod(Clock(9, 0), Clock(18, 0), Clock(10, 0))
    ensures !IsInPeriod(Clock(9, 0), Clock(18, 0), Clock(8, 59))
  {
  }
}
