/** Eastern wall time as a count of microseconds, market windows and weekdays (clock.py).
    Time zones and daylight saving are not modelled. */
module Clock {
  import opened Basics

  type Time = int

  const SECOND := 1_000_000
  const MINUTE := 60 * SECOND
  const HOUR := 60 * MINUTE
  const DAY := 24 * HOUR

  function Day(t: Time): int { t / DAY }

  function TimeOfDay(t: Time): int { t % DAY }

  /** The moment of day `d` at which the clock shows `tod`. */
  function At(d: int, tod: int): Time { d * DAY + tod }

  lemma DayMonotone(a: Time, b: Time)
    requires a <= b
    ensures Day(a) <= Day(b)
  {
  }

  /** Monday is 0; day 0 is 1970-01-01, a Thursday. */
  function Weekday(d: int): (w: int)
    ensures 0 <= w < 7
  {
    (d + 3) % 7
  }

  datatype Window = Window(date: int, tradingDay: bool, open: Option<Time>, close: Option<Time>)

  datatype Phase = Pre | Rth | Post | Closed

  function PhaseFor(now: Time, w: Window): Phase {
    if !w.tradingDay || w.open.None? || w.close.None? then Closed
    else if now < w.open.value then Pre
    else if now < w.close.value then Rth
    else Post
  }

  /** The weekday guess an engine without the broker's calendar runs on. */
  function FallbackWindow(d: int): Window {
    if Weekday(d) >= 5 then Window(d, false, None, None)
    else Window(d, true, Some(At(d, 9 * HOUR + 30 * MINUTE)), Some(At(d, 16 * HOUR)))
  }

  /** The window a watch pass acts under: today's, or the weekday guess. */
  function ActiveWindow(window: Option<Window>, now: Time): Window {
    if window.Some? && window.value.date == Day(now) then window.value else FallbackWindow(Day(now))
  }

  /** Weekdays in the half-open span (a, b]. */
  function WeekdaysBetween(a: int, b: int): (n: nat)
    decreases b - a
  {
    if b <= a then 0 else WeekdaysBetween(a, b - 1) + (if Weekday(b) < 5 then 1 else 0)
  }

  /** The weekdays counted are the days after `a`, up to and with `b`, that are Monday to Friday. */
  lemma {:induction false} WeekdaysAreCounted(a: int, b: int)
    ensures WeekdaysBetween(a, b) == |WeekdaySet(a, b)|
    decreases b - a
  {
    if b <= a {
      assert WeekdaySet(a, b) == {};
    } else {
      WeekdaysAreCounted(a, b - 1);
      assert WeekdaySet(a, b) == WeekdaySet(a, b - 1) + (if MondayToFriday(b) then {b} else {});
    }
  }

  predicate MondayToFriday(d: int) { (d + 3) % 7 <= 4 }

  function WeekdaySet(a: int, b: int): set<int> { set d | a < d <= b && MondayToFriday(d) }

  /** A moment is its day and its time of day. */
  lemma DayAndTime(t: Time)
    ensures t == At(Day(t), TimeOfDay(t)) && 0 <= TimeOfDay(t) < 24 * 60 * 60 * SECOND
  {
  }

  method TradingDaysBetween(a: int, b: int) returns (n: nat)
    ensures n == WeekdaysBetween(a, b)
  {
    if b <= a {
      return 0;
    }
    n := 0;
    var d := a;
    while d < b
      invariant a <= d <= b
      invariant n == WeekdaysBetween(a, d)
    {
      d := d + 1;
      if Weekday(d) < 5 {
        n := n + 1;
      }
    }
  }
}
