/** An option chosen for a horizon outlives it (desk/options.py `min_dte`, clock.py, watch.py's expiry close). */
module OptionLife {
  import opened Clock
  import opened Sizing

  const EXTRA_WEEK := 7

  /** The horizon in calendar days, rounded up at seven days to five sessions. */
  function CalendarDays(horizon: int): (c: int)
    ensures 5 * (c - 1) < 7 * horizon <= 5 * c
  {
    -((-horizon * 7) / 5)
  }

  /** Days to expiry a contract needs. */
  function MinDte(horizon: int, rules: Rules): (days: int)
    ensures days >= rules.optionMinDte && days >= CalendarDays(horizon) + rules.optionCloseAtDte + EXTRA_WEEK
    ensures days == rules.optionMinDte || days == CalendarDays(horizon) + rules.optionCloseAtDte + EXTRA_WEEK
  {
    var need := CalendarDays(horizon) + rules.optionCloseAtDte + EXTRA_WEEK;
    if rules.optionMinDte >= need then rules.optionMinDte else need
  }

  lemma {:induction false} WeekdaysSplit(a: int, b: int, c: int)
    requires a <= b <= c
    ensures WeekdaysBetween(a, c) == WeekdaysBetween(a, b) + WeekdaysBetween(b, c)
    decreases c - b
  {
    if b < c {
      WeekdaysSplit(a, b, c - 1);
    }
  }

  /** From one weekday to another, less than a week on: the weekdays between pin the distance. */
  lemma ShortSpan(a: int, b: int)
    requires Weekday(a) < 5 && Weekday(b) < 5 && a <= b < a + 7
    ensures b - a <= WeekdaysBetween(a, b) + 2
    ensures WeekdaysBetween(a, b) == 0 ==> a == b
  {
    if a < b {
      ShortSpanBack(a, b);
    }
  }

  lemma {:induction false} ShortSpanBack(a: int, b: int)
    requires Weekday(a) < 5 && a <= b < a + 7
    ensures WeekdaysBetween(a, b) == (b - a) - (if Weekday(a) + (b - a) <= 4 then 0 else if Weekday(a) + (b - a) == 5 then 1 else 2)
    decreases b - a
  {
    if a < b {
      ShortSpanBack(a, b - 1);
    }
  }

  lemma WeekHasFive(a: int)
    requires Weekday(a) < 5
    ensures WeekdaysBetween(a, a + 7) == 5
  {
    ShortSpanBack(a, a + 6);
  }

  /** The `n`-th weekday after a weekday is at most this many days away. */
  lemma {:induction false} SessionsFitTheCalendar(a: int, b: int)
    requires a <= b && Weekday(a) < 5 && Weekday(b) < 5
    ensures b - a <= CalendarDays(WeekdaysBetween(a, b) + 1)
    decreases b - a
  {
    if b < a + 7 {
      ShortSpan(a, b);
    } else {
      WeekHasFive(a);
      WeekdaysSplit(a, a + 7, b);
      SessionsFitTheCalendar(a + 7, b);
    }
  }

  /** For every horizon and weekday entry: on the horizon's last weekday session, the entry day being the first, a
      contract bought with `MinDte` days still has a week more than the forced close needs, so that close comes later. */
  lemma OptionOutlivesHorizon(horizon: int, rules: Rules, entry: int, session: int, expiry: int)
    requires 1 <= horizon && Weekday(entry) < 5 && entry <= session && Weekday(session) < 5
    requires WeekdaysBetween(entry, session) == horizon - 1
    requires expiry - entry >= MinDte(horizon, rules)
    ensures expiry - session >= rules.optionCloseAtDte + 7
    ensures expiry - entry >= rules.optionMinDte
    ensures !(expiry - session <= rules.optionCloseAtDte)
  {
    SessionsFitTheCalendar(entry, session);
  }

  /** The calendar count is tight: a Friday entry with a two-session horizon uses every day of it. */
  lemma CalendarIsTight()
    ensures exists a, b :: a <= b && Weekday(a) < 5 && Weekday(b) < 5
                           && WeekdaysBetween(a, b) == 1 && b - a == CalendarDays(2)
  {
    assert Weekday(1) == 4 && Weekday(4) == 0;
    assert WeekdaysBetween(1, 2) == 0 && WeekdaysBetween(1, 3) == 0 && WeekdaysBetween(1, 4) == 1;
  }
}
