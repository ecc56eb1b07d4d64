/** `formatCompletionTime` (which form it picks) and `calculateDaysActive`. */
module StatsFormat {
  import opened Wrappers
  import opened Tasks

  /** The form a completion time is displayed in, with the unrounded numbers it shows. */
  datatype CompletionTimeText =
    | NotAvailable
    | Minutes(minutes: real)
    | Hours(hours: real)
    | DaysAndHours(days: int, remainingHours: real)

  /**
   * "N/A" for zero, minutes under one hour, hours under a day, otherwise
   * whole days and the remaining hours.
   */
  function FormatCompletionTime(hours: real): (r: CompletionTimeText)
    ensures r.NotAvailable? <==> hours == 0.0
    ensures r.Minutes? <==> hours != 0.0 && hours < 1.0
    ensures r.Hours? <==> 1.0 <= hours < 24.0
    ensures r.DaysAndHours? <==> 24.0 <= hours
    ensures r.DaysAndHours? ==> 1 <= r.days && 0.0 <= r.remainingHours < 24.0
  {
    if hours == 0.0 then NotAvailable
    else if hours < 1.0 then Minutes(hours * 60.0)
    else if hours < 24.0 then Hours(hours)
    else
      var days := (hours / 24.0).Floor;
      DaysAndHours(days, hours - 24.0 * days as real)
  }

  /** The number of hours a displayed form stands for. */
  function TotalHours(text: CompletionTimeText): real {
    match text
    case NotAvailable => 0.0
    case Minutes(m) => m / 60.0
    case Hours(h) => h
    case DaysAndHours(d, h) => 24.0 * d as real + h
  }

  /** No form loses or invents time: reading a form back gives the hours it was made from. */
  lemma FormatRoundTrip(hours: real)
    ensures TotalHours(FormatCompletionTime(hours)) == hours
  {
  }

  /** 0.5 hours shows as 30 minutes, 30 hours as one day and 6 hours, 50 hours as two days and 2 hours. */
  lemma FormatExamples()
    ensures FormatCompletionTime(0.5) == Minutes(30.0)
    ensures FormatCompletionTime(30.0) == DaysAndHours(1, 6.0)
    ensures FormatCompletionTime(50.0) == DaysAndHours(2, 2.0)
    ensures FormatCompletionTime(0.0) == NotAvailable
  {
    assert (30.0 / 24.0).Floor == 1;
    assert (50.0 / 24.0).Floor == 2;
  }

  /** Whole days from `joinDate` to `now`, rounded down; zero without a join date. */
  function CalculateDaysActive(joinDate: Option<int>, now: int): (r: int)
    ensures joinDate.None? ==> r == 0
    ensures joinDate.Some? ==> r * MsPerDay <= now - joinDate.value < (r + 1) * MsPerDay
  {
    match joinDate
    case None => 0
    case Some(join) => (now - join) / MsPerDay
  }

  /** A later instant never shows fewer days active. */
  lemma DaysActiveMonotone(join: int, now1: int, now2: int)
    requires now1 <= now2
    ensures CalculateDaysActive(Some(join), now1) <= CalculateDaysActive(Some(join), now2)
  {
  }
}
