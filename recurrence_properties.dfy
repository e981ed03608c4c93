/** What `expandRecurrence` promises about the dates it lists. */
module RecurrenceProperties {
  import opened Options
  import opened Seqs
  import opened Dates
  import opened Types
  import opened Recurrence

  /**
   * A date is listed exactly when it lies in the window (from the later of the anchor and
   * the range start, to the earliest of the range end, the deletion day and the end date)
   * and the rule falls on it.
   */
  lemma ExpansionMembership(template: ChoreTemplate, rangeStart: Day, rangeEnd: Day, x: Day)
    ensures x in Expansion(template, rangeStart, rangeEnd) <==>
      WindowStart(template, rangeStart) <= x <= EffectiveEnd(template, rangeEnd) && Scheduled(template, x)
  {
    var start, end := WindowStart(template, rangeStart), EffectiveEnd(template, rangeEnd);
    DaysFromMembership(start, end, x);
    if start <= end {
      match template.recurrence.frequency
      case Once =>
      case Daily =>
      case Weekly =>
        FilterMembership(EachDayOfInterval(start, end), OnWeekdays(template.recurrence.daysOfWeek.GetOr([])), x);
      case Monthly =>
        FilterMembership(EachDayOfInterval(start, end), OnDayOfMonth(TargetDay(template)), x);
    }
  }

  /** Every listed date is on or after the anchor and the range start, and on or before every end bound. */
  lemma ExpansionBounds(template: ChoreTemplate, rangeStart: Day, rangeEnd: Day, x: Day)
    requires x in Expansion(template, rangeStart, rangeEnd)
    ensures template.startDate <= x && rangeStart <= x <= rangeEnd
    ensures template.deletedAt.Some? ==> x <= template.deletedAt.value.date
    ensures template.recurrence.endDate.Some? ==> x <= template.recurrence.endDate.value
  {
    ExpansionMembership(template, rangeStart, rangeEnd, x);
  }

  /** The dates come out in strictly increasing order, hence without repetition. */
  lemma ExpansionIncreasing(template: ChoreTemplate, rangeStart: Day, rangeEnd: Day)
    ensures var dates := Expansion(template, rangeStart, rangeEnd);
      forall i, j :: 0 <= i < j < |dates| ==> dates[i] < dates[j]
  {
    var start, end := WindowStart(template, rangeStart), EffectiveEnd(template, rangeEnd);
    if start <= end {
      var days := EachDayOfInterval(start, end);
      var before := (a: Day, b: Day) => a < b;
      assert forall i, j :: 0 <= i < j < |days| ==> before(days[i], days[j]);
      match template.recurrence.frequency
      case Once =>
      case Daily =>
      case Weekly =>
        FilterKeepsPairwise(days, OnWeekdays(template.recurrence.daysOfWeek.GetOr([])), before);
      case Monthly =>
        FilterKeepsPairwise(days, OnDayOfMonth(TargetDay(template)), before);
    }
  }

  /** A daily chore is listed on every day of the window, one after the other. */
  lemma DailyExpansion(template: ChoreTemplate, rangeStart: Day, rangeEnd: Day)
    requires template.recurrence.frequency == Daily
    ensures var dates, start, end := Expansion(template, rangeStart, rangeEnd),
        WindowStart(template, rangeStart), EffectiveEnd(template, rangeEnd);
      && |dates| == (if end < start then 0 else end - start + 1)
      && forall i :: 0 <= i < |dates| ==> dates[i] == start + i
  {
  }

  /** A weekly chore with no weekday listed (absent or empty) never occurs. */
  lemma WeeklyWithoutDaysIsEmpty(template: ChoreTemplate, rangeStart: Day, rangeEnd: Day)
    requires template.recurrence.frequency == Weekly
    requires template.recurrence.daysOfWeek.GetOr([]) == []
    ensures Expansion(template, rangeStart, rangeEnd) == []
  {
    var start, end := WindowStart(template, rangeStart), EffectiveEnd(template, rangeEnd);
    FilterKeepsNone(EachDayOfInterval(start, end), OnWeekdays([]));
  }

  /** A chore soft-deleted before the range starts has no occurrence in it. */
  lemma DeletedBeforeRangeIsEmpty(template: ChoreTemplate, rangeStart: Day, rangeEnd: Day)
    requires template.deletedAt.Some? && template.deletedAt.value.date < rangeStart
    ensures Expansion(template, rangeStart, rangeEnd) == []
  {
  }

  /**
   * A monthly chore whose target day every month has (1 to 28) is listed on that day of
   * successive months, one month apart, with no month of the window skipped.
   */
  lemma MonthlyExpansionConsecutive(template: ChoreTemplate, rangeStart: Day, rangeEnd: Day)
    requires template.recurrence.frequency == Monthly
    requires 1 <= TargetDay(template) <= 28
    ensures var dates := Expansion(template, rangeStart, rangeEnd);
      forall i :: 0 <= i < |dates| ==>
        DayOfMonth(dates[i]) == TargetDay(template) && MonthOf(dates[i]) == MonthOf(dates[0]) + i
  {
    var start, end, day := WindowStart(template, rangeStart), EffectiveEnd(template, rangeEnd), TargetDay(template);
    if start <= end {
      var dates := Expansion(template, rangeStart, rangeEnd);
      var first := FirstCursorMonth(start, day);
      var exit := CursorExitMonth(end, day, first);
      MonthlyWalkIsExpansion(template, rangeStart, rangeEnd);
      FirstCursorInWindow(start, day);
      MonthlyCursorDatesConsecutive(first, exit, day, rangeStart);
      forall i | 0 <= i < |dates|
        ensures DayOfMonth(dates[i]) == day && MonthOf(dates[i]) == first + i
      {
        assert dates[i] == DayInMonth(first + i, day);
      }
    }
  }

  /**
   * A monthly chore without an explicit day of the month falls on the anchor's day, so when
   * the anchor lies in the window it is the first date listed.
   */
  lemma MonthlyAnchorComesFirst(template: ChoreTemplate, rangeStart: Day, rangeEnd: Day)
    requires template.recurrence.frequency == Monthly && template.recurrence.dayOfMonth.None?
    requires rangeStart <= template.startDate <= EffectiveEnd(template, rangeEnd)
    ensures var dates := Expansion(template, rangeStart, rangeEnd);
      dates != [] && dates[0] == template.startDate
  {
    var dates := Expansion(template, rangeStart, rangeEnd);
    var anchor := template.startDate;
    ExpansionMembership(template, rangeStart, rangeEnd, anchor);
    var k :| 0 <= k < |dates| && dates[k] == anchor;
    ExpansionBounds(template, rangeStart, rangeEnd, dates[0]);
    if k > 0 {
      ExpansionIncreasing(template, rangeStart, rangeEnd);
    }
  }
}
