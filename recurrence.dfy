/**
 * Expansion of a chore template's recurrence rule into the calendar dates that fall
 * inside a requested range (`expandRecurrence`).
 */
module Recurrence {
  import opened Options
  import opened Seqs
  import opened Dates
  import opened Types

  // ---------------------------------------------------------------------------
  // The effective window
  // ---------------------------------------------------------------------------

  function Min(a: int, b: int): int
  {
    if a <= b then a else b
  }

  /** `if (d < end) end = d`: the earlier of two dates, keeping `a` on a tie. */
  function EarlierOf(a: Day, b: Day): (e: Day)
    ensures e <= a && e <= b
    ensures e == a || e == b
  {
    if b < a then b else a
  }

  /** The later of the anchor (`startDate`) and the start of the range. */
  function WindowStart(template: ChoreTemplate, rangeStart: Day): (start: Day)
    ensures template.startDate <= start && rangeStart <= start
    ensures start == template.startDate || start == rangeStart
  {
    if template.startDate > rangeStart then template.startDate else rangeStart
  }

  /**
   * The earliest of the range end, the day of the soft deletion and the rule's end date;
   * each bound is inclusive.
   */
  function EffectiveEnd(template: ChoreTemplate, rangeEnd: Day): (end: Day)
    ensures end <= rangeEnd
    ensures template.deletedAt.Some? ==> end <= template.deletedAt.value.date
    ensures template.recurrence.endDate.Some? ==> end <= template.recurrence.endDate.value
    ensures || end == rangeEnd
            || (template.deletedAt.Some? && end == template.deletedAt.value.date)
            || (template.recurrence.endDate.Some? && end == template.recurrence.endDate.value)
  {
    var capped := if template.deletedAt.Some? then EarlierOf(rangeEnd, template.deletedAt.value.date) else rangeEnd;
    if template.recurrence.endDate.Some? then EarlierOf(capped, template.recurrence.endDate.value) else capped
  }

  /** `dayOfMonth ?? anchor.getDate()`. */
  function TargetDay(template: ChoreTemplate): int
  {
    template.recurrence.dayOfMonth.GetOr(DayOfMonth(template.startDate))
  }

  function OnWeekdays(days: seq<int>): Day -> bool
  {
    (d: Day) => Weekday(d) in days
  }

  function OnDayOfMonth(day: int): Day -> bool
  {
    (d: Day) => DayOfMonth(d) == day
  }

  // ---------------------------------------------------------------------------
  // Specification
  // ---------------------------------------------------------------------------

  /**
   * The dates a template yields in [rangeStart, rangeEnd]: nothing when the window is
   * empty; otherwise the anchor (one-time chores, when it lies in the range), every
   * window day (daily), the window days on the listed weekdays (weekly), or the window
   * days whose day of the month is the target day (monthly; a month without that day
   * contributes nothing).
   */
  function Expansion(template: ChoreTemplate, rangeStart: Day, rangeEnd: Day): seq<Day>
  {
    var start := WindowStart(template, rangeStart);
    var end := EffectiveEnd(template, rangeEnd);
    var anchor := template.startDate;
    if start > end then []
    else match template.recurrence.frequency
      case Once => if rangeStart <= anchor <= rangeEnd then [anchor] else []
      case Daily => EachDayOfInterval(start, end)
      case Weekly => Filter(EachDayOfInterval(start, end), OnWeekdays(template.recurrence.daysOfWeek.GetOr([])))
      case Monthly => Filter(EachDayOfInterval(start, end), OnDayOfMonth(TargetDay(template)))
  }

  /** Whether the rule, ignoring the window, falls on `d`. */
  predicate Scheduled(template: ChoreTemplate, d: Day)
  {
    match template.recurrence.frequency
    case Once => d == template.startDate
    case Daily => true
    case Weekly => Weekday(d) in template.recurrence.daysOfWeek.GetOr([])
    case Monthly => DayOfMonth(d) == TargetDay(template)
  }

  // ---------------------------------------------------------------------------
  // The monthly cursor
  // ---------------------------------------------------------------------------

  /**
   * Day number of `new Date(y, m, day)` for the month with the given index: day `day`
   * of that month, counted on past its end when the month is shorter.
   */
  function Cursor(month: nat, day: int): int
  {
    MonthStart(month) + day - 1
  }

  lemma CursorMonotone(i: nat, j: nat, day: int)
    requires i < j
    ensures Cursor(i, day) + 28 <= Cursor(j, day)
  {
    MonthStartMonotone(i, j);
  }

  /** Equal months have equal cursors (stated to spare the solver an arithmetic detour). */
  lemma SameCursor(i: nat, j: nat, day: int)
    requires i == j
    ensures Cursor(i, day) == Cursor(j, day)
  {
  }

  /** The first month whose cursor is not before `start`. */
  function FirstCursorMonth(start: Day, day: int): nat
  {
    if Cursor(MonthOf(start), day) < start then MonthOf(start) + 1 else MonthOf(start)
  }

  /** A day that falls between two successive cursors on its own day of the month is the first of them. */
  lemma MatchInCursorRange(d: Day, month: nat, next: nat)
    requires next == month + 1
    requires Cursor(month, DayOfMonth(d)) <= d < Cursor(next, DayOfMonth(d))
    ensures MonthOf(d) == month && d == Cursor(month, DayOfMonth(d))
  {
    var k := MonthOf(d);
    if k < month {
      CursorMonotone(k, month, DayOfMonth(d));
    } else if k > next {
      CursorMonotone(next, k, DayOfMonth(d));
    }
  }

  /** No window day before the first cursor has the target day of the month. */
  lemma FirstCursorIsFirst(start: Day, day: int, d: Day)
    requires DayOfMonth(d) == day && start <= d
    ensures Cursor(FirstCursorMonth(start, day), day) <= d
  {
    var k := MonthOf(d);
    MonthOfMonotone(start, d);
    if FirstCursorMonth(start, day) < k {
      CursorMonotone(FirstCursorMonth(start, day), k, day);
    }
  }

  lemma FirstCursorInWindow(start: Day, day: int)
    requires 1 <= day
    ensures start <= Cursor(FirstCursorMonth(start, day), day)
  {
    MonthStep(MonthOf(start));
  }

  /** The days from `first` to `last` that match `keep`, when none does. */
  lemma FilterDaysNone(first: Day, last: int, keep: Day -> bool)
    requires forall d: Day :: first <= d <= last ==> !keep(d)
    ensures Filter(DaysFrom(first, last), keep) == []
  {
    FilterKeepsNone(DaysFrom(first, last), keep);
  }

  /** The window holds no target day before the first cursor. */
  lemma NothingBeforeFirstCursor(start: Day, end: int, day: int)
    ensures Filter(DaysFrom(start, Min(end, Cursor(FirstCursorMonth(start, day), day) - 1)), OnDayOfMonth(day)) == []
  {
    var keep := OnDayOfMonth(day);
    var last := Min(end, Cursor(FirstCursorMonth(start, day), day) - 1);
    forall d: Day | start <= d <= last
      ensures !keep(d)
    {
      if DayOfMonth(d) == day {
        FirstCursorIsFirst(start, day, d);
      }
    }
    FilterDaysNone(start, last, keep);
  }

  /** Within one cursor range, a day with the target day of the month is the cursor of a month that has that day. */
  lemma CursorRangeMatch(first: Day, last: int, month: nat, next: nat, day: int, d: Day)
    requires next == month + 1
    requires Cursor(month, day) <= first <= d <= last < Cursor(next, day)
    requires DayOfMonth(d) == day
    ensures d == first == Cursor(month, day) && 1 <= day <= MonthLength(month)
  {
    MatchInCursorRange(d, month, next);
  }

  /**
   * Within one cursor range, the only day with the target day of the month is the
   * cursor itself, and only when the month has that day.
   */
  lemma FilterCursorRange(first: Day, last: int, month: nat, next: nat, day: int)
    requires next == month + 1
    requires Cursor(month, day) <= first <= last < Cursor(next, day)
    ensures Filter(DaysFrom(first, last), OnDayOfMonth(day)) ==
      if 1 <= day <= MonthLength(month) && first == Cursor(month, day) then [DayInMonth(month, day)] else []
  {
    if 1 <= day <= MonthLength(month) && first == Cursor(month, day) {
      FilterCursorRangeHit(first, last, month, next, day);
    } else {
      FilterCursorRangeMiss(first, last, month, next, day);
    }
  }

  /** A cursor range that starts at an existing target day keeps just that day. */
  lemma FilterCursorRangeHit(first: Day, last: int, month: nat, next: nat, day: int)
    requires next == month + 1
    requires Cursor(month, day) <= first <= last < Cursor(next, day)
    requires 1 <= day <= MonthLength(month) && first == Cursor(month, day)
    ensures Filter(DaysFrom(first, last), OnDayOfMonth(day)) == [DayInMonth(month, day)]
  {
    var keep := OnDayOfMonth(day);
    forall d: Day | first + 1 <= d <= last
      ensures !keep(d)
    {
      if DayOfMonth(d) == day {
        CursorRangeMatch(first, last, month, next, day, d);
      }
    }
    FilterDaysNone(first + 1, last, keep);
    var cursor := DayInMonth(month, day);
    assert DaysFrom(first, last) == [cursor] + DaysFrom(first + 1, last);
    FilterConcat([cursor], DaysFrom(first + 1, last), keep);
    assert Filter([cursor], keep) == [cursor];
  }

  /** Any other cursor range keeps nothing. */
  lemma FilterCursorRangeMiss(first: Day, last: int, month: nat, next: nat, day: int)
    requires next == month + 1
    requires Cursor(month, day) <= first <= last < Cursor(next, day)
    requires !(1 <= day <= MonthLength(month) && first == Cursor(month, day))
    ensures Filter(DaysFrom(first, last), OnDayOfMonth(day)) == []
  {
    var keep := OnDayOfMonth(day);
    forall d: Day | first <= d <= last
      ensures !keep(d)
    {
      if DayOfMonth(d) == day {
        CursorRangeMatch(first, last, month, next, day, d);
      }
    }
    FilterDaysNone(first, last, keep);
  }

  /** Advancing the cursor by one month adds that month's target day, when it exists. */
  lemma MonthlyStep(start: Day, end: Day, rangeStart: Day, month: nat, next: nat, day: int)
    requires next == month + 1
    requires rangeStart <= start <= end && Cursor(month, day) <= end
    requires start <= Cursor(month, day) || day < 1
    ensures Cursor(month, day) < Cursor(next, day)
    ensures Filter(DaysFrom(start, Min(end, Cursor(next, day) - 1)), OnDayOfMonth(day)) ==
      Filter(DaysFrom(start, Min(end, Cursor(month, day) - 1)), OnDayOfMonth(day))
      + MonthlyEmission(month, day, rangeStart)
  {
    EmissionInRange(month, day, rangeStart);
    CursorMonotone(month, next, day);
    var keep := OnDayOfMonth(day);
    var lo, hi := Cursor(month, day) - 1, Min(end, Cursor(next, day) - 1);
    assert Min(end, lo) == lo;
    if day < 1 {
      FilterDaysNone(start, lo, keep);
      FilterDaysNone(start, hi, keep);
    } else if lo < start {
      FilterCursorRange(start, hi, month, next, day);
    } else {
      DaysFromSplit(start, lo, hi);
      FilterConcat(DaysFrom(start, lo), DaysFrom(lo + 1, hi), keep);
      FilterCursorRange(lo + 1, hi, month, next, day);
    }
  }

  /** What one turn of the monthly loop pushes: the cursor, when the month has the day and it is in range. */
  function MonthlyEmission(month: nat, day: int, rangeStart: Day): seq<Day>
  {
    if 1 <= day <= MonthLength(month) && DayInMonth(month, day) >= rangeStart then [DayInMonth(month, day)] else []
  }

  /** A month whose cursor is not before the range start emits its target day whenever it has one. */
  lemma EmissionInRange(month: nat, day: int, rangeStart: Day)
    requires rangeStart <= Cursor(month, day) || day < 1
    ensures MonthlyEmission(month, day, rangeStart) ==
      if 1 <= day <= MonthLength(month) then [DayInMonth(month, day)] else []
  {
  }

  /** The month at which the monthly cursor, started at `month`, first passes `end`. */
  function CursorExitMonth(end: int, day: int, month: nat): (exit: nat)
    ensures month <= exit && end < Cursor(exit, day)
    ensures exit == month || Cursor(exit - 1, day) <= end
    decreases end + 1 - Cursor(month, day)
  {
    if Cursor(month, day) > end then month
    else
      CursorMonotone(month, month + 1, day);
      CursorExitMonth(end, day, month + 1)
  }

  /** What the monthly loop has pushed once its cursor has run from month `first` up to `month`. */
  function MonthlyCursorDates(first: nat, month: nat, day: int, rangeStart: Day): seq<Day>
    requires first <= month
    decreases month - first
  {
    if month == first then []
    else MonthlyCursorDates(first, month - 1, day, rangeStart) + MonthlyEmission(month - 1, day, rangeStart)
  }

  /** One more month of the cursor walk extends the filtered window by that month's target day. */
  lemma MonthlyFilterStep(start: Day, end: Day, rangeStart: Day, day: int, first: nat, previous: nat, month: nat)
    requires month == previous + 1 && first == FirstCursorMonth(start, day) && first <= previous
    requires rangeStart <= start <= end && Cursor(previous, day) <= end
    requires MonthlyCursorDates(first, previous, day, rangeStart) ==
      Filter(DaysFrom(start, Min(end, Cursor(previous, day) - 1)), OnDayOfMonth(day))
    ensures MonthlyCursorDates(first, month, day, rangeStart) ==
      Filter(DaysFrom(start, Min(end, Cursor(month, day) - 1)), OnDayOfMonth(day))
  {
    if 1 <= day {
      FirstCursorInWindow(start, day);
      if first < previous {
        CursorMonotone(first, previous, day);
      }
    }
    MonthlyStep(start, end, rangeStart, previous, month, day);
    assert MonthlyCursorDates(first, month, day, rangeStart) ==
      MonthlyCursorDates(first, previous, day, rangeStart) + MonthlyEmission(previous, day, rangeStart);
  }

  /**
   * The monthly cursor walk lists exactly the window days that have the target day of the
   * month, up to the day before its current position.
   */
  lemma {:induction false} MonthlyCursorDatesAreFilter(start: Day, end: Day, rangeStart: Day, day: int, month: nat)
    requires rangeStart <= start <= end
    requires FirstCursorMonth(start, day) <= month
    requires month == FirstCursorMonth(start, day) || Cursor(month - 1, day) <= end
    ensures MonthlyCursorDates(FirstCursorMonth(start, day), month, day, rangeStart) ==
      Filter(DaysFrom(start, Min(end, Cursor(month, day) - 1)), OnDayOfMonth(day))
    decreases month
  {
    var first := FirstCursorMonth(start, day);
    if month == first {
      NothingBeforeFirstCursor(start, end, day);
    } else {
      var previous := month - 1;
      if first < previous {
        CursorMonotone(previous - 1, previous, day);
      }
      MonthlyCursorDatesAreFilter(start, end, rangeStart, day, previous);
      MonthlyFilterStep(start, end, rangeStart, day, first, previous, month);
    }
  }

  /** For a target day every month has, the walk yields that day of each successive month. */
  lemma {:induction false} MonthlyCursorDatesConsecutive(first: nat, month: nat, day: int, rangeStart: Day)
    requires first <= month && 1 <= day <= 28
    requires rangeStart <= Cursor(first, day)
    ensures |MonthlyCursorDates(first, month, day, rangeStart)| == month - first
    ensures forall i :: 0 <= i < month - first ==>
      MonthlyCursorDates(first, month, day, rangeStart)[i] == Cursor(first + i, day)
    decreases month - first
  {
    if month > first {
      var previous := month - 1;
      MonthlyCursorDatesConsecutive(first, previous, day, rangeStart);
      if first < previous {
        CursorMonotone(first, previous, day);
      }
      var prefix, last := MonthlyCursorDates(first, previous, day, rangeStart), DayInMonth(previous, day);
      assert MonthlyEmission(previous, day, rangeStart) == [last];
      var walk := prefix + [last];
      assert MonthlyCursorDates(first, month, day, rangeStart) == walk;
      forall i | 0 <= i < month - first
        ensures walk[i] == Cursor(first + i, day)
      {
        if i < previous - first {
          assert walk[i] == prefix[i];
        } else {
          SameCursor(first + i, previous, day);
        }
      }
    }
  }

  /** One turn of the monthly loop: the walk gains this month's emission and keeps its exit. */
  /**
   * The monthly walk as the loop runs it: from a month whose cursor is within the window,
   * emit that month's cursor day and move on one month.
   */
  function MonthlyWalk(month: nat, end: int, day: int, rangeStart: Day): seq<Day>
    decreases end + 1 - Cursor(month, day)
  {
    if Cursor(month, day) > end then []
    else
      CursorMonotone(month, month + 1, day);
      MonthlyEmission(month, day, rangeStart) + MonthlyWalk(month + 1, end, day, rangeStart)
  }

  /** One turn of the monthly loop: the cursor advances and the emitted prefix grows by one month's emission. */
  lemma MonthlyWalkStep(before: seq<Day>, month: nat, end: int, day: int, rangeStart: Day)
    requires Cursor(month, day) <= end
    ensures Cursor(month, day) < Cursor(month + 1, day)
    ensures (before + MonthlyEmission(month, day, rangeStart)) + MonthlyWalk(month + 1, end, day, rangeStart) ==
      before + MonthlyWalk(month, end, day, rangeStart)
  {
    CursorMonotone(month, month + 1, day);
  }

  /** The walk from the first cursor month is the months emitted so far followed by the rest of the walk. */
  lemma {:induction false} MonthlyWalkJoins(first: nat, month: nat, end: int, day: int, rangeStart: Day)
    requires first <= month
    requires month == first || Cursor(month - 1, day) <= end
    ensures MonthlyCursorDates(first, month, day, rangeStart) + MonthlyWalk(month, end, day, rangeStart) ==
      MonthlyWalk(first, end, day, rangeStart)
    decreases month - first
  {
    if month > first {
      var previous := month - 1;
      if previous > first {
        CursorMonotone(previous - 1, previous, day);
      }
      MonthlyWalkJoins(first, previous, end, day, rangeStart);
      MonthlyWalkStep(MonthlyCursorDates(first, previous, day, rangeStart), previous, end, day, rangeStart);
    }
  }

  lemma MonthlyWalkIsExpansion(template: ChoreTemplate, rangeStart: Day, rangeEnd: Day)
    requires template.recurrence.frequency == Monthly
    requires WindowStart(template, rangeStart) <= EffectiveEnd(template, rangeEnd)
    ensures var start, end, day := WindowStart(template, rangeStart), EffectiveEnd(template, rangeEnd), TargetDay(template);
      var first := FirstCursorMonth(start, day);
      Expansion(template, rangeStart, rangeEnd) == MonthlyCursorDates(first, CursorExitMonth(end, day, first), day, rangeStart)
      == MonthlyWalk(first, end, day, rangeStart)
  {
    var start, end, day := WindowStart(template, rangeStart), EffectiveEnd(template, rangeEnd), TargetDay(template);
    var first := FirstCursorMonth(start, day);
    var exit := CursorExitMonth(end, day, first);
    MonthlyCursorDatesAreFilter(start, end, rangeStart, day, exit);
    MonthlyWalkJoins(first, exit, end, day, rangeStart);
  }

  // ---------------------------------------------------------------------------
  // The generators
  // ---------------------------------------------------------------------------

  /**
   * The monthly generator: a cursor on the target day, starting in the window's first
   * month (or the next one when that day is already past) and advanced one month at a
   * time while it is not after the effective end; a cursor before the range start is
   * passed over.
   */
  method ExpandMonthly(windowStart: Day, effectiveEnd: Day, rangeStart: Day, targetDay: int)
    returns (dates: seq<Day>)
    ensures dates == MonthlyWalk(FirstCursorMonth(windowStart, targetDay), effectiveEnd, targetDay, rangeStart)
  {
    var month := MonthOf(windowStart);
    if Cursor(month, targetDay) < windowStart {
      month := month + 1;
    }
    dates := [];
    while Cursor(month, targetDay) <= effectiveEnd
      invariant dates + MonthlyWalk(month, effectiveEnd, targetDay, rangeStart) ==
        MonthlyWalk(FirstCursorMonth(windowStart, targetDay), effectiveEnd, targetDay, rangeStart)
      decreases effectiveEnd - Cursor(month, targetDay)
    {
      MonthlyWalkStep(dates, month, effectiveEnd, targetDay, rangeStart);
      ghost var before := dates;
      if 1 <= targetDay <= MonthLength(month) && DayInMonth(month, targetDay) >= rangeStart {
        dates := dates + [DayInMonth(month, targetDay)];
      }
      assert dates == before + MonthlyEmission(month, targetDay, rangeStart);
      month := month + 1;
    }
  }

  method ExpandDaily(windowStart: Day, effectiveEnd: Day) returns (dates: seq<Day>)
    ensures dates == EachDayOfInterval(windowStart, effectiveEnd)
  {
    var days := EachDayOfInterval(windowStart, effectiveEnd);
    dates := [];
    for i := 0 to |days|
      invariant dates == days[..i]
    {
      dates := dates + [days[i]];
    }
    assert days[..|days|] == days;
  }

  /** The weekly generator: the window days whose weekday is listed (`daysOfWeek ?? []`). */
  method ExpandWeekly(windowStart: Day, effectiveEnd: Day, daysOfWeek: Option<seq<int>>)
    returns (dates: seq<Day>)
    ensures dates == Filter(EachDayOfInterval(windowStart, effectiveEnd), OnWeekdays(daysOfWeek.GetOr([])))
  {
    var targetDays := daysOfWeek.GetOr([]);
    var keep := OnWeekdays(targetDays);
    var days := EachDayOfInterval(windowStart, effectiveEnd);
    dates := [];
    for i := 0 to |days|
      invariant dates == Filter(days[..i], keep)
    {
      FilterPrefixStep(days, i, keep);
      if Weekday(days[i]) in targetDays {
        dates := dates + [days[i]];
      }
    }
    assert days[..|days|] == days;
  }

  /** `expandRecurrence(template, rangeStart, rangeEnd)`. */
  method ExpandRecurrence(template: ChoreTemplate, rangeStart: Day, rangeEnd: Day)
    returns (dates: seq<Day>)
    ensures dates == Expansion(template, rangeStart, rangeEnd)
  {
    var recurrence := template.recurrence;
    var anchor := template.startDate;
    var effectiveEnd := rangeEnd;
    if template.deletedAt.Some? {
      var d := template.deletedAt.value.date;
      if d < effectiveEnd {
        effectiveEnd := d;
      }
    }
    if recurrence.endDate.Some? {
      var d := recurrence.endDate.value;
      if d < effectiveEnd {
        effectiveEnd := d;
      }
    }
    assert effectiveEnd == EffectiveEnd(template, rangeEnd);
    var windowStart := if anchor > rangeStart then anchor else rangeStart;
    if windowStart > effectiveEnd {
      return [];
    }
    match recurrence.frequency {
      case Once =>
        dates := [];
        if rangeStart <= anchor <= rangeEnd {
          dates := dates + [anchor];
        }
      case Daily =>
        dates := ExpandDaily(windowStart, effectiveEnd);
      case Weekly =>
        dates := ExpandWeekly(windowStart, effectiveEnd, recurrence.daysOfWeek);
      case Monthly =>
        var targetDay := recurrence.dayOfMonth.GetOr(DayOfMonth(anchor));
        dates := ExpandMonthly(windowStart, effectiveEnd, rangeStart, targetDay);
        MonthlyWalkIsExpansion(template, rangeStart, rangeEnd);
    }
  }
}
