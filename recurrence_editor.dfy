/**
 * The recurrence editor's two rule updates: toggling a weekday in a weekly rule, and the
 * reset applied when the frequency is changed.
 */
module RecurrenceEditor {
  import opened Options
  import opened Seqs
  import opened Strings
  import opened Dates
  import opened Types
  import opened Recurrence
  import opened RecurrenceProperties

  // ---------------------------------------------------------------------------
  // The default array sort
  // ---------------------------------------------------------------------------

  /** Without a comparator, `sort()` compares numbers by their decimal numerals. */
  function DayKey(d: int): string
  {
    IntToDecimal(d)
  }

  /** `a` sorts no later than `b` under the default comparison. */
  predicate KeyLessEq(a: int, b: int)
  {
    StringLessEq(DayKey(a), DayKey(b))
  }

  predicate SortedByKey(s: seq<int>)
  {
    forall i, j :: 0 <= i < j < |s| ==> KeyLessEq(s[i], s[j])
  }

  /** Sorted, and no two elements share a numeral (so no element occurs twice). */
  predicate StrictlySortedByKey(s: seq<int>)
  {
    forall i, j :: 0 <= i < j < |s| ==> KeyLessEq(s[i], s[j]) && DayKey(s[i]) != DayKey(s[j])
  }

  /** Puts `x` into the sorted `s` behind every element that sorts no later than it. */
  function Insert(s: seq<int>, x: int): seq<int>
  {
    if s == [] then [x]
    else if KeyLessEq(s[0], x) then [s[0]] + Insert(s[1..], x)
    else [x] + s
  }

  /** The stable sort under the default comparison, as an insertion sort. */
  function Sort(s: seq<int>): seq<int>
  {
    if s == [] then [] else Insert(Sort(s[..|s| - 1]), s[|s| - 1])
  }

  /** A tail of a sorted list is sorted. */
  lemma TailSorted(s: seq<int>)
    requires SortedByKey(s) && s != []
    ensures SortedByKey(s[1..])
  {
    var tail := s[1..];
    forall i, j | 0 <= i < j < |tail| ensures KeyLessEq(tail[i], tail[j]) {
      assert tail[i] == s[i + 1] && tail[j] == s[j + 1];
    }
  }

  /** An element sorting no later than every element of a sorted list may go in front of it. */
  lemma ConsSorted(x: int, r: seq<int>)
    requires SortedByKey(r)
    requires forall k :: 0 <= k < |r| ==> KeyLessEq(x, r[k])
    ensures SortedByKey([x] + r)
  {
    var result := [x] + r;
    forall i, j | 0 <= i < j < |result| ensures KeyLessEq(result[i], result[j]) {
      if i == 0 {
        assert result[j] == r[j - 1];
      } else {
        assert result[i] == r[i - 1] && result[j] == r[j - 1];
      }
    }
  }

  /** A lower bound of a list and of `x` is a lower bound of every element of a permutation of both. */
  lemma LowerBoundOfInsert(y: int, tail: seq<int>, x: int, r: seq<int>)
    requires forall j :: 0 <= j < |tail| ==> KeyLessEq(y, tail[j])
    requires KeyLessEq(y, x)
    requires multiset(r) == multiset(tail) + multiset{x}
    ensures forall k :: 0 <= k < |r| ==> KeyLessEq(y, r[k])
  {
    forall k | 0 <= k < |r| ensures KeyLessEq(y, r[k]) {
      assert r[k] in multiset(r);
      if r[k] != x {
        assert r[k] in multiset(tail);
        var j :| 0 <= j < |tail| && tail[j] == r[k];
      }
    }
  }

  /** Inserting into a sorted list keeps it sorted and adds exactly the one element. */
  lemma {:induction false} InsertFacts(s: seq<int>, x: int)
    requires SortedByKey(s)
    ensures multiset(Insert(s, x)) == multiset(s) + multiset{x}
    ensures SortedByKey(Insert(s, x))
  {
    if s == [] {
    } else if KeyLessEq(s[0], x) {
      var tail := s[1..];
      TailSorted(s);
      InsertFacts(tail, x);
      assert s == [s[0]] + tail;
      forall j | 0 <= j < |tail| ensures KeyLessEq(s[0], tail[j]) {
        assert tail[j] == s[j + 1];
      }
      LowerBoundOfInsert(s[0], tail, x, Insert(tail, x));
      ConsSorted(s[0], Insert(tail, x));
    } else {
      StringLessEqTotal(DayKey(s[0]), DayKey(x));
      forall k | 0 <= k < |s| ensures KeyLessEq(x, s[k]) {
        if k > 0 {
          StringLessEqTransitive(DayKey(x), DayKey(s[0]), DayKey(s[k]));
        }
      }
      ConsSorted(x, s);
    }
  }

  /** The sort yields a sorted permutation of its input. */
  lemma {:induction false} SortFacts(s: seq<int>)
    ensures multiset(Sort(s)) == multiset(s)
    ensures SortedByKey(Sort(s))
  {
    if s != [] {
      var init := s[..|s| - 1];
      SortFacts(init);
      InsertFacts(Sort(init), s[|s| - 1]);
      assert s == init + [s[|s| - 1]];
    }
  }

  /** Inserting behind every element that sorts no later, and before one that sorts later. */
  lemma {:induction false} InsertBetween(front: seq<int>, back: seq<int>, x: int)
    requires forall i :: 0 <= i < |front| ==> KeyLessEq(front[i], x)
    requires back != [] ==> !KeyLessEq(back[0], x)
    ensures Insert(front + back, x) == front + [x] + back
  {
    if front == [] {
      assert front + back == back;
    } else {
      assert (front + back)[1..] == front[1..] + back;
      InsertBetween(front[1..], back, x);
    }
  }

  /** Sorting a sorted list changes nothing. */
  lemma {:induction false} SortOfSorted(s: seq<int>)
    requires SortedByKey(s)
    ensures Sort(s) == s
  {
    if s != [] {
      var init := s[..|s| - 1];
      assert SortedByKey(init) by {
        forall i, j | 0 <= i < j < |init| ensures KeyLessEq(init[i], init[j]) {
          assert init[i] == s[i] && init[j] == s[j];
        }
      }
      SortOfSorted(init);
      forall i | 0 <= i < |init| ensures KeyLessEq(init[i], s[|s| - 1]) {
        assert init[i] == s[i];
      }
      InsertBetween(init, [], s[|s| - 1]);
      assert init + [] == init;
      assert init + [s[|s| - 1]] + [] == s;
    }
  }

  /** On single digits, the comparison of numerals is the comparison of numbers. */
  lemma DigitKeyOrder(a: int, b: int)
    requires 0 <= a <= 9 && 0 <= b <= 9
    ensures KeyLessEq(a, b) <==> a <= b
    ensures DayKey(a) == DayKey(b) <==> a == b
  {
    var ca, cb := DigitChar(a), DigitChar(b);
    assert DayKey(a) == [ca] && DayKey(b) == [cb];
    assert [ca][1..] == [] && [cb][1..] == [];
    assert StringLessEq([ca], [cb]) <==> ca <= cb;
  }

  // ---------------------------------------------------------------------------
  // toggleDay
  // ---------------------------------------------------------------------------

  function IsNot(day: int): int -> bool
  {
    (d: int) => d != day
  }

  /** The weekday list after `toggleDay(day)`: every copy removed if present, else added and sorted. */
  function ToggledDays(days: seq<int>, day: int): seq<int>
  {
    if day in days then Filter(days, IsNot(day)) else Sort(days + [day])
  }

  /** `toggleDay(day)`: the rule with the new weekday list; every other field is kept. */
  function ToggleDay(rule: RecurrenceRule, day: int): (r: RecurrenceRule)
    ensures r.frequency == rule.frequency && r.dayOfMonth == rule.dayOfMonth && r.endDate == rule.endDate
    ensures r.daysOfWeek.Some?
  {
    rule.(daysOfWeek := Some(ToggledDays(rule.daysOfWeek.GetOr([]), day)))
  }

  /**
   * Toggling a listed day removes every copy of it and keeps every other day, in its
   * order.
   */
  lemma ToggleRemovesDay(days: seq<int>, day: int, d: int)
    requires day in days
    ensures d in ToggledDays(days, day) <==> d in days && d != day
    ensures SortedByKey(days) ==> SortedByKey(ToggledDays(days, day))
  {
    FilterMembership(days, IsNot(day), d);
    if SortedByKey(days) {
      FilterKeepsPairwise(days, IsNot(day), KeyLessEq);
    }
  }

  /**
   * Toggling an unlisted day gives the old list plus the day, sorted; into a sorted list
   * the day is inserted behind the days that sort before it.
   */
  lemma ToggleAddsDay(days: seq<int>, day: int)
    requires day !in days
    ensures multiset(ToggledDays(days, day)) == multiset(days) + multiset{day}
    ensures SortedByKey(ToggledDays(days, day))
    ensures SortedByKey(days) ==> ToggledDays(days, day) == Insert(days, day)
  {
    SortFacts(days + [day]);
    if SortedByKey(days) {
      assert (days + [day])[..|days|] == days;
      SortOfSorted(days);
    }
  }

  /** For weekday indices (0 to 6) the default sort is numeric order. */
  lemma ToggleAddsWeekday(days: seq<int>, day: int)
    requires forall i :: 0 <= i < |days| ==> 0 <= days[i] <= 6
    requires 0 <= day <= 6 && day !in days
    ensures var next := ToggledDays(days, day);
      && multiset(next) == multiset(days) + multiset{day}
      && forall i, j :: 0 <= i < j < |next| ==> next[i] <= next[j]
  {
    ToggleAddsDay(days, day);
    var next := ToggledDays(days, day);
    forall i, j | 0 <= i < j < |next| ensures next[i] <= next[j] {
      WeekdayOf(days, day, next, i);
      WeekdayOf(days, day, next, j);
      DigitKeyOrder(next[i], next[j]);
    }
  }

  lemma WeekdayOf(days: seq<int>, day: int, next: seq<int>, i: int)
    requires forall k :: 0 <= k < |days| ==> 0 <= days[k] <= 6
    requires 0 <= day <= 6
    requires multiset(next) == multiset(days) + multiset{day}
    requires 0 <= i < |next|
    ensures 0 <= next[i] <= 6
  {
    assert next[i] in multiset(next);
    if next[i] != day {
      assert next[i] in multiset(days);
    }
  }

  /**
   * In a strictly sorted list an element occurs once; the elements before it sort no later,
   * the next one sorts later, and without it the list is still sorted.
   */
  lemma RemoveFromStrictlySorted(front: seq<int>, x: int, back: seq<int>)
    requires StrictlySortedByKey(front + [x] + back)
    ensures x !in front && x !in back && x !in front + back
    ensures forall i :: 0 <= i < |front| ==> KeyLessEq(front[i], x)
    ensures back != [] ==> !KeyLessEq(back[0], x)
    ensures SortedByKey(front + back)
  {
    var days := front + [x] + back;
    var p := |front|;
    assert days[p] == x;
    forall i | 0 <= i < |front| ensures front[i] != x && KeyLessEq(front[i], x) {
      assert front[i] == days[i];
    }
    forall i | 0 <= i < |back| ensures back[i] != x {
      assert back[i] == days[p + 1 + i];
    }
    if back != [] {
      assert back[0] == days[p + 1];
      if KeyLessEq(back[0], x) {
        StringLessEqAntisymmetric(DayKey(back[0]), DayKey(x));
      }
    }
    var rest := front + back;
    forall i, j | 0 <= i < j < |rest| ensures KeyLessEq(rest[i], rest[j]) {
      var i', j' := if i < p then i else i + 1, if j < p then j else j + 1;
      assert rest[i] == days[i'] && rest[j] == days[j'];
    }
  }

  /** Toggling the one copy of `day` off removes it from between the other days. */
  lemma ToggledListed(front: seq<int>, back: seq<int>, day: int)
    requires day !in front && day !in back
    ensures ToggledDays(front + [day] + back, day) == front + back
  {
    var keep := IsNot(day);
    assert (front + [day] + back)[|front|] == day;
    forall i | 0 <= i < |front| ensures keep(front[i]) {
      assert front[i] in front;
    }
    forall i | 0 <= i < |back| ensures keep(back[i]) {
      assert back[i] in back;
    }
    FilterKeepsAll(front, keep);
    FilterKeepsAll(back, keep);
    assert Filter([day], keep) == [];
    FilterConcat(front, [day], keep);
    FilterConcat(front + [day], back, keep);
    assert front + [] == front;
  }

  /** Toggling an unlisted day on inserts it into a sorted list. */
  lemma ToggledUnlisted(days: seq<int>, day: int)
    requires day !in days && SortedByKey(days)
    ensures ToggledDays(days, day) == Insert(days, day)
  {
    ToggleAddsDay(days, day);
  }

  /** Removing a listed day and adding it back puts it back in its place. */
  lemma ToggleTwiceListed(days: seq<int>, day: int)
    requires StrictlySortedByKey(days) && day in days
    ensures ToggledDays(ToggledDays(days, day), day) == days
  {
    var p :| 0 <= p < |days| && days[p] == day;
    var front, back := days[..p], days[p + 1..];
    assert days == front + [day] + back;
    RemoveFromStrictlySorted(front, day, back);
    ToggledListed(front, back, day);
    ToggledUnlisted(front + back, day);
    InsertBetween(front, back, day);
  }

  /** Adding an unlisted day and removing it again leaves the list as it was. */
  lemma ToggleTwiceUnlisted(days: seq<int>, day: int)
    requires SortedByKey(days) && day !in days
    ensures ToggledDays(ToggledDays(days, day), day) == days
  {
    ToggledUnlisted(days, day);
    var k := InsertPosition(days, day);
    var front, back := days[..k], days[k..];
    assert days == front + back;
    assert day !in front && day !in back;
    ToggledListed(front, back, day);
  }

  /**
   * Toggling the same day twice restores a sorted list without repeats: adding then
   * removing, or removing then adding back in its place.
   */
  lemma ToggleTwice(days: seq<int>, day: int)
    requires StrictlySortedByKey(days)
    ensures ToggledDays(ToggledDays(days, day), day) == days
  {
    if day in days {
      ToggleTwiceListed(days, day);
    } else {
      ToggleTwiceUnlisted(days, day);
    }
  }

  /** `Insert` puts the element at some position of the list. */
  lemma {:induction false} InsertPosition(s: seq<int>, x: int) returns (k: nat)
    ensures k <= |s| && Insert(s, x) == s[..k] + [x] + s[k..]
  {
    if s == [] {
      k := 0;
    } else if KeyLessEq(s[0], x) {
      var k' := InsertPosition(s[1..], x);
      k := k' + 1;
      assert s[..k] == [s[0]] + s[1..][..k'];
      assert s[k..] == s[1..][k'..];
    } else {
      k := 0;
    }
  }

  /**
   * In the editor's terms: for a rule whose weekdays are listed in increasing order,
   * toggling the same weekday twice gives the rule back.
   */
  lemma ToggleDayTwice(rule: RecurrenceRule, day: int)
    requires rule.daysOfWeek.Some?
    requires forall i :: 0 <= i < |rule.daysOfWeek.value| ==> 0 <= rule.daysOfWeek.value[i] <= 6
    requires forall i, j :: 0 <= i < j < |rule.daysOfWeek.value| ==> rule.daysOfWeek.value[i] < rule.daysOfWeek.value[j]
    ensures ToggleDay(ToggleDay(rule, day), day) == rule
  {
    var days := rule.daysOfWeek.value;
    forall i, j | 0 <= i < j < |days| ensures KeyLessEq(days[i], days[j]) && DayKey(days[i]) != DayKey(days[j]) {
      DigitKeyOrder(days[i], days[j]);
    }
    ToggleTwice(days, day);
  }

  // ---------------------------------------------------------------------------
  // Changing the frequency
  // ---------------------------------------------------------------------------

  /** The rule the editor sets when another frequency is picked. */
  function FrequencyChanged(frequency: Frequency): RecurrenceRule
  {
    RecurrenceRule(frequency, Some([]), Some(1), None)
  }

  /**
   * After the reset, a weekly chore has no weekday and so never occurs, a monthly chore
   * falls on the first of the month, and, the end date being dropped, the chore's
   * occurrences run no shorter than before.
   */
  lemma FrequencyChangedSchedule(template: ChoreTemplate, frequency: Frequency, rangeStart: Day, rangeEnd: Day)
    ensures var reset := template.(recurrence := FrequencyChanged(frequency));
      && reset.recurrence.frequency == frequency
      && (frequency == Weekly ==> Expansion(reset, rangeStart, rangeEnd) == [])
      && (frequency == Monthly ==> forall d :: Scheduled(reset, d) <==> DayOfMonth(d) == 1)
      && EffectiveEnd(template, rangeEnd) <= EffectiveEnd(reset, rangeEnd)
  {
    var reset := template.(recurrence := FrequencyChanged(frequency));
    if frequency == Weekly {
      WeeklyWithoutDaysIsEmpty(reset, rangeStart, rangeEnd);
    }
  }
}
