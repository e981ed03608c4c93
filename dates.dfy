/**
 * Calendar dates for the recurrence engine.
 *
 * The application handles plain calendar dates ("YYYY-MM-DD", local midnight) and
 * ISO instants. A calendar date is represented by its day number: the count of days
 * since 0000-01-01 in the proleptic Gregorian calendar. Comparing two midnight `Date`
 * objects by timestamp is comparing their day numbers. Year, month and day of the
 * month are derived from the day number.
 */
module Dates {
  import opened Strings

  /** A calendar date: days since 0000-01-01. */
  type Day = nat

  /** An ISO-8601 instant: a calendar date and the milliseconds elapsed since its midnight. */
  datatype Instant = Instant(date: Day, millisOfDay: int)

  /** Whether `k` divides `n`, by repeated subtraction. */
  predicate Divides(k: nat, n: nat)
    requires k > 0
    decreases n
  {
    if n < k then n == 0 else Divides(k, n - k)
  }

  /** Gregorian leap years: divisible by 4, and by 400 when divisible by 100. */
  predicate IsLeapYear(year: nat)
  {
    Divides(4, year) && (!Divides(100, year) || Divides(400, year))
  }

  function DaysInMonth(year: nat, month: int): (n: int)
    ensures 28 <= n <= 31
    ensures n == 28 <==> month == 2 && !IsLeapYear(year)
  {
    if month == 2 then (if IsLeapYear(year) then 29 else 28)
    else if month == 4 || month == 6 || month == 9 || month == 11 then 30
    else 31
  }

  // ---------------------------------------------------------------------------
  // Months
  // ---------------------------------------------------------------------------

  /** Months counted from January of year 0. */
  function MonthIndex(year: nat, month: int): int
  {
    12 * year + month - 1
  }

  /** The year of the month with the given index (the index divided by 12). */
  function YearOfMonthIndex(index: nat): nat
  {
    if index < 12 then 0 else YearOfMonthIndex(index - 12) + 1
  }

  /** The month (1..12) of the month with the given index. */
  function MonthOfMonthIndex(index: nat): (month: int)
    ensures 1 <= month <= 12
  {
    if index < 12 then index + 1 else MonthOfMonthIndex(index - 12)
  }

  /** Month indices and (year, month) pairs correspond one to one. */
  lemma {:induction false} MonthIndexRoundTrip(year: nat, month: int)
    requires 1 <= month <= 12
    ensures YearOfMonthIndex(MonthIndex(year, month)) == year
    ensures MonthOfMonthIndex(MonthIndex(year, month)) == month
  {
    if year > 0 {
      MonthIndexRoundTrip(year - 1, month);
    }
  }

  /** Every month index is the index of its own (year, month) pair. */
  lemma {:induction false} MonthIndexParts(index: nat)
    ensures MonthIndex(YearOfMonthIndex(index), MonthOfMonthIndex(index)) == index
  {
    if index >= 12 {
      MonthIndexParts(index - 12);
    }
  }

  function MonthLength(index: nat): (n: int)
    ensures 28 <= n <= 31
  {
    DaysInMonth(YearOfMonthIndex(index), MonthOfMonthIndex(index))
  }

  /** Day number of the first day of the month with the given index. */
  function MonthStart(index: nat): nat
  {
    if index == 0 then 0 else MonthStart(index - 1) + MonthLength(index - 1)
  }

  /** Months tile the day line: the next month starts right after this one ends. */
  lemma MonthStep(index: nat)
    ensures MonthStart(index + 1) == MonthStart(index) + MonthLength(index)
  {
  }

  lemma {:induction false} MonthStartMonotone(i: nat, j: nat)
    requires i < j
    ensures MonthStart(i) + MonthLength(i) <= MonthStart(j)
    decreases j - i
  {
    MonthStep(i);
    if i + 1 < j {
      MonthStartMonotone(i + 1, j);
    }
  }

  /** The month holding the day `offset` days after the start of month `index`. */
  function Locate(offset: nat, index: nat): (found: nat)
    ensures index <= found
    ensures MonthStart(found) <= MonthStart(index) + offset < MonthStart(found) + MonthLength(found)
    decreases offset
  {
    if offset < MonthLength(index) then index
    else
      MonthStep(index);
      Locate(offset - MonthLength(index), index + 1)
  }

  /** The index of the month a day falls in. */
  function MonthOf(d: Day): (index: nat)
    ensures MonthStart(index) <= d < MonthStart(index) + MonthLength(index)
  {
    Locate(d, 0)
  }

  /** A day lies in exactly one month. */
  lemma MonthOfUnique(d: Day, index: nat)
    requires MonthStart(index) <= d < MonthStart(index) + MonthLength(index)
    ensures MonthOf(d) == index
  {
    var m := MonthOf(d);
    if m < index {
      MonthStartMonotone(m, index);
    } else if index < m {
      MonthStartMonotone(index, m);
    }
  }

  /** A later day never lies in an earlier month. */
  lemma MonthOfMonotone(a: Day, b: Day)
    requires a <= b
    ensures MonthOf(a) <= MonthOf(b)
  {
    if MonthOf(b) < MonthOf(a) {
      MonthStartMonotone(MonthOf(b), MonthOf(a));
    }
  }

  function Year(d: Day): nat
  {
    YearOfMonthIndex(MonthOf(d))
  }

  /** The month of the year, 1 = January. */
  function Month(d: Day): int
  {
    MonthOfMonthIndex(MonthOf(d))
  }

  /** The day of the month, 1 = the first (`getDate()`). */
  function DayOfMonth(d: Day): (day: int)
    ensures 1 <= day <= MonthLength(MonthOf(d))
  {
    d - MonthStart(MonthOf(d)) + 1
  }

  /** Day `day` of the month with the given index, when the month has that day. */
  function DayInMonth(index: nat, day: int): (d: Day)
    requires 1 <= day <= MonthLength(index)
    ensures MonthOf(d) == index && DayOfMonth(d) == day
  {
    MonthOfUnique(MonthStart(index) + day - 1, index);
    MonthStart(index) + day - 1
  }

  /** A day is determined by its month and its day of the month. */
  lemma DayFromParts(d: Day)
    ensures d == DayInMonth(MonthOf(d), DayOfMonth(d))
  {
  }

  /** The day number of a valid (year, month, day) triple. */
  function FromCivil(year: nat, month: int, day: int): (d: Day)
    requires 1 <= month <= 12 && 1 <= day <= DaysInMonth(year, month)
    ensures Year(d) == year && Month(d) == month && DayOfMonth(d) == day
  {
    MonthIndexRoundTrip(year, month);
    DayInMonth(MonthIndex(year, month), day)
  }

  /** Every day is the day number of its own (year, month, day) triple. */
  lemma CivilRoundTrip(d: Day)
    ensures 1 <= Month(d) <= 12 && 1 <= DayOfMonth(d) <= DaysInMonth(Year(d), Month(d))
    ensures FromCivil(Year(d), Month(d), DayOfMonth(d)) == d
  {
    MonthIndexParts(MonthOf(d));
  }

  /** Day of the week, 0 = Sunday .. 6 = Saturday (0000-01-01 was a Saturday). */
  function Weekday(d: Day): (w: int)
    ensures 0 <= w < 7
  {
    (d + 6) % 7
  }

  lemma WeekdayOfNextDay(d: Day)
    ensures Weekday(d + 1) == (Weekday(d) + 1) % 7
  {
    var q, r := (d + 6) / 7, (d + 6) % 7;
    if r < 6 {
      assert d + 7 == 7 * q + (r + 1);
    } else {
      assert d + 7 == 7 * (q + 1);
    }
  }

  // ---------------------------------------------------------------------------
  // Runs of days
  // ---------------------------------------------------------------------------

  /** The days from `first` up to `last`, inclusive and in order (empty when `last < first`). */
  function DaysFrom(first: Day, last: int): (days: seq<Day>)
    ensures |days| == if last < first then 0 else last - first + 1
    ensures forall i :: 0 <= i < |days| ==> days[i] == first + i
    decreases last - first
  {
    if last < first then [] else [first] + DaysFrom(first + 1, last)
  }

  /** Every day of the interval [start, end], both ends included (date-fns' `eachDayOfInterval`). */
  function EachDayOfInterval(start: Day, end: Day): seq<Day>
  {
    DaysFrom(start, end)
  }

  /** A day is listed exactly when it lies in the interval. */
  lemma DaysFromMembership(first: Day, last: int, x: Day)
    ensures x in DaysFrom(first, last) <==> first <= x <= last
  {
    if first <= x <= last {
      assert DaysFrom(first, last)[x - first] == x;
    }
  }

  /** Two runs of days that meet end to start make one run. */
  lemma DaysFromSplit(first: Day, mid: int, last: int)
    requires first <= mid + 1 && mid <= last
    ensures DaysFrom(first, last) == DaysFrom(first, mid) + DaysFrom(mid + 1, last)
  {
    var whole, left, right := DaysFrom(first, last), DaysFrom(first, mid), DaysFrom(mid + 1, last);
    assert |whole| == |left| + |right|;
    forall i | 0 <= i < |whole|
      ensures whole[i] == (left + right)[i]
    {
    }
  }

  // ---------------------------------------------------------------------------
  // "YYYY-MM-DD"
  // ---------------------------------------------------------------------------

  /** `n` in decimal, left-padded with zeros to at least `width` digits. */
  function Padded(n: nat, width: nat): (s: string)
    ensures AllDigits(s) && |s| >= width
  {
    PadStart(NatToDecimal(n), width, '0')
  }

  lemma PaddedValue(n: nat, width: nat)
    ensures DecimalValue(Padded(n, width)) == n
  {
    var digits := NatToDecimal(n);
    DecimalValueOfNatToDecimal(n);
    DecimalValueLeadingZeros(|Padded(n, width)| - |digits|, digits);
  }

  /** date-fns' `format(d, 'yyyy-MM-dd')`. */
  function IsoDate(d: Day): (s: string)
    ensures |s| == |Padded(Year(d), 4)| + 6
  {
    Padded(Year(d), 4) + "-" + Padded(Month(d), 2) + "-" + Padded(DayOfMonth(d), 2)
  }

  /** A formatted date never contains a colon. */
  lemma IsoDateHasNoColon(d: Day)
    ensures ':' !in IsoDate(d)
  {
    var year, month, day := Padded(Year(d), 4), Padded(Month(d), 2), Padded(DayOfMonth(d), 2);
    assert ':' !in year && ':' !in month && ':' !in day;
  }

  /** Formatting is one-to-one: the string identifies the date. */
  lemma IsoDateInjective(a: Day, b: Day)
    requires IsoDate(a) == IsoDate(b)
    ensures a == b
  {
    var s := IsoDate(a);
    var n := |s|;
    assert |Padded(Month(a), 2)| == 2 && |Padded(DayOfMonth(a), 2)| == 2;
    assert |Padded(Month(b), 2)| == 2 && |Padded(DayOfMonth(b), 2)| == 2;
    assert s[..n - 6] == Padded(Year(a), 4) == Padded(Year(b), 4);
    assert s[n - 5..n - 3] == Padded(Month(a), 2) == Padded(Month(b), 2);
    assert s[n - 2..] == Padded(DayOfMonth(a), 2) == Padded(DayOfMonth(b), 2);
    PaddedValue(Year(a), 4);
    PaddedValue(Year(b), 4);
    PaddedValue(Month(a), 2);
    PaddedValue(Month(b), 2);
    PaddedValue(DayOfMonth(a), 2);
    PaddedValue(DayOfMonth(b), 2);
    CivilRoundTrip(a);
    CivilRoundTrip(b);
  }
}
