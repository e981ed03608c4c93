# Office chores — a verified model of the scheduling core

Office Chores is a small web application for sharing recurring office chores. It keeps four
collections: team members, chore templates (a chore with a recurrence rule), occurrence
overrides (per-date exceptions: completed, rescheduled, skipped) and an audit log. This
project models the logic beneath the calendar and the stores:

- the recurrence engine `expandRecurrence`, which lists the dates a template falls on inside a
  visible range (one-time, daily, weekly and monthly rules, capped by the rule's end date and
  by soft deletion);
- occurrence keys (`templateId::YYYY-MM-DD`) and their parsing;
- `useResolvedOccurrences`, which joins templates, members and overrides into the records
  the calendar draws;
- the store actions: toggling completion, rescheduling and skipping an occurrence (and the
  calendar's drop handler); adding, updating and soft-deleting chore templates; adding and
  removing members with palette colours; prepending to the capped audit log;
- the colour palette and avatar initials;
- the server's row-to-record mappers;
- the recurrence editor's weekday toggle and its reset on a change of frequency;
- the history page's filter over the audit log.

Calendar dates are day numbers (days since 0000-01-01, proleptic Gregorian); ISO instants
are a day number plus milliseconds into that day. Identifiers, names and keys are strings.
Collections that the stores replace or update are `seq` and `map` fields of small classes
(`ChoreList`, `MemberList`, `OverrideStore`, `AuditLog`) whose methods are proved against
the pure functions that specify them. The generated ids (`nanoid()`) and the clock
(`new Date()`) are parameters of those methods.

Files: `options.dfy`, `seqs.dfy` (order-preserving filter), `strings.dfy` (split, join,
trim, upper case, decimal numerals, character order), `dates.dfy` (day numbers, civil
dates, weekdays, `format(d, 'yyyy-MM-dd')`), `types.dfy` (the records), `recurrence.dfy` and
`recurrence_properties.dfy`, `occurrence_key.dfy`, `occurrence_overrides.dfy`,
`resolved_occurrences.dfy`, `chore_store.dfy`, `member_store.dfy`, `audit_store.dfy`,
`colors.dfy`, `mappers.dfy`, `recurrence_editor.dfy`, `history_page.dfy`.

## Model

| member | source | states |
|---|---|---|
| Recurrence.WindowStart | src/lib/recurrence.ts:34 | the window starts at the later of the anchor (`startDate`) and the range start, and is one of the two |
| Recurrence.EffectiveEnd | src/lib/recurrence.ts:24-32 | the effective end is no later than the range end, the day of the soft deletion and the rule's end date, and equals one of them |
| Recurrence.ExpandDaily | src/lib/recurrence.ts:46-51 | the loop lists every day of the window, in order |
| Recurrence.ExpandWeekly | src/lib/recurrence.ts:53-61 | the loop lists exactly the window days whose weekday is in `daysOfWeek ?? []`, in order |
| Recurrence.ExpandMonthly | src/lib/recurrence.ts:63-75 | the cursor loop lists the target day of each month from the first cursor not before the window start up to the effective end, leaving out cursors before the range start |
| Recurrence.MonthlyWalkIsExpansion | src/lib/recurrence.ts:63-75 | what the monthly cursor walk lists equals the window days whose day of the month is the target day |
| Recurrence.ExpandRecurrence | src/lib/recurrence.ts:15-78 | `expandRecurrence` returns the specified expansion: nothing for an empty window; the anchor for a one-time chore inside the range; the window days on the rule's days otherwise |
| RecurrenceProperties.ExpansionMembership | src/lib/recurrence.ts:24-75 | a date is listed exactly when it lies between the window start and the effective end and the rule falls on it |
| RecurrenceProperties.ExpansionBounds | src/lib/recurrence.ts:24-35 | every listed date is on or after the anchor and the range start and on or before the range end, the deletion day and the end date |
| RecurrenceProperties.ExpansionIncreasing | src/lib/recurrence.ts:47-72 | the listed dates are strictly increasing, so none is listed twice |
| RecurrenceProperties.DailyExpansion | src/lib/recurrence.ts:46-51 | a daily chore lists `end - start + 1` dates, the i-th being `start + i` |
| RecurrenceProperties.WeeklyWithoutDaysIsEmpty | src/lib/recurrence.ts:54 | a weekly chore with no weekday (absent or empty) lists nothing |
| RecurrenceProperties.DeletedBeforeRangeIsEmpty | src/lib/recurrence.ts:25-35 | a chore deleted before the range starts lists nothing |
| RecurrenceProperties.MonthlyExpansionConsecutive | src/lib/recurrence.ts:63-75 | for a target day from 1 to 28, the i-th date is on that day of the month, i months after the first date |
| RecurrenceProperties.MonthlyAnchorComesFirst | src/lib/recurrence.ts:64 | without an explicit day of the month, the target is the anchor's day, so an anchor inside the window is the first date listed |
| Dates.IsoDateInjective | src/lib/recurrence.ts:41 | `format(d, 'yyyy-MM-dd')` is one-to-one on dates |
| Dates.IsoDateHasNoColon | src/lib/recurrence.ts:41 | a formatted date contains no colon, so it never holds the key separator |
| OccurrenceKeys.MakeOccurrenceKey | src/lib/occurrenceKey.ts:3-5 | the key holds the separator right after the template id |
| OccurrenceKeys.ParseOccurrenceKey | src/lib/occurrenceKey.ts:7-10 | the template id is separator-free; the date is absent exactly when the key has no `::`; otherwise the split is at the first `::`, the key starts with `templateId::date`, and the date runs up to the next `::` or the end of the key |
| OccurrenceKeys.ParseSplitsAtFirstSeparator | src/lib/occurrenceKey.ts:8 | `"a:::b"` parses as template `a` and date `:b`, as `split('::')` gives |
| OccurrenceKeys.ParseDateEndsAtNextSeparator | src/lib/occurrenceKey.ts:8 | `"a::b:::c"` parses as template `a` and date `b`: only the first two pieces of `split('::')` are kept |
| OccurrenceKeys.ParseMakeRoundTrip | src/lib/occurrenceKey.ts:3-10 | parsing a key built from a colon-free template id and a separator-free date gives back the id and the date |
| OccurrenceKeys.MakeOccurrenceKeyInjective | src/lib/occurrenceKey.ts:3-5 | for colon-free template ids, different (template, date) pairs give different keys |
| OccurrenceOverrides.Lookup | src/store/occurrenceSlice.ts:19 | `occurrenceOverrides[key]` is present exactly when the key is in the map, and is its value |
| OccurrenceOverrides.ToggleFlipsCompletion | src/store/occurrenceSlice.ts:18-34 | toggling flips completion (a missing record counts as not completed), records actor and time exactly when completing, clears them otherwise, and keeps the move, the skip and the note |
| OccurrenceOverrides.ToggleTwice | src/store/occurrenceSlice.ts:18-34 | toggling twice restores the completion flag, leaves no completer or time when it started uncompleted, and keeps everything else |
| OccurrenceOverrides.RescheduleKeepsTheRest | src/store/occurrenceSlice.ts:36-51 | rescheduling sets only the new date (absent reverts) and keeps completion, completer, time, skip and note |
| OccurrenceOverrides.RescheduleThenRevert | src/store/occurrenceSlice.ts:36-51 | moving and then reverting equals reverting at once |
| OccurrenceOverrides.SkipIsIdempotent | src/store/occurrenceSlice.ts:53-68 | skipping sets the skip flag, keeps every other field, and skipping again changes nothing |
| OccurrenceOverrides.ToggleSkipCommute | src/store/occurrenceSlice.ts:18-68 | toggling and skipping commute |
| OccurrenceOverrides.ToggleRescheduleCommute | src/store/occurrenceSlice.ts:18-51 | toggling and rescheduling commute |
| OccurrenceOverrides.DropShowsOnTarget | src/components/calendar/CalendarView.tsx:108 | after a drop the occurrence shows on the drop day, and counts as rescheduled exactly when that is not its original date |
| OccurrenceOverrides.OverrideStore.ToggleCompletion | src/store/occurrenceSlice.ts:18-34 | the map gets the toggled record under the key; every other key keeps its record |
| OccurrenceOverrides.OverrideStore.RescheduleOccurrence | src/store/occurrenceSlice.ts:36-51 | the map gets the rescheduled record under the key; every other key keeps its record |
| OccurrenceOverrides.OverrideStore.SkipOccurrence | src/store/occurrenceSlice.ts:53-68 | the map gets the skipped record under the key; every other key keeps its record |
| OccurrenceOverrides.OverrideStore.DropOccurrence | src/components/calendar/CalendarView.tsx:108 | a drop on the original date clears the move; the occurrence then shows on the drop day |
| ResolvedOccurrences.MemberMapHasEveryId | src/hooks/useResolvedOccurrences.ts:14 | the member map holds every member's id |
| ResolvedOccurrences.MemberMapLastWins | src/hooks/useResolvedOccurrences.ts:14 | each id maps to the last member carrying it |
| ResolvedOccurrences.LookupMemberFinds | src/hooks/useResolvedOccurrences.ts:34 | a lookup finds a member exactly when the id is a non-empty string some member carries, and then finds the last such member |
| ResolvedOccurrences.ResolveMeaning | src/hooks/useResolvedOccurrences.ts:24-43 | a record carries the key of its template and date; display date, completion, time and note come from the override under that key, or are "original date, not completed, no note" without one; assignee and completer are the members with the ids the template and the override name, present exactly when such a member exists (a missing or empty id, or an unknown one, gives none) |
| ResolvedOccurrences.KeyOfParses | src/hooks/useResolvedOccurrences.ts:24 | the key of a record parses back to its template id and formatted date |
| ResolvedOccurrences.UseResolvedOccurrences | src/hooks/useResolvedOccurrences.ts:13-47 | the nested loops produce exactly the specified join: for each template not deleted before the range, the resolution of each expanded date that is not skipped |
| ResolvedOccurrences.ResolvedOccurrencesSound | src/hooks/useResolvedOccurrences.ts:17-45 | every result resolves a listed, unskipped date of one of the templates |
| ResolvedOccurrences.ResolvedOccurrencesComplete | src/hooks/useResolvedOccurrences.ts:17-45 | every listed, unskipped date of every template has its resolution among the results |
| ResolvedOccurrences.ResolvedOccurrencesMembership | src/hooks/useResolvedOccurrences.ts:17-45 | a record is a result exactly when it resolves some template's listed, unskipped date |
| ResolvedOccurrences.ResolvedAreNotSkipped | src/hooks/useResolvedOccurrences.ts:27 | no result is marked skipped and no result's key holds a skipping override |
| ResolvedOccurrences.ResolveDatesOrder | src/hooks/useResolvedOccurrences.ts:23-44 | within a template the records follow its dates: their original dates are the dates with the skipped ones removed |
| ResolvedOccurrences.TemplateOccurrencesOrder | src/hooks/useResolvedOccurrences.ts:19-44 | a template's records list its expansion with the skipped dates removed, in strictly increasing order |
| ResolvedOccurrences.DeletedGuardIsRedundant | src/hooks/useResolvedOccurrences.ts:19 | the guard on templates deleted before the range changes nothing, since their expansion is already empty |
| ChoreStore.FindIndex | src/store/choreSlice.ts:48 | the index found holds the id and no earlier template does; none is found only when no template has the id |
| ChoreStore.NewTemplateFields | src/store/choreSlice.ts:24-34 | a new template has the trimmed name and description (trimming again changes nothing), the given rule, start and assignee, no deletion, and the two clock readings as `createdAt` and `updatedAt` |
| ChoreStore.UpdateChangesFirstMatch | src/store/choreSlice.ts:46-54 | an update changes only the first template with the id: supplied fields are taken, the rest kept, id and creation time kept, `updatedAt` stamped |
| ChoreStore.UpdateUnknownIsNoOp | src/store/choreSlice.ts:49 | updating an unknown id changes nothing |
| ChoreStore.DeleteStampsFirstMatch | src/store/choreSlice.ts:62-66 | deletion stamps `deletedAt` on the first template with the id, keeps it in the list and changes nothing else |
| ChoreStore.DeleteUnknownIsNoOp | src/store/choreSlice.ts:65 | deleting an unknown id changes nothing |
| ChoreStore.UpdatesKeepIdentities | src/store/choreSlice.ts:46-66 | neither update nor deletion adds, removes, reorders or renumbers templates, or changes a creation time |
| ChoreStore.DeleteIsUpdateOfDeletedAt | src/store/choreSlice.ts:46-66 | deletion is the update that sets only `deletedAt`, except that it leaves `updatedAt` alone |
| ChoreStore.ChoreList.AddChoreTemplate | src/store/choreSlice.ts:23-37 | the new template is appended and returned |
| ChoreStore.ChoreList.UpdateChoreTemplate | src/store/choreSlice.ts:46-54 | the list becomes the updated list |
| ChoreStore.ChoreList.DeleteChoreTemplate | src/store/choreSlice.ts:62-66 | the list becomes the list with the first match stamped |
| Colors.TruncatedRemainder | src/lib/colors.ts:15 | JavaScript's `%`: the remainder takes the sign of the dividend and `a == b * q + r` with the quotient rounded toward zero |
| Colors.ColorForIndexCases | src/lib/colors.ts:14-16 | a non-negative index picks palette entry `index mod 10`; a negative index gives a colour only when it is a multiple of 10 (else `undefined`); a colour is always from the palette |
| Colors.ColorForIndexPeriodic | src/lib/colors.ts:14-16 | colours repeat every ten indices |
| Colors.Initials | src/lib/colors.ts:18-25 | initials are at most two characters |
| Colors.InitialsOfWords | src/lib/colors.ts:18-25 | for words joined by single spaces, the initials are the upper-cased first characters of the non-empty words, at most two |
| Colors.InitialsOfTwoWords | src/lib/colors.ts:18-25 | two non-empty words give their two upper-cased first characters |
| Colors.InitialsOfEmptyName | src/lib/colors.ts:18-25 | the empty name has empty initials |
| MemberStore.NextColor | src/store/memberSlice.ts:22 | a new member gets palette entry `count mod 10`, `count` being the number of members before it |
| MemberStore.NextColorCycles | src/store/memberSlice.ts:22 | colours cycle through the palette every ten members |
| MemberStore.RemovedMembership | src/store/memberSlice.ts:33 | removal keeps exactly the members with another id |
| MemberStore.RemovedKeepsOrder | src/store/memberSlice.ts:33 | removal keeps the members' order (it distributes over concatenation) |
| MemberStore.RemoveIsIdempotent | src/store/memberSlice.ts:33 | removing twice equals removing once |
| MemberStore.RemoveUnknownIsNoOp | src/store/memberSlice.ts:33 | removing an id nobody has changes nothing |
| MemberStore.AddThenRemove | src/store/memberSlice.ts:18-35 | adding a member under a fresh id and removing that id restores the list |
| MemberStore.MemberList.AddMember | src/store/memberSlice.ts:18-29 | the member with the trimmed name and the next colour is appended and returned |
| MemberStore.MemberList.RemoveMember | src/store/memberSlice.ts:31-35 | the list becomes the filtered list, and no member has the id afterwards |
| AuditStore.PrependedShape | src/store/auditSlice.ts:40-43 | the new entry comes first, the length grows by one up to 1000, and the old log follows from its newest entry with only its oldest entries cut |
| AuditStore.PrependedStaysWithinCap | src/store/auditSlice.ts:4 | a log within the cap stays within it; below the cap nothing is cut |
| AuditStore.PrependedAllWithinCap | src/store/auditSlice.ts:26-45 | after any number of additions the log is within the cap and its first entry is the last one added |
| AuditStore.NewEntryFields | src/store/auditSlice.ts:27-38 | the entry copies action, chore id and name; an absent occurrence key, date, actor id or actor name becomes null and absent metadata the empty bag; present ones are copied |
| AuditStore.AuditLog.AddAuditEntry | src/store/auditSlice.ts:26-45 | the log becomes the entry prepended and cut to 1000, so afterwards it holds at most 1000 entries whatever it held before; the constructor starts it empty |
| Mappers.MapMember | server/mappers.ts:54-61 | mapping a member row loses nothing: storing the member gives back the row |
| Mappers.MapChore | server/mappers.ts:63-80 | mapping a chore row loses nothing: null day list, day of month and end date map to absent rule fields, and storing the template gives back the row |
| Mappers.MapOccurrence | server/mappers.ts:82-94 | the nine columns map one-to-one: storing the override gives back the row |
| Mappers.MapAuditEntry | server/mappers.ts:96-109 | storing the entry gives back the row with a null `metadata` replaced by the empty bag |
| Mappers.MemberRoundTrip | server/mappers.ts:54-61 | a stored member maps back to itself, and different rows map to different members |
| Mappers.ChoreRoundTrip | server/mappers.ts:63-80 | a stored template maps back to itself, and different rows map to different templates |
| Mappers.OccurrenceRoundTrip | server/mappers.ts:82-94 | `mapOccurrence` is a bijection between rows and overrides |
| Mappers.AuditRoundTrip | server/mappers.ts:96-109 | a stored entry maps back to itself; two rows map alike exactly when they differ at most in a null versus an empty `metadata` |
| RecurrenceEditor.ToggleDay | src/components/chores/RecurrenceEditor.tsx:13-17 | toggling a day leaves the frequency, the day of the month and the end date as they were, and sets a weekday list |
| RecurrenceEditor.ToggleRemovesDay | src/components/chores/RecurrenceEditor.tsx:15 | toggling a listed day removes every copy of it and keeps every other day; a sorted list stays sorted |
| RecurrenceEditor.ToggleAddsDay | src/components/chores/RecurrenceEditor.tsx:15 | toggling an unlisted day gives a sorted permutation of the old list plus the day; into a sorted list the day is inserted in its place |
| RecurrenceEditor.ToggleAddsWeekday | src/components/chores/RecurrenceEditor.tsx:15 | for weekday indices 0 to 6 the default sort is numeric: the new list is the old list plus the day in increasing order |
| RecurrenceEditor.DigitKeyOrder | src/components/chores/RecurrenceEditor.tsx:15 | on single digits, comparing numerals as strings is comparing numbers |
| RecurrenceEditor.SortFacts | src/components/chores/RecurrenceEditor.tsx:15 | the default sort returns a permutation of its input, sorted by numeral |
| RecurrenceEditor.SortOfSorted | src/components/chores/RecurrenceEditor.tsx:15 | sorting an already sorted list changes nothing |
| RecurrenceEditor.ToggleTwice | src/components/chores/RecurrenceEditor.tsx:14-16 | toggling the same day twice restores a strictly sorted weekday list |
| RecurrenceEditor.ToggleDayTwice | src/components/chores/RecurrenceEditor.tsx:13-17 | for a rule whose weekdays are increasing indices 0 to 6, toggling any day twice gives the rule back |
| RecurrenceEditor.FrequencyChangedSchedule | src/components/chores/RecurrenceEditor.tsx:26 | after the reset the rule has the new frequency; a weekly chore has no weekday and never occurs; a monthly chore falls on the 1st; dropping the end date never shortens the chore |
| HistoryPage.FilteredHistoryMembership | src/pages/HistoryPage.tsx:28-32 | an entry is listed exactly when it is in the log, its actor is the chosen member (or all are chosen) and its action the chosen one (or all are chosen) |
| HistoryPage.FilteredHistoryKeepsOrder | src/pages/HistoryPage.tsx:28 | the listed entries keep the log's order: filtering distributes over concatenation |
| HistoryPage.AllFiltersListEverything | src/pages/HistoryPage.tsx:29-31 | with both filters on "all" the whole log is listed |
| HistoryPage.FiltersCompose | src/pages/HistoryPage.tsx:28-32 | both filters at once equal the member filter followed by the action filter |

## Left out

- Network and persistence: the `fetch` calls after each store action, the server routes and
  SQL, `initStore` and the API client are not part of this model. The row mappers are
  modelled; the rows hold decoded dates and instants, so date parsing and formatting of
  database columns are not modelled.
- The clock and id generation: `new Date().toISOString()` and `nanoid()` are method
  parameters (`now`, `id`). Each reading of the clock is its own parameter: adding a chore
  template reads it twice (`createdAt`, `updatedAt`). The model puts no order between two
  readings.
- Time zones: dates are local calendar days and instants are reduced to a day plus
  milliseconds. The deletion cap and the guard in `useResolvedOccurrences` compare dates at
  day precision. An instant on the deletion day counts as that day, so the deletion day
  itself is still listed.
- Recurrence.ExpandMonthly: for a target day of 29 to 31, the model skips months without that
  day. The source builds the cursor with `new Date(year, month, day)`, which rolls over into the
  next month, and then advances with `addMonths`, which clamps to the month's last day. A
  target day outside 1..31 rolls over the same way. The model gives no date for it. For target
  days 1 to 28 the two agree.
- Recurrence.ExpandRecurrence: inherits the monthly difference above. A `daysOfWeek` list
  holding values outside 0..6 matches no weekday, as in the source.
- The React hooks, components and rendering are not modelled. That covers `useMemo`, the
  calendar, dialogs, menus and the one-line display filters. Only the extracted pieces are
  modelled: the history filter, the weekday toggle, the frequency reset and the drop
  handler's same-date normalisation.
- `rescheduledDate` is an optional day. The source's `??` and `!!` differ only for an empty
  string, and that value cannot arise from a day.
- ResolvedOccurrences.LookupMember: ids are looked up as map keys. A JavaScript object
  would also answer inherited names such as `constructor`. An empty-string id counts as
  absent, as its falsiness does in the source.
- ChoreStore.Patched: a patch field is either absent or a value. Passing a key with an
  explicit `undefined` value, which `Object.assign` copies, is not modelled.
- Audit metadata is a map from strings to strings. The source allows arbitrary JSON values.
- Mappers: a null `recurrence_days_of_week` or `recurrence_day_of_month` becomes an absent
  field, and a null end date becomes null. In this model both absent and null are
  `None`, so the distinction between `undefined` and `null` is not kept.
- Colors.Initials: characters are Unicode scalar values, where the source's `w[0]` and
  `slice(0, 2)` count UTF-16 code units. For a word that starts with a character outside the
  Basic Multilingual Plane, the source takes half of a surrogate pair and the model takes the
  whole character. Colors.InitialsOfWords and Colors.InitialsOfTwoWords inherit this. The
  string order in `strings.dfy` likewise compares characters rather than UTF-16 units. The
  two orders agree on the ASCII numerals the editor's sort compares.
- Strings.UpperCase: upper-cases ASCII letters only. The source's `toUpperCase` follows
  Unicode case mapping.
- RecurrenceEditor.Sort: the default `sort()` is modelled as a stable insertion sort that
  compares decimal numerals character by character. Its properties are proved for any
  integers. Numeric order is proved for single digits, which covers the editor's 0 to 6.
- ResolvedOccurrences.UseResolvedOccurrences: the join is specified for any expansion
  function. It is instantiated with `expandRecurrence` over the visible range.
- RecurrenceEditor.ToggleTwice: proved for weekday lists strictly sorted by numeral. That
  distinct integers have distinct numerals is proved only for single digits, so
  RecurrenceEditor.ToggleDayTwice asks for a present weekday list of increasing indices 0
  to 6. An absent list becomes `[day]` on the first toggle and `[]` on the second.
- HistoryPage.FilteredHistory: a member whose id is the text `all` cannot be singled out,
  because that value of the filter selects every actor, as in the source.
