/**
 * The per-occurrence exception records and the three actions that upsert them:
 * toggling completion, rescheduling and skipping.
 */
module OccurrenceOverrides {
  import opened Options
  import opened Dates
  import opened Types

  type Overrides = map<OccurrenceKey, OccurrenceOverride>

  /** `occurrenceOverrides[key]`, absent as `undefined`. */
  function Lookup(overrides: Overrides, key: OccurrenceKey): (o: Option<OccurrenceOverride>)
    ensures o.Some? <==> key in overrides
    ensures o.Some? ==> o.value == overrides[key]
  {
    if key in overrides then Some(overrides[key]) else None
  }

  // ---------------------------------------------------------------------------
  // Reading an optional override (`existing?.field ?? default`)
  // ---------------------------------------------------------------------------

  predicate IsCompleted(o: Option<OccurrenceOverride>)
  {
    o.Some? && o.value.completed
  }

  predicate IsSkipped(o: Option<OccurrenceOverride>)
  {
    o.Some? && o.value.skipped
  }

  function RescheduledTo(o: Option<OccurrenceOverride>): Option<Day>
  {
    if o.Some? then o.value.rescheduledDate else None
  }

  function CompletedBy(o: Option<OccurrenceOverride>): Option<Id>
  {
    if o.Some? then o.value.completedBy else None
  }

  function CompletedAt(o: Option<OccurrenceOverride>): Option<Instant>
  {
    if o.Some? then o.value.completedAt else None
  }

  function CompletionNote(o: Option<OccurrenceOverride>): string
  {
    if o.Some? then o.value.completionNote else ""
  }

  /** Where an occurrence is shown: its rescheduled date if it has one, else its original date. */
  function DisplayDate(o: Option<OccurrenceOverride>, originalDate: Day): Day
  {
    RescheduledTo(o).GetOr(originalDate)
  }

  predicate IsRescheduled(o: Option<OccurrenceOverride>)
  {
    RescheduledTo(o).Some?
  }

  // ---------------------------------------------------------------------------
  // The records the actions write
  // ---------------------------------------------------------------------------

  /** The record `toggleCompletion` writes over `existing`. */
  function ToggledRecord(existing: Option<OccurrenceOverride>, key: OccurrenceKey, templateId: Id, originalDate: Day,
                   actorId: Option<Id>, now: Instant): OccurrenceOverride
  {
    var nowCompleted := !IsCompleted(existing);
    OccurrenceOverride(key, templateId, originalDate, RescheduledTo(existing), nowCompleted,
      if nowCompleted then actorId else None, if nowCompleted then Some(now) else None,
      IsSkipped(existing), CompletionNote(existing))
  }

  /** The record `rescheduleOccurrence` writes over `existing`; `newDate` absent reverts the move. */
  function RescheduledRecord(existing: Option<OccurrenceOverride>, key: OccurrenceKey, templateId: Id, originalDate: Day,
                       newDate: Option<Day>): OccurrenceOverride
  {
    OccurrenceOverride(key, templateId, originalDate, newDate, IsCompleted(existing),
      CompletedBy(existing), CompletedAt(existing), IsSkipped(existing), CompletionNote(existing))
  }

  /** The record `skipOccurrence` writes over `existing`. */
  function SkippedRecord(existing: Option<OccurrenceOverride>, key: OccurrenceKey, templateId: Id, originalDate: Day): OccurrenceOverride
  {
    OccurrenceOverride(key, templateId, originalDate, RescheduledTo(existing), IsCompleted(existing),
      CompletedBy(existing), CompletedAt(existing), true, CompletionNote(existing))
  }

  /** The date the calendar passes when an occurrence is dropped on `newDate`: none when it is its own date. */
  function DropTarget(originalDate: Day, newDate: Day): Option<Day>
  {
    if newDate == originalDate then None else Some(newDate)
  }

  // ---------------------------------------------------------------------------
  // Properties of the actions
  // ---------------------------------------------------------------------------

  /**
   * Toggling flips completion (an absent record counts as not completed), records the
   * actor and the time exactly when it completes, and keeps the move, the skip and the note.
   */
  lemma ToggleFlipsCompletion(existing: Option<OccurrenceOverride>, key: OccurrenceKey, templateId: Id,
                              originalDate: Day, actorId: Option<Id>, now: Instant)
    ensures var o := Some(ToggledRecord(existing, key, templateId, originalDate, actorId, now));
      && (IsCompleted(o) <==> !IsCompleted(existing))
      && (IsCompleted(o) ==> CompletedBy(o) == actorId && CompletedAt(o) == Some(now))
      && (!IsCompleted(o) ==> CompletedBy(o).None? && CompletedAt(o).None?)
      && RescheduledTo(o) == RescheduledTo(existing)
      && IsSkipped(o) == IsSkipped(existing)
      && CompletionNote(o) == CompletionNote(existing)
  {
  }

  /**
   * Toggling twice restores the completion flag; starting from an uncompleted occurrence
   * it leaves no completer and no completion time. Everything else is kept.
   */
  lemma ToggleTwice(existing: Option<OccurrenceOverride>, key: OccurrenceKey, templateId: Id, originalDate: Day,
                    actor1: Option<Id>, now1: Instant, actor2: Option<Id>, now2: Instant)
    ensures var twice := Some(ToggledRecord(Some(ToggledRecord(existing, key, templateId, originalDate, actor1, now1)),
                                      key, templateId, originalDate, actor2, now2));
      && (IsCompleted(twice) <==> IsCompleted(existing))
      && (!IsCompleted(existing) ==> CompletedBy(twice).None? && CompletedAt(twice).None?)
      && RescheduledTo(twice) == RescheduledTo(existing)
      && IsSkipped(twice) == IsSkipped(existing)
      && CompletionNote(twice) == CompletionNote(existing)
  {
    ToggleFlipsCompletion(existing, key, templateId, originalDate, actor1, now1);
    var once := Some(ToggledRecord(existing, key, templateId, originalDate, actor1, now1));
    ToggleFlipsCompletion(once, key, templateId, originalDate, actor2, now2);
  }

  /** Rescheduling sets only the move: completion, completer, time, skip and note are kept. */
  lemma RescheduleKeepsTheRest(existing: Option<OccurrenceOverride>, key: OccurrenceKey, templateId: Id,
                               originalDate: Day, newDate: Option<Day>)
    ensures var o := Some(RescheduledRecord(existing, key, templateId, originalDate, newDate));
      && RescheduledTo(o) == newDate
      && (IsCompleted(o) <==> IsCompleted(existing))
      && CompletedBy(o) == CompletedBy(existing) && CompletedAt(o) == CompletedAt(existing)
      && IsSkipped(o) == IsSkipped(existing)
      && CompletionNote(o) == CompletionNote(existing)
  {
  }

  /** Moving an occurrence and then reverting the move is the same as reverting it straight away. */
  lemma RescheduleThenRevert(existing: Option<OccurrenceOverride>, key: OccurrenceKey, templateId: Id,
                             originalDate: Day, newDate: Day)
    ensures RescheduledRecord(Some(RescheduledRecord(existing, key, templateId, originalDate, Some(newDate))),
                        key, templateId, originalDate, None)
      == RescheduledRecord(existing, key, templateId, originalDate, None)
  {
  }

  /** Skipping sets the skip flag, keeps everything else, and skipping again changes nothing. */
  lemma SkipIsIdempotent(existing: Option<OccurrenceOverride>, key: OccurrenceKey, templateId: Id, originalDate: Day)
    ensures var o := SkippedRecord(existing, key, templateId, originalDate);
      && IsSkipped(Some(o))
      && RescheduledTo(Some(o)) == RescheduledTo(existing)
      && (IsCompleted(Some(o)) <==> IsCompleted(existing))
      && CompletedBy(Some(o)) == CompletedBy(existing) && CompletedAt(Some(o)) == CompletedAt(existing)
      && CompletionNote(Some(o)) == CompletionNote(existing)
      && SkippedRecord(Some(o), key, templateId, originalDate) == o
  {
  }

  /** The actions touch disjoint fields, so toggling and skipping commute. */
  lemma ToggleSkipCommute(existing: Option<OccurrenceOverride>, key: OccurrenceKey, templateId: Id,
                          originalDate: Day, actorId: Option<Id>, now: Instant)
    ensures SkippedRecord(Some(ToggledRecord(existing, key, templateId, originalDate, actorId, now)), key, templateId, originalDate)
      == ToggledRecord(Some(SkippedRecord(existing, key, templateId, originalDate)), key, templateId, originalDate, actorId, now)
  {
  }

  /** Toggling and rescheduling commute as well. */
  lemma ToggleRescheduleCommute(existing: Option<OccurrenceOverride>, key: OccurrenceKey, templateId: Id,
                                originalDate: Day, actorId: Option<Id>, now: Instant, newDate: Option<Day>)
    ensures RescheduledRecord(Some(ToggledRecord(existing, key, templateId, originalDate, actorId, now)), key, templateId, originalDate, newDate)
      == ToggledRecord(Some(RescheduledRecord(existing, key, templateId, originalDate, newDate)), key, templateId, originalDate, actorId, now)
  {
  }

  /**
   * Dropping an occurrence on a day shows it on that day, and it counts as rescheduled
   * exactly when that day is not its original date.
   */
  lemma DropShowsOnTarget(existing: Option<OccurrenceOverride>, key: OccurrenceKey, templateId: Id,
                          originalDate: Day, newDate: Day)
    ensures var o := Some(RescheduledRecord(existing, key, templateId, originalDate, DropTarget(originalDate, newDate)));
      && DisplayDate(o, originalDate) == newDate
      && (IsRescheduled(o) <==> newDate != originalDate)
  {
  }

  // ---------------------------------------------------------------------------
  // The store
  // ---------------------------------------------------------------------------

  /** The `occurrenceOverrides` part of the application state. */
  class OverrideStore {
    var overrides: Overrides

    constructor()
      ensures overrides == map[]
    {
      overrides := map[];
    }

    /** `toggleCompletion(key, templateId, originalDate, actorId)`, with the clock reading as `now`. */
    method ToggleCompletion(key: OccurrenceKey, templateId: Id, originalDate: Day, actorId: Option<Id>, now: Instant)
      modifies this
      ensures overrides == old(overrides)[key := ToggledRecord(Lookup(old(overrides), key), key, templateId, originalDate, actorId, now)]
      ensures overrides.Keys == old(overrides).Keys + {key}
      ensures forall k :: k in old(overrides) && k != key ==> overrides[k] == old(overrides)[k]
    {
      var existing := Lookup(overrides, key);
      var nowCompleted := !(existing.Some? && existing.value.completed);
      overrides := overrides[key := OccurrenceOverride(
        key, templateId, originalDate,
        if existing.Some? then existing.value.rescheduledDate else None,
        nowCompleted,
        if nowCompleted then actorId else None,
        if nowCompleted then Some(now) else None,
        existing.Some? && existing.value.skipped,
        if existing.Some? then existing.value.completionNote else "")];
    }

    /** `rescheduleOccurrence(key, templateId, originalDate, newDate)`. */
    method RescheduleOccurrence(key: OccurrenceKey, templateId: Id, originalDate: Day, newDate: Option<Day>)
      modifies this
      ensures overrides == old(overrides)[key := RescheduledRecord(Lookup(old(overrides), key), key, templateId, originalDate, newDate)]
      ensures overrides.Keys == old(overrides).Keys + {key}
      ensures forall k :: k in old(overrides) && k != key ==> overrides[k] == old(overrides)[k]
    {
      var existing := Lookup(overrides, key);
      overrides := overrides[key := OccurrenceOverride(
        key, templateId, originalDate, newDate,
        existing.Some? && existing.value.completed,
        if existing.Some? then existing.value.completedBy else None,
        if existing.Some? then existing.value.completedAt else None,
        existing.Some? && existing.value.skipped,
        if existing.Some? then existing.value.completionNote else "")];
    }

    /** `skipOccurrence(key, templateId, originalDate)`. */
    method SkipOccurrence(key: OccurrenceKey, templateId: Id, originalDate: Day)
      modifies this
      ensures overrides == old(overrides)[key := SkippedRecord(Lookup(old(overrides), key), key, templateId, originalDate)]
      ensures overrides.Keys == old(overrides).Keys + {key}
      ensures forall k :: k in old(overrides) && k != key ==> overrides[k] == old(overrides)[k]
    {
      var existing := Lookup(overrides, key);
      overrides := overrides[key := OccurrenceOverride(
        key, templateId, originalDate,
        if existing.Some? then existing.value.rescheduledDate else None,
        existing.Some? && existing.value.completed,
        if existing.Some? then existing.value.completedBy else None,
        if existing.Some? then existing.value.completedAt else None,
        true,
        if existing.Some? then existing.value.completionNote else "")];
    }

    /** The calendar's drop handler: a drop back on the original date clears the move. */
    method DropOccurrence(key: OccurrenceKey, templateId: Id, originalDate: Day, newDate: Day)
      modifies this
      ensures key in overrides
      ensures DisplayDate(Some(overrides[key]), originalDate) == newDate
      ensures IsRescheduled(Some(overrides[key])) <==> newDate != originalDate
      ensures overrides == old(overrides)[key := RescheduledRecord(Lookup(old(overrides), key), key, templateId, originalDate,
                                                             DropTarget(originalDate, newDate))]
    {
      RescheduleOccurrence(key, templateId, originalDate, if newDate == originalDate then None else Some(newDate));
      DropShowsOnTarget(Lookup(old(overrides), key), key, templateId, originalDate, newDate);
    }
  }
}
