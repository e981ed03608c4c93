/** The audit log: newest entry first, capped at a fixed length. */
module AuditStore {
  import opened Options
  import opened Dates
  import opened Types

  const AuditLogMax: nat := 1000

  /**
   * What callers pass to `addAuditEntry`. The optional fields are absent (`undefined`) or
   * present, and when present they may still be `null`, hence the nested options.
   */
  datatype AuditInput = AuditInput(
    action: AuditAction,
    choreTemplateId: Option<Id>,
    choreName: string,
    occurrenceKey: Option<Option<OccurrenceKey>>,
    occurrenceDate: Option<Option<Day>>,
    actorMemberId: Option<Option<Id>>,
    actorName: Option<Option<string>>,
    metadata: Option<Metadata>)

  /** The entry `addAuditEntry` builds, with `id` the generated id and `now` the clock; `?? null` and `?? {}` fill gaps. */
  function NewEntry(input: AuditInput, id: Id, now: Instant): AuditLogEntry
  {
    AuditLogEntry(id, now, input.action, input.choreTemplateId, input.choreName,
      input.occurrenceKey.GetOr(None), input.occurrenceDate.GetOr(None),
      input.actorMemberId.GetOr(None), input.actorName.GetOr(None),
      input.metadata.GetOr(map[]))
  }

  /** The log after the entry is put in front and the log is cut back to `AuditLogMax`. */
  function Prepended(log: seq<AuditLogEntry>, entry: AuditLogEntry): seq<AuditLogEntry>
  {
    var grown := [entry] + log;
    if |grown| > AuditLogMax then grown[..AuditLogMax] else grown
  }

  // ---------------------------------------------------------------------------
  // Properties
  // ---------------------------------------------------------------------------

  /**
   * The new entry comes first; the length grows by one up to the cap; behind the new
   * entry the old log follows from its newest entry on, with only its oldest entries cut.
   */
  lemma PrependedShape(log: seq<AuditLogEntry>, entry: AuditLogEntry)
    ensures var result := Prepended(log, entry);
      && |result| == (if |log| + 1 <= AuditLogMax then |log| + 1 else AuditLogMax)
      && result[0] == entry
      && result[1..] == log[..|result| - 1]
  {
    var result := Prepended(log, entry);
    assert result[1..] == ([entry] + log)[1..|result|];
    assert ([entry] + log)[1..|result|] == log[..|result| - 1];
  }

  /** The cap is an invariant: a log within the cap stays within it. */
  lemma PrependedStaysWithinCap(log: seq<AuditLogEntry>, entry: AuditLogEntry)
    requires |log| <= AuditLogMax
    ensures |Prepended(log, entry)| <= AuditLogMax
    ensures |log| < AuditLogMax ==> Prepended(log, entry) == [entry] + log
  {
  }

  /** The log after adding the entries one after the other, in order. */
  function PrependedAll(log: seq<AuditLogEntry>, entries: seq<AuditLogEntry>): seq<AuditLogEntry>
    decreases |entries|
  {
    if entries == [] then log else PrependedAll(Prepended(log, entries[0]), entries[1..])
  }

  /** However many entries are added, the log stays within the cap, and the last one added comes first. */
  lemma {:induction false} PrependedAllWithinCap(log: seq<AuditLogEntry>, entries: seq<AuditLogEntry>)
    requires |log| <= AuditLogMax
    ensures |PrependedAll(log, entries)| <= AuditLogMax
    ensures entries != [] ==> 0 < |PrependedAll(log, entries)| && PrependedAll(log, entries)[0] == entries[|entries| - 1]
    decreases |entries|
  {
    if entries != [] {
      PrependedStaysWithinCap(log, entries[0]);
      PrependedShape(log, entries[0]);
      PrependedAllWithinCap(Prepended(log, entries[0]), entries[1..]);
    }
  }

  /**
   * The entry copies the action, chore id and chore name; absent optional fields become
   * null and absent metadata the empty bag; present ones are copied.
   */
  lemma NewEntryFields(input: AuditInput, id: Id, now: Instant)
    ensures var e := NewEntry(input, id, now);
      && e.id == id && e.timestamp == now
      && e.action == input.action && e.choreTemplateId == input.choreTemplateId && e.choreName == input.choreName
      && (input.occurrenceKey.None? ==> e.occurrenceKey.None?)
      && (input.occurrenceKey.Some? ==> e.occurrenceKey == input.occurrenceKey.value)
      && (input.occurrenceDate.None? ==> e.occurrenceDate.None?)
      && (input.occurrenceDate.Some? ==> e.occurrenceDate == input.occurrenceDate.value)
      && (input.actorMemberId.None? ==> e.actorMemberId.None?)
      && (input.actorMemberId.Some? ==> e.actorMemberId == input.actorMemberId.value)
      && (input.actorName.None? ==> e.actorName.None?)
      && (input.actorName.Some? ==> e.actorName == input.actorName.value)
      && (input.metadata.None? ==> e.metadata == map[])
      && (input.metadata.Some? ==> e.metadata == input.metadata.value)
  {
  }

  // ---------------------------------------------------------------------------
  // The store
  // ---------------------------------------------------------------------------

  /** The `auditLog` part of the application state. */
  class AuditLog {
    var entries: seq<AuditLogEntry>

    /** The log never holds more than `AuditLogMax` entries. */
    predicate Valid()
      reads this
    {
      |entries| <= AuditLogMax
    }

    constructor()
      ensures entries == [] && Valid()
    {
      entries := [];
    }

    /** `addAuditEntry(input)`, with the generated id and the clock as parameters. */
    method AddAuditEntry(input: AuditInput, id: Id, now: Instant)
      modifies this
      ensures entries == Prepended(old(entries), NewEntry(input, id, now))
      ensures Valid()
    {
      var newEntry := AuditLogEntry(id, now, input.action, input.choreTemplateId, input.choreName,
        input.occurrenceKey.GetOr(None), input.occurrenceDate.GetOr(None),
        input.actorMemberId.GetOr(None), input.actorName.GetOr(None),
        input.metadata.GetOr(map[]));
      entries := [newEntry] + entries;
      if |entries| > AuditLogMax {
        entries := entries[..AuditLogMax];
      }
    }
  }
}
