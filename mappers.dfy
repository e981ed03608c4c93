/**
 * Database rows and their mapping to the application's records. Date columns hold the
 * decoded day or instant; the text form of dates is not part of this model.
 */
module Mappers {
  import opened Options
  import opened Dates
  import opened Types

  datatype MemberRow = MemberRow(id: Id, name: string, color: string, createdAt: Instant)

  datatype ChoreRow = ChoreRow(
    id: Id,
    name: string,
    description: string,
    assigneeId: Option<Id>,
    recurrenceFrequency: Frequency,
    recurrenceDaysOfWeek: Option<seq<int>>,
    recurrenceDayOfMonth: Option<int>,
    recurrenceEndDate: Option<Day>,
    startDate: Day,
    deletedAt: Option<Instant>,
    createdAt: Instant,
    updatedAt: Instant)

  datatype OccurrenceRow = OccurrenceRow(
    key: OccurrenceKey,
    templateId: Id,
    originalDate: Day,
    rescheduledDate: Option<Day>,
    completed: bool,
    completedBy: Option<Id>,
    completedAt: Option<Instant>,
    skipped: bool,
    completionNote: string)

  /** An audit row; its `metadata` column is typed as a bag but may come back null. */
  datatype AuditRow = AuditRow(
    id: Id,
    timestamp: Instant,
    action: AuditAction,
    choreTemplateId: Option<Id>,
    choreName: string,
    occurrenceKey: Option<OccurrenceKey>,
    occurrenceDate: Option<Day>,
    actorMemberId: Option<Id>,
    actorName: Option<string>,
    metadata: Option<Metadata>)

  // ---------------------------------------------------------------------------
  // The rows records are stored as (the columns the insert statements write)
  // ---------------------------------------------------------------------------

  function MemberRowOf(m: TeamMember): MemberRow
  {
    MemberRow(m.id, m.name, m.color, m.createdAt)
  }

  /** The chore row: the rule is spread over four columns, absent parts stored as null. */
  function ChoreRowOf(t: ChoreTemplate): ChoreRow
  {
    ChoreRow(t.id, t.name, t.description, t.assigneeId,
      t.recurrence.frequency, t.recurrence.daysOfWeek, t.recurrence.dayOfMonth, t.recurrence.endDate,
      t.startDate, t.deletedAt, t.createdAt, t.updatedAt)
  }

  function OccurrenceRowOf(o: OccurrenceOverride): OccurrenceRow
  {
    OccurrenceRow(o.key, o.templateId, o.originalDate, o.rescheduledDate, o.completed,
      o.completedBy, o.completedAt, o.skipped, o.completionNote)
  }

  function AuditRowOf(e: AuditLogEntry): AuditRow
  {
    AuditRow(e.id, e.timestamp, e.action, e.choreTemplateId, e.choreName, e.occurrenceKey,
      e.occurrenceDate, e.actorMemberId, e.actorName, Some(e.metadata))
  }

  // ---------------------------------------------------------------------------
  // The mappers
  // ---------------------------------------------------------------------------

  /** `mapMember(row)`: every column is copied, so the row can be recovered. */
  function MapMember(row: MemberRow): (m: TeamMember)
    ensures MemberRowOf(m) == row
  {
    TeamMember(row.id, row.name, row.color, row.createdAt)
  }

  /**
   * `mapChore(row)`: the four rule columns are gathered into the rule; a null day list or
   * day of month becomes an absent field, a null end date stays null.
   */
  function MapChore(row: ChoreRow): (t: ChoreTemplate)
    ensures ChoreRowOf(t) == row
  {
    ChoreTemplate(row.id, row.name, row.description, row.assigneeId,
      RecurrenceRule(row.recurrenceFrequency, row.recurrenceDaysOfWeek, row.recurrenceDayOfMonth, row.recurrenceEndDate),
      row.startDate, row.deletedAt, row.createdAt, row.updatedAt)
  }

  /** `mapOccurrence(row)`: the nine columns map one-to-one onto the override. */
  function MapOccurrence(row: OccurrenceRow): (o: OccurrenceOverride)
    ensures OccurrenceRowOf(o) == row
  {
    OccurrenceOverride(row.key, row.templateId, row.originalDate, row.rescheduledDate, row.completed,
      row.completedBy, row.completedAt, row.skipped, row.completionNote)
  }

  /** `mapAuditEntry(row)`: every column is copied, a null `metadata` becoming the empty bag. */
  function MapAuditEntry(row: AuditRow): (e: AuditLogEntry)
    ensures AuditRowOf(e) == row.(metadata := Some(row.metadata.GetOr(map[])))
  {
    AuditLogEntry(row.id, row.timestamp, row.action, row.choreTemplateId, row.choreName, row.occurrenceKey,
      row.occurrenceDate, row.actorMemberId, row.actorName, row.metadata.GetOr(map[]))
  }

  // ---------------------------------------------------------------------------
  // Round trips
  // ---------------------------------------------------------------------------

  /** Members survive storage unchanged, and mapping is injective on rows. */
  lemma MemberRoundTrip(m: TeamMember, r1: MemberRow, r2: MemberRow)
    ensures MapMember(MemberRowOf(m)) == m
    ensures MapMember(r1) == MapMember(r2) ==> r1 == r2
  {
    assert MemberRowOf(MapMember(r1)) == r1;
  }

  /** Chore templates survive storage unchanged, and mapping is injective on rows. */
  lemma ChoreRoundTrip(t: ChoreTemplate, r1: ChoreRow, r2: ChoreRow)
    ensures MapChore(ChoreRowOf(t)) == t
    ensures MapChore(r1) == MapChore(r2) ==> r1 == r2
  {
    assert ChoreRowOf(MapChore(r1)) == r1;
  }

  /** `mapOccurrence` is a bijection between rows and overrides. */
  lemma OccurrenceRoundTrip(o: OccurrenceOverride, r1: OccurrenceRow, r2: OccurrenceRow)
    ensures MapOccurrence(OccurrenceRowOf(o)) == o
    ensures MapOccurrence(r1) == MapOccurrence(r2) ==> r1 == r2
  {
    assert OccurrenceRowOf(MapOccurrence(r1)) == r1;
  }

  /**
   * Audit entries survive storage unchanged; the only rows mapped alike are those that
   * differ in a null versus an empty `metadata`.
   */
  lemma AuditRoundTrip(e: AuditLogEntry, r1: AuditRow, r2: AuditRow)
    ensures MapAuditEntry(AuditRowOf(e)) == e
    ensures MapAuditEntry(r1) == MapAuditEntry(r2) <==>
      r1.(metadata := None) == r2.(metadata := None) && r1.metadata.GetOr(map[]) == r2.metadata.GetOr(map[])
  {
    assert AuditRowOf(MapAuditEntry(r1)) == r1.(metadata := Some(r1.metadata.GetOr(map[])));
    assert AuditRowOf(MapAuditEntry(r2)) == r2.(metadata := Some(r2.metadata.GetOr(map[])));
  }
}
