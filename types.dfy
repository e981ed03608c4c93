/** The application's records: team members, chore templates, overrides, audit entries. */
module Types {
  import opened Options
  import opened Dates

  /** Generated opaque identifiers (nanoid tokens). */
  type Id = string

  /** Occurrence keys, `templateId::YYYY-MM-DD`. */
  type OccurrenceKey = string

  datatype TeamMember = TeamMember(id: Id, name: string, color: string, createdAt: Instant)

  /** `'none' | 'daily' | 'weekly' | 'monthly'`; `Once` is the one-time chore. */
  datatype Frequency = Once | Daily | Weekly | Monthly

  /**
   * How a chore repeats. `daysOfWeek` (0 = Sunday .. 6 = Saturday) matters for weekly
   * chores only, `dayOfMonth` for monthly ones; `endDate` is an inclusive bound.
   */
  datatype RecurrenceRule = RecurrenceRule(
    frequency: Frequency,
    daysOfWeek: Option<seq<int>>,
    dayOfMonth: Option<int>,
    endDate: Option<Day>)

  /** A recurring chore; `startDate` is the anchor, `deletedAt` the soft-deletion instant. */
  datatype ChoreTemplate = ChoreTemplate(
    id: Id,
    name: string,
    description: string,
    assigneeId: Option<Id>,
    recurrence: RecurrenceRule,
    startDate: Day,
    deletedAt: Option<Instant>,
    createdAt: Instant,
    updatedAt: Instant)

  /** The persisted exception record of one occurrence. */
  datatype OccurrenceOverride = OccurrenceOverride(
    key: OccurrenceKey,
    templateId: Id,
    originalDate: Day,
    rescheduledDate: Option<Day>,
    completed: bool,
    completedBy: Option<Id>,
    completedAt: Option<Instant>,
    skipped: bool,
    completionNote: string)

  datatype AuditAction =
    | Completed | Uncompleted | Rescheduled | Skipped
    | ChoreCreated | ChoreUpdated | ChoreDeleted
    | MemberAdded | MemberRemoved

  /** The free-form metadata bag of an audit entry; its values are kept as text. */
  type Metadata = map<string, string>

  datatype AuditLogEntry = AuditLogEntry(
    id: Id,
    timestamp: Instant,
    action: AuditAction,
    choreTemplateId: Option<Id>,
    choreName: string,
    occurrenceKey: Option<OccurrenceKey>,
    occurrenceDate: Option<Day>,
    actorMemberId: Option<Id>,
    actorName: Option<string>,
    metadata: Metadata)

  /** One displayable occurrence: a candidate date joined with its template, members and override. */
  datatype ResolvedOccurrence = ResolvedOccurrence(
    key: OccurrenceKey,
    template: ChoreTemplate,
    assignee: Option<TeamMember>,
    displayDate: Day,
    originalDate: Day,
    completed: bool,
    completedBy: Option<TeamMember>,
    completedAt: Option<Instant>,
    skipped: bool,
    completionNote: string,
    isRescheduled: bool)

  /** JavaScript truthiness of an optional id: absent and the empty string are both false. */
  predicate IsPresentId(id: Option<Id>)
  {
    id.Some? && id.value != ""
  }
}
