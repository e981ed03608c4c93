/** The history page's view of the audit log, narrowed by actor and by action. */
module HistoryPage {
  import opened Options
  import opened Seqs
  import opened Types

  /** The member filter's value that selects every actor. */
  const AllMembers := "all"

  /**
   * Whether an entry passes both filters: the member filter is "all" or names the entry's
   * actor, and the action filter is "all" (absent) or the entry's action.
   */
  function KeepEntry(memberFilter: string, actionFilter: Option<AuditAction>): AuditLogEntry -> bool
  {
    (e: AuditLogEntry) =>
      && (memberFilter == AllMembers || e.actorMemberId == Some(memberFilter))
      && (actionFilter.None? || e.action == actionFilter.value)
  }

  /** The entries the page lists. */
  function FilteredHistory(log: seq<AuditLogEntry>, memberFilter: string, actionFilter: Option<AuditAction>): seq<AuditLogEntry>
  {
    Filter(log, KeepEntry(memberFilter, actionFilter))
  }

  /**
   * An entry is listed exactly when it is in the log, was made by the chosen member (or
   * every member is chosen) and records the chosen action (or every action is chosen).
   * An entry without an actor is listed only when every member is chosen.
   */
  lemma FilteredHistoryMembership(log: seq<AuditLogEntry>, memberFilter: string, actionFilter: Option<AuditAction>, e: AuditLogEntry)
    ensures e in FilteredHistory(log, memberFilter, actionFilter) <==>
      && e in log
      && (memberFilter == AllMembers || (e.actorMemberId.Some? && e.actorMemberId.value == memberFilter))
      && (actionFilter.None? || e.action == actionFilter.value)
  {
    FilterMembership(log, KeepEntry(memberFilter, actionFilter), e);
  }

  /** The listed entries keep the log's order (newest first): filtering distributes over concatenation. */
  lemma FilteredHistoryKeepsOrder(newer: seq<AuditLogEntry>, older: seq<AuditLogEntry>, memberFilter: string, actionFilter: Option<AuditAction>)
    ensures FilteredHistory(newer + older, memberFilter, actionFilter)
      == FilteredHistory(newer, memberFilter, actionFilter) + FilteredHistory(older, memberFilter, actionFilter)
  {
    FilterConcat(newer, older, KeepEntry(memberFilter, actionFilter));
  }

  /** With both filters on "all", the whole log is listed. */
  lemma AllFiltersListEverything(log: seq<AuditLogEntry>)
    ensures FilteredHistory(log, AllMembers, None) == log
  {
    FilterKeepsAll(log, KeepEntry(AllMembers, None));
  }

  /** Applying both filters at once is filtering by member and then by action. */
  lemma {:induction false} FiltersCompose(log: seq<AuditLogEntry>, memberFilter: string, actionFilter: Option<AuditAction>)
    ensures FilteredHistory(log, memberFilter, actionFilter)
      == FilteredHistory(FilteredHistory(log, memberFilter, None), AllMembers, actionFilter)
  {
    if log != [] {
      FiltersCompose(log[1..], memberFilter, actionFilter);
      var head := FilteredHistory([log[0]], memberFilter, None);
      assert log == [log[0]] + log[1..];
      FilterConcat([log[0]], log[1..], KeepEntry(memberFilter, None));
      FilterConcat(head, FilteredHistory(log[1..], memberFilter, None), KeepEntry(AllMembers, actionFilter));
    }
  }
}
