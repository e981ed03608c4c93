/**
 * Joining the calendar's inputs into displayable occurrences: every template is expanded
 * over the visible range, each candidate date is looked up in the overrides by its
 * occurrence key, skipped ones are dropped, and members are looked up by id.
 */
module ResolvedOccurrences {
  import opened Options
  import opened Seqs
  import opened Strings
  import opened Dates
  import opened Types
  import opened OccurrenceKeys
  import opened Recurrence
  import opened RecurrenceProperties
  import opened OccurrenceOverrides

  // ---------------------------------------------------------------------------
  // Member lookup
  // ---------------------------------------------------------------------------

  /** `Object.fromEntries(teamMembers.map((m) => [m.id, m]))`: a later member with the same id wins. */
  function MemberMap(members: seq<TeamMember>): map<Id, TeamMember>
  {
    if members == [] then map[]
    else
      var last := members[|members| - 1];
      MemberMap(members[..|members| - 1])[last.id := last]
  }

  /** `members[i]` is the last member with id `id`. */
  predicate IsLastWithId(members: seq<TeamMember>, i: int, id: Id)
  {
    0 <= i < |members| && members[i].id == id && forall j :: i < j < |members| ==> members[j].id != id
  }

  /** The map holds every member's id. */
  lemma {:induction false} MemberMapHasEveryId(members: seq<TeamMember>)
    ensures forall i :: 0 <= i < |members| ==> members[i].id in MemberMap(members)
  {
    if members != [] {
      var n := |members| - 1;
      MemberMapHasEveryId(members[..n]);
      forall i | 0 <= i < n
        ensures members[i].id in MemberMap(members)
      {
        assert members[i] == members[..n][i];
      }
    }
  }

  /** Each id in the map is mapped to the last member carrying it. */
  lemma {:induction false} MemberMapLastWins(members: seq<TeamMember>, id: Id)
    requires id in MemberMap(members)
    ensures exists i :: IsLastWithId(members, i, id) && MemberMap(members)[id] == members[i]
  {
    var n := |members| - 1;
    if id == members[n].id {
      assert IsLastWithId(members, n, id);
    } else {
      var init := members[..n];
      MemberMapLastWins(init, id);
      var i :| IsLastWithId(init, i, id) && MemberMap(init)[id] == init[i];
      assert members[i] == init[i];
      assert IsLastWithId(members, i, id);
    }
  }

  /** `id ? (memberMap[id] ?? null) : null`. */
  function LookupMember(memberMap: map<Id, TeamMember>, id: Option<Id>): Option<TeamMember>
  {
    if IsPresentId(id) && id.value in memberMap then Some(memberMap[id.value]) else None
  }

  /**
   * Looking an id up finds a member exactly when the id is a non-empty string carried by
   * some member, and then it is the last member carrying it.
   */
  lemma LookupMemberFinds(members: seq<TeamMember>, id: Option<Id>)
    ensures var found := LookupMember(MemberMap(members), id);
      && (found.Some? <==> IsPresentId(id) && exists i :: 0 <= i < |members| && members[i].id == id.value)
      && (found.Some? ==> exists i :: IsLastWithId(members, i, id.value) && found.value == members[i])
  {
    MemberMapHasEveryId(members);
    var m := MemberMap(members);
    if IsPresentId(id) && id.value in m {
      MemberMapLastWins(members, id.value);
      var i :| IsLastWithId(members, i, id.value) && m[id.value] == members[i];
      assert members[i].id == id.value;
    }
  }

  // ---------------------------------------------------------------------------
  // One candidate date
  // ---------------------------------------------------------------------------

  /** The occurrence key of a template's candidate date. */
  function KeyOf(template: ChoreTemplate, date: Day): OccurrenceKey
  {
    MakeOccurrenceKey(template.id, IsoDate(date))
  }

  /** `occurrenceOverrides[key]?.skipped`. */
  predicate IsSkippedAt(overrides: Overrides, template: ChoreTemplate, date: Day)
  {
    IsSkipped(Lookup(overrides, KeyOf(template, date)))
  }

  /** The record pushed for a candidate date that is not skipped. */
  function Resolve(template: ChoreTemplate, date: Day, memberMap: map<Id, TeamMember>, overrides: Overrides): ResolvedOccurrence
  {
    var key := KeyOf(template, date);
    var o := Lookup(overrides, key);
    ResolvedOccurrence(
      key, template, LookupMember(memberMap, template.assigneeId),
      DisplayDate(o, date), date,
      IsCompleted(o), LookupMember(memberMap, CompletedBy(o)), CompletedAt(o),
      false, CompletionNote(o), IsRescheduled(o))
  }

  /**
   * A resolved occurrence carries its template's key for that date; its display date,
   * completion and note come from the override under that key, with "not moved, not
   * completed, no note" when there is none; the assignee and the completer are the members
   * with the ids the template and the override name, present exactly when such a member exists.
   */
  lemma ResolveMeaning(template: ChoreTemplate, date: Day, members: seq<TeamMember>, overrides: Overrides)
    ensures var r := Resolve(template, date, MemberMap(members), overrides);
      var key := MakeOccurrenceKey(template.id, IsoDate(date));
      && r.key == key && r.template == template && r.originalDate == date && !r.skipped
      && (key in overrides ==>
            && r.displayDate == overrides[key].rescheduledDate.GetOr(date)
            && (r.isRescheduled <==> overrides[key].rescheduledDate.Some?)
            && r.completed == overrides[key].completed
            && r.completedAt == overrides[key].completedAt
            && r.completionNote == overrides[key].completionNote)
      && (key !in overrides ==>
            && r.displayDate == date && !r.isRescheduled
            && !r.completed && r.completedBy.None? && r.completedAt.None? && r.completionNote == "")
      && (r.assignee.Some? <==>
            IsPresentId(template.assigneeId) && exists i :: 0 <= i < |members| && members[i].id == template.assigneeId.value)
      && (r.assignee.Some? ==> r.assignee.value in members && Some(r.assignee.value.id) == template.assigneeId)
      && (r.completedBy.Some? <==>
            key in overrides && IsPresentId(overrides[key].completedBy)
            && exists i :: 0 <= i < |members| && members[i].id == overrides[key].completedBy.value)
      && (r.completedBy.Some? ==>
            key in overrides && r.completedBy.value in members && Some(r.completedBy.value.id) == overrides[key].completedBy)
  {
    var key := KeyOf(template, date);
    LookupMemberFinds(members, template.assigneeId);
    LookupMemberFinds(members, CompletedBy(Lookup(overrides, key)));
  }

  /** A text without a colon holds no separator. */
  lemma NoColonNoSeparator(s: string)
    requires ':' !in s
    ensures !Contains(s, Separator)
  {
    forall i | 0 <= i <= |s| - 2
      ensures !OccursAt(s, Separator, i)
    {
      assert s[i..i + 2][0] == s[i];
    }
  }

  /** The key of a resolved occurrence parses back into its template id and its date. */
  lemma KeyOfParses(template: ChoreTemplate, date: Day)
    requires ':' !in template.id
    ensures ParseOccurrenceKey(KeyOf(template, date)) == ParsedKey(template.id, Some(IsoDate(date)))
  {
    IsoDateHasNoColon(date);
    NoColonNoSeparator(IsoDate(date));
    ParseMakeRoundTrip(template.id, IsoDate(date));
  }

  // ---------------------------------------------------------------------------
  // The whole join, as specification
  // ---------------------------------------------------------------------------

  /** The records of the inner loop over a template's candidate dates, in their order. */
  function ResolveDates(template: ChoreTemplate, dates: seq<Day>, memberMap: map<Id, TeamMember>, overrides: Overrides)
    : seq<ResolvedOccurrence>
  {
    if dates == [] then []
    else
      var date := dates[|dates| - 1];
      ResolveDates(template, dates[..|dates| - 1], memberMap, overrides)
        + (if IsSkippedAt(overrides, template, date) then [] else [Resolve(template, date, memberMap, overrides)])
  }

  /** `template.deletedAt && parseISO(template.deletedAt) < rangeStart`, at day precision. */
  predicate DeletedBefore(template: ChoreTemplate, rangeStart: Day)
  {
    template.deletedAt.Some? && template.deletedAt.value.date < rangeStart
  }

  /**
   * The records of one template, given how templates expand into candidate dates. The
   * join is stated for any expansion so that its structural facts do not depend on the
   * calendar arithmetic of `expandRecurrence`.
   */
  function TemplateOccurrences(template: ChoreTemplate, expand: ChoreTemplate -> seq<Day>, rangeStart: Day,
                               memberMap: map<Id, TeamMember>, overrides: Overrides): seq<ResolvedOccurrence>
  {
    if DeletedBefore(template, rangeStart) then []
    else ResolveDates(template, expand(template), memberMap, overrides)
  }

  /** The records of all templates, template after template. */
  function ResolveTemplates(templates: seq<ChoreTemplate>, expand: ChoreTemplate -> seq<Day>, rangeStart: Day,
                            memberMap: map<Id, TeamMember>, overrides: Overrides): seq<ResolvedOccurrence>
  {
    if templates == [] then []
    else
      ResolveTemplates(templates[..|templates| - 1], expand, rangeStart, memberMap, overrides)
        + TemplateOccurrences(templates[|templates| - 1], expand, rangeStart, memberMap, overrides)
  }

  /** `expandRecurrence(template, rangeStart, rangeEnd)` as a function of the template. */
  function ExpansionOver(rangeStart: Day, rangeEnd: Day): ChoreTemplate -> seq<Day>
  {
    (t: ChoreTemplate) => Expansion(t, rangeStart, rangeEnd)
  }

  function ResolvedOccurrences(templates: seq<ChoreTemplate>, members: seq<TeamMember>, overrides: Overrides,
                               rangeStart: Day, rangeEnd: Day): seq<ResolvedOccurrence>
  {
    ResolveTemplates(templates, ExpansionOver(rangeStart, rangeEnd), rangeStart, MemberMap(members), overrides)
  }

  // ---------------------------------------------------------------------------
  // The loop
  // ---------------------------------------------------------------------------

  /** One more template adds its records at the end. */
  lemma ResolveTemplatesStep(templates: seq<ChoreTemplate>, i: int, expand: ChoreTemplate -> seq<Day>, rangeStart: Day,
                             memberMap: map<Id, TeamMember>, overrides: Overrides)
    requires 0 <= i < |templates|
    ensures ResolveTemplates(templates[..i + 1], expand, rangeStart, memberMap, overrides)
         == ResolveTemplates(templates[..i], expand, rangeStart, memberMap, overrides)
            + TemplateOccurrences(templates[i], expand, rangeStart, memberMap, overrides)
  {
    assert templates[..i + 1][..i] == templates[..i];
  }

  /** One more date adds its record at the end, unless it is skipped. */
  lemma ResolveDatesStep(template: ChoreTemplate, dates: seq<Day>, j: int, memberMap: map<Id, TeamMember>, overrides: Overrides)
    requires 0 <= j < |dates|
    ensures ResolveDates(template, dates[..j + 1], memberMap, overrides)
         == ResolveDates(template, dates[..j], memberMap, overrides)
            + (if IsSkippedAt(overrides, template, dates[j]) then [] else [Resolve(template, dates[j], memberMap, overrides)])
  {
    assert dates[..j + 1][..j] == dates[..j];
  }

  /** The record of an unskipped date, field by field as the loop writes it. */
  lemma ResolveRecord(template: ChoreTemplate, date: Day, memberMap: map<Id, TeamMember>, overrides: Overrides)
    ensures var key := MakeOccurrenceKey(template.id, IsoDate(date));
      var override := Lookup(overrides, key);
      && (IsSkippedAt(overrides, template, date) <==> override.Some? && override.value.skipped)
      && Resolve(template, date, memberMap, overrides) == ResolvedOccurrence(
           key, template,
           if IsPresentId(template.assigneeId) && template.assigneeId.value in memberMap
             then Some(memberMap[template.assigneeId.value]) else None,
           if override.Some? && override.value.rescheduledDate.Some? then override.value.rescheduledDate.value else date,
           date,
           override.Some? && override.value.completed,
           if override.Some? && IsPresentId(override.value.completedBy) && override.value.completedBy.value in memberMap
             then Some(memberMap[override.value.completedBy.value]) else None,
           if override.Some? then override.value.completedAt else None,
           false,
           if override.Some? then override.value.completionNote else "",
           override.Some? && override.value.rescheduledDate.Some?)
  {
  }

  /** The body of `useResolvedOccurrences(rangeStart, rangeEnd)` over the store's three collections. */
  method UseResolvedOccurrences(templates: seq<ChoreTemplate>, members: seq<TeamMember>, overrides: Overrides,
                                rangeStart: Day, rangeEnd: Day) returns (results: seq<ResolvedOccurrence>)
    ensures results == ResolvedOccurrences(templates, members, overrides, rangeStart, rangeEnd)
  {
    var memberMap := MemberMap(members);
    results := [];
    ghost var expand := ExpansionOver(rangeStart, rangeEnd);
    for i := 0 to |templates|
      invariant results == ResolveTemplates(templates[..i], expand, rangeStart, memberMap, overrides)
    {
      var template := templates[i];
      ghost var before := results;
      ResolveTemplatesStep(templates, i, expand, rangeStart, memberMap, overrides);
      if !(template.deletedAt.Some? && template.deletedAt.value.date < rangeStart) {
        var dates := ExpandRecurrence(template, rangeStart, rangeEnd);
        assert dates == expand(template);
        for j := 0 to |dates|
          invariant results == before + ResolveDates(template, dates[..j], memberMap, overrides)
        {
          var originalDate := dates[j];
          ResolveDatesStep(template, dates, j, memberMap, overrides);
          ResolveRecord(template, originalDate, memberMap, overrides);
          var key := MakeOccurrenceKey(template.id, IsoDate(originalDate));
          var override := Lookup(overrides, key);
          ghost var produced := ResolveDates(template, dates[..j], memberMap, overrides);
          if !(override.Some? && override.value.skipped) {
            AppendAssociative(before, produced, [Resolve(template, originalDate, memberMap, overrides)]);
            var displayDate := if override.Some? && override.value.rescheduledDate.Some?
              then override.value.rescheduledDate.value else originalDate;
            results := results + [ResolvedOccurrence(
              key, template,
              if IsPresentId(template.assigneeId) && template.assigneeId.value in memberMap
                then Some(memberMap[template.assigneeId.value]) else None,
              displayDate, originalDate,
              override.Some? && override.value.completed,
              if override.Some? && IsPresentId(override.value.completedBy) && override.value.completedBy.value in memberMap
                then Some(memberMap[override.value.completedBy.value]) else None,
              if override.Some? then override.value.completedAt else None,
              false,
              if override.Some? then override.value.completionNote else "",
              override.Some? && override.value.rescheduledDate.Some?)];
          } else {
            assert produced + [] == produced;
          }
        }
        assert dates[..|dates|] == dates;
      }
    }
    assert templates[..|templates|] == templates;
  }

  // ---------------------------------------------------------------------------
  // Properties of the join
  // ---------------------------------------------------------------------------

  /** Every record produced for a list of dates is the resolution of one of them that is not skipped. */
  lemma {:induction false} ResolveDatesSound(template: ChoreTemplate, dates: seq<Day>, memberMap: map<Id, TeamMember>,
                                             overrides: Overrides, r: ResolvedOccurrence) returns (d: Day)
    requires r in ResolveDates(template, dates, memberMap, overrides)
    ensures d in dates && !IsSkippedAt(overrides, template, d) && r == Resolve(template, d, memberMap, overrides)
  {
    if dates == [] {
      assert false;
    } else {
      var n := |dates| - 1;
      if r in ResolveDates(template, dates[..n], memberMap, overrides) {
        d := ResolveDatesSound(template, dates[..n], memberMap, overrides, r);
        assert d in dates[..n];
      } else {
        d := dates[n];
      }
    }
  }

  /** Every listed date that is not skipped has its resolution among the records. */
  lemma {:induction false} ResolveDatesComplete(template: ChoreTemplate, dates: seq<Day>, memberMap: map<Id, TeamMember>,
                                                overrides: Overrides, d: Day)
    requires d in dates && !IsSkippedAt(overrides, template, d)
    ensures Resolve(template, d, memberMap, overrides) in ResolveDates(template, dates, memberMap, overrides)
  {
    var n := |dates| - 1;
    if d != dates[n] {
      assert dates == dates[..n] + [dates[n]];
      ResolveDatesComplete(template, dates[..n], memberMap, overrides, d);
    }
  }

  /** Every record produced for a list of templates resolves one of their candidate, unskipped dates. */
  lemma {:induction false} ResolveTemplatesSound(templates: seq<ChoreTemplate>, expand: ChoreTemplate -> seq<Day>,
                                                 rangeStart: Day, memberMap: map<Id, TeamMember>, overrides: Overrides,
                                                 r: ResolvedOccurrence)
    returns (t: ChoreTemplate, d: Day)
    requires r in ResolveTemplates(templates, expand, rangeStart, memberMap, overrides)
    ensures t in templates && d in expand(t) && !IsSkippedAt(overrides, t, d)
    ensures r == Resolve(t, d, memberMap, overrides)
  {
    if templates == [] {
      assert false;
    } else {
      var n := |templates| - 1;
      if r in ResolveTemplates(templates[..n], expand, rangeStart, memberMap, overrides) {
        t, d := ResolveTemplatesSound(templates[..n], expand, rangeStart, memberMap, overrides, r);
        assert t in templates[..n];
      } else {
        t := templates[n];
        d := ResolveDatesSound(t, expand(t), memberMap, overrides, r);
      }
    }
  }

  /** Every candidate, unskipped date of every template not deleted before the range has its resolution among the records. */
  lemma {:induction false} ResolveTemplatesComplete(templates: seq<ChoreTemplate>, expand: ChoreTemplate -> seq<Day>,
                                                    rangeStart: Day, memberMap: map<Id, TeamMember>, overrides: Overrides,
                                                    t: ChoreTemplate, d: Day)
    requires t in templates && !DeletedBefore(t, rangeStart) && d in expand(t) && !IsSkippedAt(overrides, t, d)
    ensures Resolve(t, d, memberMap, overrides) in ResolveTemplates(templates, expand, rangeStart, memberMap, overrides)
  {
    var n := |templates| - 1;
    if t == templates[n] {
      ResolveDatesComplete(t, expand(t), memberMap, overrides, d);
    } else {
      assert templates == templates[..n] + [templates[n]];
      ResolveTemplatesComplete(templates[..n], expand, rangeStart, memberMap, overrides, t, d);
    }
  }

  /** Every result resolves a listed, unskipped date of one of the templates. */
  lemma ResolvedOccurrencesSound(templates: seq<ChoreTemplate>, members: seq<TeamMember>, overrides: Overrides,
                                 rangeStart: Day, rangeEnd: Day, r: ResolvedOccurrence) returns (t: ChoreTemplate, d: Day)
    requires r in ResolvedOccurrences(templates, members, overrides, rangeStart, rangeEnd)
    ensures t in templates && d in Expansion(t, rangeStart, rangeEnd) && !IsSkippedAt(overrides, t, d)
    ensures r == Resolve(t, d, MemberMap(members), overrides)
  {
    t, d := ResolveTemplatesSound(templates, ExpansionOver(rangeStart, rangeEnd), rangeStart, MemberMap(members), overrides, r);
    assert d in Expansion(t, rangeStart, rangeEnd);
  }

  /** Every listed, unskipped date of every template is resolved among the results. */
  lemma ResolvedOccurrencesComplete(templates: seq<ChoreTemplate>, members: seq<TeamMember>, overrides: Overrides,
                                    rangeStart: Day, rangeEnd: Day, t: ChoreTemplate, d: Day)
    requires t in templates && d in Expansion(t, rangeStart, rangeEnd) && !IsSkippedAt(overrides, t, d)
    ensures Resolve(t, d, MemberMap(members), overrides) in ResolvedOccurrences(templates, members, overrides, rangeStart, rangeEnd)
  {
    if DeletedBefore(t, rangeStart) {
      DeletedBeforeRangeIsEmpty(t, rangeStart, rangeEnd);
      assert false;
    }
    var expand := ExpansionOver(rangeStart, rangeEnd);
    assert d in expand(t);
    ResolveTemplatesComplete(templates, expand, rangeStart, MemberMap(members), overrides, t, d);
  }

  /**
   * Soundness and completeness of the join: the results are exactly the resolutions of the
   * listed dates of the templates whose override is not skipped.
   */
  lemma ResolvedOccurrencesMembership(templates: seq<ChoreTemplate>, members: seq<TeamMember>, overrides: Overrides,
                                      rangeStart: Day, rangeEnd: Day, r: ResolvedOccurrence)
    ensures r in ResolvedOccurrences(templates, members, overrides, rangeStart, rangeEnd) <==>
      exists t, d :: t in templates && d in Expansion(t, rangeStart, rangeEnd) && !IsSkippedAt(overrides, t, d)
                     && r == Resolve(t, d, MemberMap(members), overrides)
  {
    if r in ResolvedOccurrences(templates, members, overrides, rangeStart, rangeEnd) {
      var t, d := ResolvedOccurrencesSound(templates, members, overrides, rangeStart, rangeEnd, r);
    }
    if exists t, d :: t in templates && d in Expansion(t, rangeStart, rangeEnd) && !IsSkippedAt(overrides, t, d)
                      && r == Resolve(t, d, MemberMap(members), overrides) {
      var t, d :| t in templates && d in Expansion(t, rangeStart, rangeEnd) && !IsSkippedAt(overrides, t, d)
                  && r == Resolve(t, d, MemberMap(members), overrides);
      ResolvedOccurrencesComplete(templates, members, overrides, rangeStart, rangeEnd, t, d);
    }
  }

  /** No result is skipped, and no result's key holds a skipping override. */
  lemma ResolvedAreNotSkipped(templates: seq<ChoreTemplate>, members: seq<TeamMember>, overrides: Overrides,
                              rangeStart: Day, rangeEnd: Day)
    ensures forall r :: r in ResolvedOccurrences(templates, members, overrides, rangeStart, rangeEnd) ==>
      !r.skipped && r.key == KeyOf(r.template, r.originalDate) && !(r.key in overrides && overrides[r.key].skipped)
      && r.originalDate in Expansion(r.template, rangeStart, rangeEnd) && r.template in templates
  {
    forall r | r in ResolvedOccurrences(templates, members, overrides, rangeStart, rangeEnd)
      ensures !r.skipped && r.key == KeyOf(r.template, r.originalDate) && !(r.key in overrides && overrides[r.key].skipped)
      ensures r.originalDate in Expansion(r.template, rangeStart, rangeEnd) && r.template in templates
    {
      var t, d := ResolvedOccurrencesSound(templates, members, overrides, rangeStart, rangeEnd, r);
    }
  }

  /** The original dates of a list of records. */
  function OriginalDates(rs: seq<ResolvedOccurrence>): seq<Day>
  {
    seq(|rs|, k requires 0 <= k < |rs| => rs[k].originalDate)
  }

  /** Whether a template's candidate date survives the skip check. */
  function NotSkipped(overrides: Overrides, template: ChoreTemplate): Day -> bool
  {
    (d: Day) => !IsSkippedAt(overrides, template, d)
  }

  /**
   * Within one template the records come in the order of its candidate dates: their
   * original dates are the candidate dates with the skipped ones removed.
   */
  lemma {:induction false} ResolveDatesOrder(template: ChoreTemplate, dates: seq<Day>, memberMap: map<Id, TeamMember>,
                                             overrides: Overrides)
    ensures OriginalDates(ResolveDates(template, dates, memberMap, overrides)) == Filter(dates, NotSkipped(overrides, template))
  {
    if dates != [] {
      var n := |dates| - 1;
      var init := ResolveDates(template, dates[..n], memberMap, overrides);
      var step := if IsSkippedAt(overrides, template, dates[n]) then [] else [Resolve(template, dates[n], memberMap, overrides)];
      ResolveDatesOrder(template, dates[..n], memberMap, overrides);
      FilterPrefixStep(dates, n, NotSkipped(overrides, template));
      assert dates[..n + 1] == dates;
      OriginalDatesAppend(init, step);
      StepOriginalDates(template, dates[n], memberMap, overrides);
    }
  }

  /** The record of one date, if any, carries that date. */
  lemma StepOriginalDates(template: ChoreTemplate, date: Day, memberMap: map<Id, TeamMember>, overrides: Overrides)
    ensures OriginalDates(if IsSkippedAt(overrides, template, date) then [] else [Resolve(template, date, memberMap, overrides)])
         == if NotSkipped(overrides, template)(date) then [date] else []
  {
  }

  lemma OriginalDatesAppend(a: seq<ResolvedOccurrence>, b: seq<ResolvedOccurrence>)
    ensures OriginalDates(a + b) == OriginalDates(a) + OriginalDates(b)
  {
  }

  /** A template's records list its expansion's dates in increasing order, skipping only the skipped. */
  lemma TemplateOccurrencesOrder(template: ChoreTemplate, rangeStart: Day, rangeEnd: Day,
                                 memberMap: map<Id, TeamMember>, overrides: Overrides)
    ensures var dates := OriginalDates(TemplateOccurrences(template, ExpansionOver(rangeStart, rangeEnd), rangeStart, memberMap, overrides));
      && dates == Filter(Expansion(template, rangeStart, rangeEnd), NotSkipped(overrides, template))
      && forall i, j :: 0 <= i < j < |dates| ==> dates[i] < dates[j]
  {
    var expansion := Expansion(template, rangeStart, rangeEnd);
    assert ExpansionOver(rangeStart, rangeEnd)(template) == expansion;
    if DeletedBefore(template, rangeStart) {
      DeletedBeforeRangeIsEmpty(template, rangeStart, rangeEnd);
      assert Filter(expansion, NotSkipped(overrides, template)) == [];
    } else {
      ResolveDatesOrder(template, expansion, memberMap, overrides);
    }
    ExpansionIncreasing(template, rangeStart, rangeEnd);
    FilterKeepsPairwise(expansion, NotSkipped(overrides, template), (a: Day, b: Day) => a < b);
  }

  /**
   * The guard that skips templates deleted before the range changes nothing: such a
   * template's expansion is already empty.
   */
  lemma DeletedGuardIsRedundant(template: ChoreTemplate, rangeStart: Day, rangeEnd: Day,
                                memberMap: map<Id, TeamMember>, overrides: Overrides)
    ensures TemplateOccurrences(template, ExpansionOver(rangeStart, rangeEnd), rangeStart, memberMap, overrides)
         == ResolveDates(template, Expansion(template, rangeStart, rangeEnd), memberMap, overrides)
  {
    assert ExpansionOver(rangeStart, rangeEnd)(template) == Expansion(template, rangeStart, rangeEnd);
    if DeletedBefore(template, rangeStart) {
      DeletedBeforeRangeIsEmpty(template, rangeStart, rangeEnd);
    }
  }
}
