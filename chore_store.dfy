/** The chore-template list: creation, partial update of the first match, soft deletion. */
module ChoreStore {
  import opened Options
  import opened Strings
  import opened Dates
  import opened Types

  /** What the chore form supplies to `addChoreTemplate`. */
  datatype NewChore = NewChore(
    name: string,
    description: string,
    assigneeId: Option<Id>,
    recurrence: RecurrenceRule,
    startDate: Day)

  /**
   * `Partial<Omit<ChoreTemplate, 'id' | 'createdAt'>>`: each field is either absent (left
   * as it is) or a new value. A supplied `updatedAt` is overwritten by the clock, so it is
   * not represented.
   */
  datatype ChorePatch = ChorePatch(
    name: Option<string>,
    description: Option<string>,
    assigneeId: Option<Option<Id>>,
    recurrence: Option<RecurrenceRule>,
    startDate: Option<Day>,
    deletedAt: Option<Option<Instant>>)

  /**
   * The template `addChoreTemplate` builds, with `id` the generated id. The clock is read
   * twice, once for `createdAt` and once for `updatedAt`, so the two readings may differ.
   */
  function NewTemplate(data: NewChore, id: Id, createdAt: Instant, updatedAt: Instant): ChoreTemplate
  {
    ChoreTemplate(id, Trim(data.name), Trim(data.description), data.assigneeId, data.recurrence, data.startDate,
                  None, createdAt, updatedAt)
  }

  /** `Object.assign(template, patch, { updatedAt: now })`. */
  function Patched(template: ChoreTemplate, patch: ChorePatch, now: Instant): ChoreTemplate
  {
    template.(
      name := patch.name.GetOr(template.name),
      description := patch.description.GetOr(template.description),
      assigneeId := patch.assigneeId.GetOr(template.assigneeId),
      recurrence := patch.recurrence.GetOr(template.recurrence),
      startDate := patch.startDate.GetOr(template.startDate),
      deletedAt := patch.deletedAt.GetOr(template.deletedAt),
      updatedAt := now)
  }

  /** `templates.findIndex((t) => t.id === id)`, absent for -1. */
  function FindIndex(templates: seq<ChoreTemplate>, id: Id): (index: Option<nat>)
    ensures index.Some? ==> index.value < |templates| && templates[index.value].id == id
    ensures index.Some? ==> forall j :: 0 <= j < index.value ==> templates[j].id != id
    ensures index.None? ==> forall j :: 0 <= j < |templates| ==> templates[j].id != id
  {
    if templates == [] then None
    else if templates[0].id == id then Some(0)
    else match FindIndex(templates[1..], id)
      case None => None
      case Some(i) => Some(i + 1)
  }

  /** The index found is the first one carrying the id. */
  lemma FindIndexIsFirst(templates: seq<ChoreTemplate>, id: Id, i: nat)
    requires i < |templates| && templates[i].id == id
    requires forall j :: 0 <= j < i ==> templates[j].id != id
    ensures FindIndex(templates, id) == Some(i)
  {
  }

  /** The list after `updateChoreTemplate(id, patch)`. */
  function UpdateTemplate(templates: seq<ChoreTemplate>, id: Id, patch: ChorePatch, now: Instant): seq<ChoreTemplate>
  {
    match FindIndex(templates, id)
    case None => templates
    case Some(i) => templates[i := Patched(templates[i], patch, now)]
  }

  /** The list after `deleteChoreTemplate(id)`: the first template with the id is stamped, not removed. */
  function DeleteTemplate(templates: seq<ChoreTemplate>, id: Id, now: Instant): seq<ChoreTemplate>
  {
    match FindIndex(templates, id)
    case None => templates
    case Some(i) => templates[i := templates[i].(deletedAt := Some(now))]
  }

  // ---------------------------------------------------------------------------
  // Properties
  // ---------------------------------------------------------------------------

  /** A new template has the trimmed texts, no deletion, and the two clock readings as its timestamps. */
  lemma NewTemplateFields(data: NewChore, id: Id, createdAt: Instant, updatedAt: Instant)
    ensures var t := NewTemplate(data, id, createdAt, updatedAt);
      && t.id == id && t.name == Trim(data.name) && t.description == Trim(data.description)
      && Trim(t.name) == t.name && Trim(t.description) == t.description
      && t.assigneeId == data.assigneeId && t.recurrence == data.recurrence && t.startDate == data.startDate
      && t.deletedAt.None? && t.createdAt == createdAt && t.updatedAt == updatedAt
  {
    TrimIdempotent(data.name);
    TrimIdempotent(data.description);
  }

  /**
   * Updating changes only the first template with the id: it takes every supplied field,
   * keeps every other one including its id and creation time, and is stamped `now`.
   */
  lemma UpdateChangesFirstMatch(templates: seq<ChoreTemplate>, id: Id, patch: ChorePatch, now: Instant, i: nat)
    requires i < |templates| && templates[i].id == id
    requires forall j :: 0 <= j < i ==> templates[j].id != id
    ensures var updated := UpdateTemplate(templates, id, patch, now);
      && |updated| == |templates|
      && (forall j :: 0 <= j < |templates| && j != i ==> updated[j] == templates[j])
      && var t, u := templates[i], updated[i];
      && u.id == t.id && u.createdAt == t.createdAt && u.updatedAt == now
      && (patch.name.Some? ==> u.name == patch.name.value) && (patch.name.None? ==> u.name == t.name)
      && (patch.description.Some? ==> u.description == patch.description.value)
      && (patch.description.None? ==> u.description == t.description)
      && (patch.assigneeId.Some? ==> u.assigneeId == patch.assigneeId.value)
      && (patch.assigneeId.None? ==> u.assigneeId == t.assigneeId)
      && (patch.recurrence.Some? ==> u.recurrence == patch.recurrence.value)
      && (patch.recurrence.None? ==> u.recurrence == t.recurrence)
      && (patch.startDate.Some? ==> u.startDate == patch.startDate.value)
      && (patch.startDate.None? ==> u.startDate == t.startDate)
      && (patch.deletedAt.Some? ==> u.deletedAt == patch.deletedAt.value)
      && (patch.deletedAt.None? ==> u.deletedAt == t.deletedAt)
  {
    FindIndexIsFirst(templates, id, i);
  }

  /** Updating an id no template has changes nothing. */
  lemma UpdateUnknownIsNoOp(templates: seq<ChoreTemplate>, id: Id, patch: ChorePatch, now: Instant)
    requires forall j :: 0 <= j < |templates| ==> templates[j].id != id
    ensures UpdateTemplate(templates, id, patch, now) == templates
  {
  }

  /** Deleting stamps the first template with the id with `now` and changes nothing else. */
  lemma DeleteStampsFirstMatch(templates: seq<ChoreTemplate>, id: Id, now: Instant, i: nat)
    requires i < |templates| && templates[i].id == id
    requires forall j :: 0 <= j < i ==> templates[j].id != id
    ensures var deleted := DeleteTemplate(templates, id, now);
      && |deleted| == |templates|
      && (forall j :: 0 <= j < |templates| && j != i ==> deleted[j] == templates[j])
      && deleted[i] == templates[i].(deletedAt := Some(now))
  {
    FindIndexIsFirst(templates, id, i);
  }

  /** Deleting an id no template has changes nothing. */
  lemma DeleteUnknownIsNoOp(templates: seq<ChoreTemplate>, id: Id, now: Instant)
    requires forall j :: 0 <= j < |templates| ==> templates[j].id != id
    ensures DeleteTemplate(templates, id, now) == templates
  {
  }

  /** Neither update nor deletion adds, removes, reorders or renumbers templates. */
  lemma UpdatesKeepIdentities(templates: seq<ChoreTemplate>, id: Id, patch: ChorePatch, now: Instant)
    ensures var updated, deleted := UpdateTemplate(templates, id, patch, now), DeleteTemplate(templates, id, now);
      && |updated| == |templates| && |deleted| == |templates|
      && (forall j :: 0 <= j < |templates| ==>
            && updated[j].id == templates[j].id && updated[j].createdAt == templates[j].createdAt
            && deleted[j].id == templates[j].id && deleted[j].createdAt == templates[j].createdAt)
  {
  }

  /** Soft deletion is an update whose patch sets only `deletedAt`, except that it leaves `updatedAt` alone. */
  lemma DeleteIsUpdateOfDeletedAt(templates: seq<ChoreTemplate>, id: Id, now: Instant, i: nat)
    requires i < |templates| && templates[i].id == id
    requires forall j :: 0 <= j < i ==> templates[j].id != id
    ensures var deletion := ChorePatch(None, None, None, None, None, Some(Some(now)));
      DeleteTemplate(templates, id, now) == UpdateTemplate(templates, id, deletion, now)[i := templates[i].(deletedAt := Some(now))]
  {
    DeleteStampsFirstMatch(templates, id, now, i);
    UpdateChangesFirstMatch(templates, id, ChorePatch(None, None, None, None, None, Some(Some(now))), now, i);
  }

  // ---------------------------------------------------------------------------
  // The store
  // ---------------------------------------------------------------------------

  /** The `choreTemplates` part of the application state. */
  class ChoreList {
    var templates: seq<ChoreTemplate>

    constructor()
      ensures templates == []
    {
      templates := [];
    }

    /** `addChoreTemplate(data)`, with the generated id and the two clock readings as parameters. */
    method AddChoreTemplate(data: NewChore, id: Id, createdAt: Instant, updatedAt: Instant) returns (template: ChoreTemplate)
      modifies this
      ensures template == NewTemplate(data, id, createdAt, updatedAt)
      ensures templates == old(templates) + [template]
    {
      template := ChoreTemplate(id, Trim(data.name), Trim(data.description), data.assigneeId, data.recurrence,
                                data.startDate, None, createdAt, updatedAt);
      templates := templates + [template];
    }

    /** `updateChoreTemplate(id, patch)`. */
    method UpdateChoreTemplate(id: Id, patch: ChorePatch, now: Instant)
      modifies this
      ensures templates == UpdateTemplate(old(templates), id, patch, now)
    {
      var index := FindIndex(templates, id);
      if index.Some? {
        var i := index.value;
        templates := templates[i := Patched(templates[i], patch, now)];
      }
    }

    /** `deleteChoreTemplate(id)`. */
    method DeleteChoreTemplate(id: Id, now: Instant)
      modifies this
      ensures templates == DeleteTemplate(old(templates), id, now)
    {
      var index := FindIndex(templates, id);
      if index.Some? {
        var i := index.value;
        templates := templates[i := templates[i].(deletedAt := Some(now))];
      }
    }
  }
}
