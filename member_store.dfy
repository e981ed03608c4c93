/** The team-member list: adding a member with the next palette colour, removing by id. */
module MemberStore {
  import opened Options
  import opened Seqs
  import opened Strings
  import opened Dates
  import opened Types
  import opened Colors

  /** The colour `getColorForIndex(count)` gives the member added after `count` others. */
  function NextColor(count: nat): (color: string)
    ensures color == Palette[count % |Palette|]
  {
    ColorForIndexCases(count);
    ColorForIndex(count).value
  }

  /** The member `addMember(name)` builds, with `id` the generated id and `now` the clock. */
  function NewMember(members: seq<TeamMember>, name: string, id: Id, now: Instant): TeamMember
  {
    TeamMember(id, Trim(name), NextColor(|members|), now)
  }

  /** `m.id !== id`. */
  function HasOtherId(id: Id): TeamMember -> bool
  {
    (m: TeamMember) => m.id != id
  }

  /** `members.filter((m) => m.id !== id)`. */
  function Removed(members: seq<TeamMember>, id: Id): seq<TeamMember>
  {
    Filter(members, HasOtherId(id))
  }

  // ---------------------------------------------------------------------------
  // Properties
  // ---------------------------------------------------------------------------

  /**
   * Removal keeps exactly the members with another id: none with the id survives and
   * every other member stays.
   */
  lemma RemovedMembership(members: seq<TeamMember>, id: Id, m: TeamMember)
    ensures m in Removed(members, id) <==> m in members && m.id != id
  {
    FilterMembership(members, HasOtherId(id), m);
  }

  /** Removal keeps the relative order of the members: it distributes over concatenation. */
  lemma RemovedKeepsOrder(front: seq<TeamMember>, back: seq<TeamMember>, id: Id)
    ensures Removed(front + back, id) == Removed(front, id) + Removed(back, id)
  {
    FilterConcat(front, back, HasOtherId(id));
  }

  /** Removing twice is removing once. */
  lemma RemoveIsIdempotent(members: seq<TeamMember>, id: Id)
    ensures Removed(Removed(members, id), id) == Removed(members, id)
  {
    FilterIdempotent(members, HasOtherId(id));
  }

  /** Removing an id nobody has changes nothing. */
  lemma RemoveUnknownIsNoOp(members: seq<TeamMember>, id: Id)
    requires forall i :: 0 <= i < |members| ==> members[i].id != id
    ensures Removed(members, id) == members
  {
    FilterKeepsAll(members, HasOtherId(id));
  }

  /** Adding a member under a fresh id and removing that id restores the list. */
  lemma AddThenRemove(members: seq<TeamMember>, name: string, id: Id, now: Instant)
    requires forall i :: 0 <= i < |members| ==> members[i].id != id
    ensures Removed(members + [NewMember(members, name, id, now)], id) == members
  {
    var m := NewMember(members, name, id, now);
    RemovedKeepsOrder(members, [m], id);
    RemoveUnknownIsNoOp(members, id);
    assert Removed([m], id) == [];
  }

  /** Colours cycle through the palette: a member gets the colour of the member ten places before. */
  lemma NextColorCycles(count: nat)
    ensures NextColor(count + |Palette|) == NextColor(count)
    ensures NextColor(count) in Palette
  {
    ColorForIndexPeriodic(count);
    ColorForIndexCases(count);
    ColorForIndexCases(count + |Palette|);
  }

  // ---------------------------------------------------------------------------
  // The store
  // ---------------------------------------------------------------------------

  /** The `teamMembers` part of the application state. */
  class MemberList {
    var members: seq<TeamMember>

    constructor()
      ensures members == []
    {
      members := [];
    }

    /** `addMember(name)`, with the generated id and the clock as parameters. */
    method AddMember(name: string, id: Id, now: Instant) returns (member: TeamMember)
      modifies this
      ensures member == NewMember(old(members), name, id, now)
      ensures member.name == Trim(name) && member.color == Palette[|old(members)| % |Palette|]
      ensures members == old(members) + [member]
    {
      ColorForIndexCases(|members|);
      var color := ColorForIndex(|members|);
      member := TeamMember(id, Trim(name), color.value, now);
      members := members + [member];
    }

    /** `removeMember(id)`. */
    method RemoveMember(id: Id)
      modifies this
      ensures members == Removed(old(members), id)
      ensures forall i :: 0 <= i < |members| ==> members[i].id != id
    {
      members := Filter(members, (m: TeamMember) => m.id != id);
      assert members == Removed(old(members), id);
    }
  }
}
