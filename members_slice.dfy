/**
 * The members slice: one normalized collection of members, keyed by
 * `member.id`. A member's personal toggle flips one of their days; the
 * room-level length change and toggle are fanned out to every member; the
 * fulfilled cases of the remote actions add a member, take over the days the
 * server sent, or replace the whole collection.
 */
module MembersSlice {
  import opened Wrappers
  import opened Calendar
  import opened DayGenerator
  import EC = EntityCollection

  type MemberId = string

  datatype Member = Member(id: MemberId, displayName: Option<string>, days: seq<Day>, isManual: bool)

  /** `{ days }`: the only changes the members slice ever merges into a member. */
  datatype MemberChanges = MemberChanges(days: seq<Day>)

  /** The room document a remote action resolves with. */
  datatype Room = Room(id: string, days: seq<Day>, members: seq<Member>)

  function SelectId(m: Member): MemberId
  {
    m.id
  }

  function MergeChanges(m: Member, changes: MemberChanges): Member
  {
    m.(days := changes.days)
  }

  /** `createEntityAdapter({ selectId: (member) => member.id })` */
  const MemberAdapter: EC.Adapter<MemberId, Member, MemberChanges> := EC.Adapter(SelectId, MergeChanges)

  /** Merging `{ days }` never changes a member's id, and a later merge supersedes an earlier one. */
  lemma MemberAdapterMerges()
    ensures EC.IdPreserving(MemberAdapter) && EC.Overwriting(MemberAdapter)
  {
  }

  /** `state.ids.map((id) => ({ id, changes: { days: f(state.entities[id]) } }))` */
  function EachMember(c: EC.EntityState<MemberId, Member>, f: Member -> seq<Day>): seq<EC.Update<MemberId, MemberChanges>>
    requires forall i :: 0 <= i < |c.ids| ==> c.ids[i] in c.entities
  {
    seq(|c.ids|, i requires 0 <= i < |c.ids| => EC.Update(c.ids[i], MemberChanges(f(c.entities[c.ids[i]]))))
  }

  /** `room.members.map((member) => ({ id: member.id, changes: { days: member.days } }))` */
  function PayloadChanges(members: seq<Member>): seq<EC.Update<MemberId, MemberChanges>>
  {
    seq(|members|, i requires 0 <= i < |members| => EC.Update(members[i].id, MemberChanges(members[i].days)))
  }

  /** Updating every member through `f` replaces each member's days by `f` of that member, and nothing else. */
  lemma UpdateEachMember(c: EC.EntityState<MemberId, Member>, f: Member -> seq<Day>)
    requires EC.Valid(MemberAdapter, c)
    ensures EC.UpdateMany(MemberAdapter, c, EachMember(c, f)).ids == c.ids
    ensures EC.UpdateMany(MemberAdapter, c, EachMember(c, f)).entities.Keys == c.entities.Keys
    ensures forall k :: k in c.entities ==>
      EC.UpdateMany(MemberAdapter, c, EachMember(c, f)).entities[k] == c.entities[k].(days := f(c.entities[k]))
  {
    MemberAdapterMerges();
    var us := EachMember(c, f);
    forall k | k in c.entities
      ensures EC.UpdateMany(MemberAdapter, c, us).entities[k] == c.entities[k].(days := f(c.entities[k]))
    {
      var i :| 0 <= i < |c.ids| && c.ids[i] == k;
      assert us[i].id == k;
      EC.LastChangeUniform(us, k, MemberChanges(f(c.entities[k])));
      EC.UpdateManyLastWins(MemberAdapter, c, us, k);
    }
  }

  /** With distinct ids in the payload, each named member takes exactly the days the payload gives it. */
  lemma PayloadChangesDistinct(members: seq<Member>, i: nat)
    requires i < |members|
    requires forall p, q :: 0 <= p < q < |members| ==> members[p].id != members[q].id
    ensures EC.LastChange(PayloadChanges(members), members[i].id) == Some(MemberChanges(members[i].days))
  {
    var us := PayloadChanges(members);
    assert us[i].id == members[i].id;
    EC.LastChangeUniform(us, members[i].id, MemberChanges(members[i].days));
  }

  /** No two members share an id. */
  ghost predicate DistinctIds(ms: seq<Member>)
  {
    forall p, q :: 0 <= p < q < |ms| ==> ms[p].id != ms[q].id
  }

  /** With distinct ids, `setAll` of a member list holds exactly those members, in order. */
  lemma SetAllMembers(ms: seq<Member>)
    requires DistinctIds(ms)
    ensures EC.SetAll(MemberAdapter, ms).ids == EC.IdsOf(MemberAdapter, ms)
    ensures forall i :: 0 <= i < |ms| ==>
      ms[i].id in EC.SetAll(MemberAdapter, ms).entities && EC.SetAll(MemberAdapter, ms).entities[ms[i].id] == ms[i]
  {
    assert EC.Distinct(EC.IdsOf(MemberAdapter, ms));
    EC.SetAllDistinct(MemberAdapter, ms);
    var c := EC.SetAll(MemberAdapter, ms);
    forall i | 0 <= i < |ms| ensures ms[i].id in c.entities && c.entities[ms[i].id] == ms[i] {
      assert MemberAdapter.selectId(ms[i]) == ms[i].id;
      assert c.ids[i] == ms[i].id;
    }
  }

  class MembersState {
    var members: EC.EntityState<MemberId, Member>

    ghost predicate Valid()
      reads this
    {
      EC.Valid(MemberAdapter, members)
    }

    /** `memberAdapter.getInitialState()`: no members. */
    constructor ()
      ensures Valid() && members.ids == [] && members.entities == map[]
    {
      members := EC.Initial();
    }

    /**
     * `toggleMemberNonWorkingDay({ id, dayIndex })`: flips one day of one
     * member. An unknown member has no days to read, so the reducer fails
     * (`ok` is false) and nothing changes.
     */
    method ToggleMemberNonWorkingDay(id: MemberId, dayIndex: int) returns (ok: bool)
      requires Valid()
      modifies this
      ensures Valid()
      ensures ok <==> id in old(members.entities)
      ensures members.ids == old(members.ids) && members.entities.Keys == old(members.entities.Keys)
      ensures forall k :: k in old(members.entities) && k != id ==> members.entities[k] == old(members.entities[k])
      ensures ok ==> members.entities[id] == old(members.entities[id]).(days := FlipAt(old(members.entities[id].days), dayIndex))
    {
      ok := id in members.entities;
      if ok {
        MemberAdapterMerges();
        members := EC.UpdateOne(MemberAdapter, members,
          EC.Update(id, MemberChanges(FlipAt(members.entities[id].days, dayIndex))));
      }
    }

    /** `clearMember`: removes every member. */
    method ClearMember()
      requires Valid()
      modifies this
      ensures Valid() && members.ids == [] && members.entities == map[]
    {
      members := EC.RemoveAll(MemberAdapter, members);
    }

    /** The room's `setDaysLength`: every member's days are regenerated to the new length. */
    method SetDaysLength(newLength: int, startDate: Date)
      requires Valid()
      modifies this
      ensures Valid()
      ensures members.ids == old(members.ids) && members.entities.Keys == old(members.entities.Keys)
      ensures forall k :: k in old(members.entities) ==>
        members.entities[k] == old(members.entities[k]).(days := GenerateDays(startDate, old(members.entities[k].days), newLength))
    {
      MemberAdapterMerges();
      var f := (m: Member) => GenerateDays(startDate, m.days, newLength);
      UpdateEachMember(members, f);
      members := EC.UpdateMany(MemberAdapter, members, EachMember(members, f));
    }

    /**
     * `setStartDate.fulfilled`: every local member named in the returned room
     * takes the days the room gives it (the last entry wins if a member is
     * named twice); members it does not name, and ids it names that are not
     * local, are ignored.
     */
    method SetStartDateFulfilled(room: Room)
      requires Valid()
      modifies this
      ensures Valid()
      ensures members.ids == old(members.ids) && members.entities.Keys == old(members.entities.Keys)
      ensures forall k :: k in old(members.entities) ==>
        members.entities[k] ==
          match EC.LastChange(PayloadChanges(room.members), k)
          case None => old(members.entities[k])
          case Some(changes) => old(members.entities[k]).(days := changes.days)
    {
      MemberAdapterMerges();
      var us := PayloadChanges(room.members);
      forall k | k in members.entities
        ensures EC.UpdateMany(MemberAdapter, members, us).entities[k] ==
          match EC.LastChange(us, k)
          case None => members.entities[k]
          case Some(changes) => members.entities[k].(days := changes.days)
      {
        EC.UpdateManyLastWins(MemberAdapter, members, us, k);
      }
      members := EC.UpdateMany(MemberAdapter, members, us);
    }

    /** The room's `toggleGlobalNonWorkingDay(dayIndex)`: the same day is flipped for every member. */
    method ToggleGlobalNonWorkingDay(dayIndex: int)
      requires Valid()
      modifies this
      ensures Valid()
      ensures members.ids == old(members.ids) && members.entities.Keys == old(members.entities.Keys)
      ensures forall k :: k in old(members.entities) ==>
        members.entities[k] == old(members.entities[k]).(days := FlipAt(old(members.entities[k].days), dayIndex))
    {
      MemberAdapterMerges();
      var f := (m: Member) => FlipAt(m.days, dayIndex);
      UpdateEachMember(members, f);
      members := EC.UpdateMany(MemberAdapter, members, EachMember(members, f));
    }

    /** `addMember.fulfilled`: adds the member unless one with that id is already present. */
    method AddMemberFulfilled(member: Member)
      requires Valid()
      modifies this
      ensures Valid()
      ensures members == EC.AddOne(MemberAdapter, old(members), member)
      ensures member.id in members.entities
      ensures member.id !in old(members.entities) ==>
        members.ids == old(members.ids) + [member.id] && members.entities[member.id] == member
    {
      members := EC.AddOne(MemberAdapter, members, member);
    }

    /** `syncDown.fulfilled`: the collection becomes exactly the room's member list. */
    method SyncDownFulfilled(room: Room)
      requires Valid()
      modifies this
      ensures Valid()
      ensures members == EC.SetAll(MemberAdapter, room.members)
      ensures DistinctIds(room.members) ==>
        members.ids == EC.IdsOf(MemberAdapter, room.members) &&
        forall i :: 0 <= i < |room.members| ==>
          room.members[i].id in members.entities && members.entities[room.members[i].id] == room.members[i]
    {
      if DistinctIds(room.members) {
        SetAllMembers(room.members);
      }
      members := EC.SetAll(MemberAdapter, room.members);
    }
  }
}
