/**
 * The running-group list: its join handler, which has no capacity check and
 * writes the count of the list it rendered plus one, and the join button that
 * is the only thing standing between a full group and a new member.
 */
module RunningGroups {
  import opened Wrappers
  import opened Enrolment

  /** The columns of a listed group that the handler and its button read. */
  datatype GroupRow = GroupRow(id: EntityId, memberCount: int, maxMembers: int)

  /** `groups.find(g => g.id === id)`: the first listed group with that id. */
  function FindGroup(groups: seq<GroupRow>, id: EntityId): (g: Option<GroupRow>)
    ensures g.Some? ==> g.value in groups && g.value.id == id
    ensures g.None? <==> forall i :: 0 <= i < |groups| ==> groups[i].id != id
  {
    if groups == [] then None
    else if groups[0].id == id then Some(groups[0])
    else FindGroup(groups[1..], id)
  }

  /** The group found is the one at the first position listing that id. */
  lemma {:induction false} FindGroupIsFirst(groups: seq<GroupRow>, id: EntityId)
    requires FindGroup(groups, id).Some?
    ensures exists i :: 0 <= i < |groups| && groups[i] == FindGroup(groups, id).value
                        && forall j :: 0 <= j < i ==> groups[j].id != id
  {
    if groups[0].id != id {
      var tail := groups[1..];
      FindGroupIsFirst(tail, id);
      var i :| 0 <= i < |tail| && tail[i] == FindGroup(tail, id).value
               && forall j :: 0 <= j < i ==> tail[j].id != id;
      assert groups[i + 1] == tail[i];
      forall j | 0 <= j < i + 1 ensures groups[j].id != id {
        if j > 0 {
          assert groups[j] == tail[j - 1];
        }
      }
    }
  }

  /** The button of one listed group while `joining` is in flight. */
  function GroupButton(joining: Option<EntityId>, g: GroupRow): (b: Button)
    ensures b.text == "Joining..." <==> joining == Some(g.id)
    ensures b.text == "Group Full" <==> joining != Some(g.id) && g.memberCount >= g.maxMembers
    ensures !b.disabled <==> b.text == "Join Group"
    ensures b.disabled <==> joining == Some(g.id) || g.memberCount >= g.maxMembers
  {
    JoinButton(joining == Some(g.id), g.memberCount >= g.maxMembers, "Group Full", "Join Group")
  }

  /** The notification each outcome shows; every thrown error ends in the same "Error" toast. */
  function GroupToast(o: JoinOutcome): Toast
  {
    match o
    case Unauthenticated => Toast(true, "Authentication Required", "Please sign in to join running groups.")
    case AlreadyJoined => Toast(false, "Already a Member", "You are already a member of this group")
    case Joined => Toast(false, "Success", "You have successfully joined the group!")
    case _ => Toast(true, "Error", "Failed to join group. Please try again.")
  }

  class GroupList {
    /** The tables `running_groups_…` and `group_members_…`. */
    const store: Store
    /** The list rendered on screen; the handler reads the count from here. */
    var groups: seq<GroupRow>
    var joiningGroup: Option<EntityId>
    var toasts: seq<Toast>

    constructor (s: Store, rows: seq<GroupRow>)
      ensures store == s && groups == rows && joiningGroup == None && toasts == []
    {
      store := s;
      groups := rows;
      joiningGroup := None;
      toasts := [];
    }

    /**
     * handleJoinGroup: sign-in check, duplicate check, insert, write of the
     * listed member count plus one. The handler is reached only from the button
     * of a listed group, so that group is in `groups`.
     */
    method HandleJoinGroup(groupId: EntityId, user: Option<UserId>, replies: StoreReplies) returns (o: JoinOutcome)
      requires FindGroup(groups, groupId).Some?
      modifies this, store
      ensures (o, store.State()) ==
              Join(old(store.State()), groupId, user, Cached(old(FindGroup(groups, groupId).value.memberCount)), replies)
      ensures o != NotFound && o != Full
      ensures joiningGroup == if user.None? then old(joiningGroup) else None
      ensures toasts == old(toasts) + [GroupToast(o)]
      ensures groups == old(groups)
    {
      if user.None? {
        o := Unauthenticated;
        toasts := toasts + [GroupToast(o)];
        return;
      }
      joiningGroup := Some(groupId);
      o := JoinSteps(groupId, user.value, FindGroup(groups, groupId).value.memberCount, replies);
      toasts := toasts + [GroupToast(o)];
      joiningGroup := None;
    }

    /**
     * The `try` block of handleJoinGroup: the lookup, the insert and the write
     * of `cached + 1`, where `cached` is the member count of the listed group.
     */
    method JoinSteps(groupId: EntityId, u: UserId, cached: int, replies: StoreReplies) returns (o: JoinOutcome)
      modifies store
      ensures (o, store.State()) == Join(old(store.State()), groupId, Some(u), Cached(cached), replies)
    {
      var m := Membership(groupId, u);
      var existing := store.FindMembership(m, replies.lookupFails);
      if existing {
        o := AlreadyJoined;
      } else {
        var inserted := store.Insert(m, replies.insertFails);
        if !inserted {
          o := InsertFailed;
        } else {
          var updated := store.UpdateOccupancy(groupId, cached + 1, replies.updateFails);
          o := if updated then Joined else UpdateFailed;
        }
      }
    }
  }

  /**
   * When the listed row is current and its button is enabled, a join keeps
   * member_count <= max_members; the button is the only guard.
   */
  lemma EnabledButtonKeepsCapacity(t: Tables, g: GroupRow, user: Option<UserId>, r: StoreReplies)
    requires g.id in t.entities && t.entities[g.id] == Entity(g.memberCount, g.maxMembers)
    requires 0 <= g.memberCount
    requires !GroupButton(None, g).disabled
    ensures var t' := Join(t, g.id, user, Cached(g.memberCount), r).1;
      0 <= t'.entities[g.id].occupancy <= t'.entities[g.id].capacity
  {
  }

  /**
   * A listed row that went stale enables the button of a group that is full in
   * the store, and the handler then admits the user: the group ends with more
   * member rows than max_members while its count reads max_members.
   */
  lemma StaleListOverfills(t: Tables, g: GroupRow, u: UserId)
    requires g.id in t.entities && t.entities[g.id].capacity == g.maxMembers
    requires g.memberCount == g.maxMembers - 1 && t.entities[g.id].occupancy == g.maxMembers
    requires Occurrences(t.rows, Membership(g.id, u)) == 0 && Consistent(t, g.id)
    ensures !GroupButton(None, g).disabled
    ensures var (o, t') := Join(t, g.id, Some(u), Cached(g.memberCount), NoFailures);
      && o == Joined
      && EntityRows(t'.rows, g.id) == g.maxMembers + 1
      && t'.entities[g.id] == Entity(g.maxMembers, g.maxMembers)
  {
  }
}
