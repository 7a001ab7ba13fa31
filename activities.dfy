/**
 * The activity list: its join handler, which re-reads the activity row before
 * the capacity check, and the join button of each listed activity.
 */
module Activities {
  import opened Wrappers
  import opened Enrolment

  /** The columns of a listed activity that its button reads. */
  datatype ActivityRow = ActivityRow(id: EntityId, currentParticipants: int, maxParticipants: int)

  /** The button of one listed activity while `joining` is in flight. */
  function ActivityButton(joining: Option<EntityId>, a: ActivityRow): (b: Button)
    ensures b.text == "Joining..." <==> joining == Some(a.id)
    ensures b.text == "Activity Full" <==> joining != Some(a.id) && a.currentParticipants >= a.maxParticipants
    ensures !b.disabled <==> b.text == "Join Activity"
    ensures b.disabled <==> joining == Some(a.id) || a.currentParticipants >= a.maxParticipants
  {
    JoinButton(joining == Some(a.id), a.currentParticipants >= a.maxParticipants, "Activity Full", "Join Activity")
  }

  /** The notification each outcome shows; every thrown error ends in the same "Error" toast. */
  function ActivityToast(o: JoinOutcome): Toast
  {
    match o
    case Unauthenticated => Toast(true, "Authentication Required", "Please sign in to join activities.")
    case AlreadyJoined => Toast(false, "Already Joined", "You are already participating in this activity")
    case Full => Toast(true, "Activity Full", "Sorry, this activity is already full")
    case Joined => Toast(false, "Success", "You have successfully joined the activity!")
    case _ => Toast(true, "Error", "Failed to join activity. Please try again.")
  }

  class ActivityList {
    /** The tables `activities_…` and `activity_participants_…`. */
    const store: Store
    var activities: seq<ActivityRow>
    var joiningActivity: Option<EntityId>
    var toasts: seq<Toast>

    constructor (s: Store, rows: seq<ActivityRow>)
      ensures store == s && activities == rows && joiningActivity == None && toasts == []
    {
      store := s;
      activities := rows;
      joiningActivity := None;
      toasts := [];
    }

    /**
     * handleJoinActivity: sign-in check, duplicate check, fresh read of the row,
     * capacity check, insert, write of the count read plus one. `joiningActivity`
     * is set once signed in and cleared on every later path.
     */
    method HandleJoinActivity(activityId: EntityId, user: Option<UserId>, replies: StoreReplies) returns (o: JoinOutcome)
      modifies this, store
      ensures (o, store.State()) == Join(old(store.State()), activityId, user, FreshRead, replies)
      ensures joiningActivity == if user.None? then old(joiningActivity) else None
      ensures toasts == old(toasts) + [ActivityToast(o)]
      ensures activities == old(activities)
    {
      if user.None? {
        o := Unauthenticated;
        toasts := toasts + [ActivityToast(o)];
        return;
      }
      joiningActivity := Some(activityId);
      o := JoinSteps(activityId, user.value, replies);
      toasts := toasts + [ActivityToast(o)];
      joiningActivity := None;
    }

    /** The `try` block of handleJoinActivity: the four requests and the outcome they lead to. */
    method JoinSteps(activityId: EntityId, u: UserId, replies: StoreReplies) returns (o: JoinOutcome)
      modifies store
      ensures (o, store.State()) == Join(old(store.State()), activityId, Some(u), FreshRead, replies)
    {
      var m := Membership(activityId, u);
      var existing := store.FindMembership(m, replies.lookupFails);
      if existing {
        o := AlreadyJoined;
      } else {
        var row := store.ReadEntity(activityId, replies.readFails);
        if row.None? {
          o := NotFound;
        } else if row.value.occupancy >= row.value.capacity {
          o := Full;
        } else {
          var inserted := store.Insert(m, replies.insertFails);
          if !inserted {
            o := InsertFailed;
          } else {
            var updated := store.UpdateOccupancy(activityId, row.value.occupancy + 1, replies.updateFails);
            o := if updated then Joined else UpdateFailed;
          }
        }
      }
    }
  }

  /** Because the row is re-read, a join never overfills an activity, even when the listed row is stale. */
  lemma ActivityJoinKeepsCapacity(t: Tables, id: EntityId, user: Option<UserId>, r: StoreReplies)
    requires id in t.entities && 0 <= t.entities[id].occupancy <= t.entities[id].capacity
    ensures var (o, t') := Join(t, id, user, FreshRead, r);
      && 0 <= t'.entities[id].occupancy <= t'.entities[id].capacity
      && (o == Full <==> user.Some? && !FindsMembership(t, Membership(id, user.value), r.lookupFails)
                         && !r.readFails && t.entities[id].occupancy == t.entities[id].capacity)
  {
  }
}
