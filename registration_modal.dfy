/**
 * The race registration modal: its registration handler, which checks capacity
 * against the race record it was opened with and writes that record's count
 * plus one, the effect that resets it on close, and what it shows.
 */
module RegistrationModal {
  import opened Wrappers
  import opened Enrolment

  /** The columns of the race record handed to the modal that the protocol uses. */
  datatype Race = Race(id: EntityId, currentParticipants: int, maxParticipants: int)

  /** The parent's callbacks, in the order the modal calls them. */
  datatype Callback = OnSuccess | OnClose

  const SignInError := "Please sign in to register for the race"
  const AlreadyRegisteredError := "You are already registered for this race"
  const FullError := "This race is already full"
  const FailedError := "Failed to register for the race. Please try again."

  /** The error text each outcome leaves; a completed registration leaves the text cleared. */
  function RegistrationError(o: JoinOutcome): string
  {
    match o
    case Unauthenticated => SignInError
    case AlreadyJoined => AlreadyRegisteredError
    case Full => FullError
    case Joined => ""
    case _ => FailedError
  }

  /** "{max_participants - current_participants} remaining". */
  function AvailableSpots(race: Race): int
  {
    race.maxParticipants - race.currentParticipants
  }

  /** What an open modal shows: the spots left, the error box (if any) and the state of its two buttons. */
  datatype ModalView = ModalView(availableSpots: int, errorBox: Option<string>, buttonsDisabled: bool, confirmText: string)

  class Modal {
    /** The tables `upcoming_races_…` and `race_registrations_…`. */
    const store: Store
    var isOpen: bool
    var loading: bool
    var error: string
    var callbacks: seq<Callback>

    constructor (s: Store, open: bool)
      ensures store == s && isOpen == open && !loading && error == "" && callbacks == []
    {
      store := s;
      isOpen := open;
      loading := false;
      error := "";
      callbacks := [];
    }

    /** The `isOpen` prop changes; on close the effect clears the error and the loading flag. */
    method IsOpenChanged(open: bool)
      modifies this
      ensures isOpen == open && callbacks == old(callbacks)
      ensures !open ==> error == "" && !loading
      ensures open ==> error == old(error) && loading == old(loading)
    {
      isOpen := open;
      if !open {
        error := "";
        loading := false;
      }
    }

    /** The rendered modal: nothing while closed. */
    function View(race: Race): (v: Option<ModalView>)
      reads this
      ensures v.None? <==> !isOpen
      ensures v.Some? ==> v.value.availableSpots == AvailableSpots(race)
      ensures v.Some? ==> (v.value.errorBox.Some? <==> error != "")
      ensures v.Some? ==> (v.value.buttonsDisabled <==> loading)
      ensures v.Some? && error != "" ==> v.value.errorBox == Some(error)
      ensures v.Some? ==> v.value.confirmText == if loading then "Registering..." else "Confirm Registration"
    {
      if !isOpen then None
      else Some(ModalView(AvailableSpots(race),
                          if error == "" then None else Some(error),
                          loading,
                          if loading then "Registering..." else "Confirm Registration"))
    }

    /**
     * handleRegistration: sign-in check (sets the error, leaves `loading`
     * alone), duplicate check, capacity check against `race`, insert, write of
     * `race.current_participants + 1`, then onSuccess and onClose.
     */
    method HandleRegistration(race: Race, user: Option<UserId>, replies: StoreReplies) returns (o: JoinOutcome)
      modifies this, store
      ensures (o, store.State()) ==
              Join(old(store.State()), race.id, user, Snapshot(race.currentParticipants, race.maxParticipants), replies)
      ensures o != NotFound
      ensures error == RegistrationError(o)
      ensures loading == if user.None? then old(loading) else false
      ensures callbacks == old(callbacks) + if o == Joined then [OnSuccess, OnClose] else []
      ensures isOpen == old(isOpen)
    {
      if user.None? {
        o := Unauthenticated;
        error := SignInError;
        return;
      }
      loading := true;
      error := "";
      o := RegisterSteps(race, user.value, replies);
      error := RegistrationError(o);
      if o == Joined {
        callbacks := callbacks + [OnSuccess, OnClose];
      }
      loading := false;
    }

    /**
     * The `try` block of handleRegistration: the lookup, the check against the
     * race record, the insert and the count write, and the outcome they lead to.
     */
    method RegisterSteps(race: Race, u: UserId, replies: StoreReplies) returns (o: JoinOutcome)
      modifies store
      ensures (o, store.State()) ==
              Join(old(store.State()), race.id, Some(u), Snapshot(race.currentParticipants, race.maxParticipants), replies)
    {
      var m := Membership(race.id, u);
      var existing := store.FindMembership(m, replies.lookupFails);
      if existing {
        o := AlreadyJoined;
      } else if race.currentParticipants >= race.maxParticipants {
        o := Full;
      } else {
        var inserted := store.Insert(m, replies.insertFails);
        if !inserted {
          o := InsertFailed;
        } else {
          var updated := store.UpdateOccupancy(race.id, race.currentParticipants + 1, replies.updateFails);
          o := if updated then Joined else UpdateFailed;
        }
      }
    }
  }

  /**
   * For a signed-in user who is not yet registered and a store that answers,
   * the handler reports the race full exactly when the modal shows no spots left.
   */
  lemma FullIffNoSpotsShown(t: Tables, race: Race, u: UserId)
    requires Occurrences(t.rows, Membership(race.id, u)) != 1
    ensures Join(t, race.id, Some(u), Snapshot(race.currentParticipants, race.maxParticipants), NoFailures).0 == Full
            <==> AvailableSpots(race) <= 0
  {
  }
}
