/**
 * The join protocol that the activity list, the running-group list and the race
 * registration modal each carry out against the hosted store: the two tables it
 * touches, one specification of a single join parameterised by where the
 * occupancy is read, and what that specification guarantees.
 */
module Enrolment {
  import opened Wrappers

  type EntityId = string
  type UserId = string

  /** The two columns of an activity, group or race row that the protocol uses. */
  datatype Entity = Entity(occupancy: int, capacity: int)

  /** One row of a participants, members or registrations table (its generated id is not modelled). */
  datatype Membership = Membership(entity: EntityId, user: UserId)

  /** One entity table together with its membership table. */
  datatype Tables = Tables(entities: map<EntityId, Entity>, rows: seq<Membership>)

  /** How the hosted store answers the four requests of one join; `true` means that request fails. */
  datatype StoreReplies = StoreReplies(lookupFails: bool, readFails: bool, insertFails: bool, updateFails: bool)

  const NoFailures := StoreReplies(false, false, false, false)

  /** Where a handler takes the occupancy that it compares with the capacity and then increments. */
  datatype CountSource =
    | FreshRead                          // activities: the row is read again just before the check
    | Cached(count: int)                 // groups: the list rendered on screen; no capacity check
    | Snapshot(current: int, max: int)   // races: the race record handed to the modal

  datatype JoinOutcome = Unauthenticated | AlreadyJoined | NotFound | Full | InsertFailed | UpdateFailed | Joined

  /** A notification shown by the lists (`toast({variant, title, description})`). */
  datatype Toast = Toast(destructive: bool, title: string, description: string)

  /** The number of rows equal to m. */
  function Occurrences(rows: seq<Membership>, m: Membership): nat
  {
    if rows == [] then 0
    else Occurrences(rows[..|rows| - 1], m) + (if rows[|rows| - 1] == m then 1 else 0)
  }

  /** The number of rows for entity id. */
  function EntityRows(rows: seq<Membership>, id: EntityId): nat
  {
    if rows == [] then 0
    else EntityRows(rows[..|rows| - 1], id) + (if rows[|rows| - 1].entity == id then 1 else 0)
  }

  /**
   * The duplicate check `.select('id').eq(entity).eq(user).single()`: the handlers
   * read only `data`, which is there when the request succeeds and exactly one
   * row matches; an error, no row or two rows all read as "not a member".
   */
  predicate FindsMembership(t: Tables, m: Membership, lookupFails: bool)
  {
    !lookupFails && Occurrences(t.rows, m) == 1
  }

  /** The count write `.update({count: v}).eq('id', id)`: a missing row is left alone, without an error. */
  function WriteOccupancy(es: map<EntityId, Entity>, id: EntityId, v: int): (es': map<EntityId, Entity>)
    ensures es'.Keys == es.Keys
    ensures forall k :: k in es && k != id ==> es'[k] == es[k]
    ensures id in es ==> es'[id] == Entity(v, es[id].capacity)
  {
    if id in es then es[id := es[id].(occupancy := v)] else es
  }

  /** The occupancy a handler increments, when it has one at the count-check step. */
  function BaseCount(t: Tables, id: EntityId, src: CountSource): int
    requires src.FreshRead? ==> id in t.entities
  {
    match src
    case FreshRead => t.entities[id].occupancy
    case Cached(n) => n
    case Snapshot(c, _) => c
  }

  /** The capacity check: against the fresh row, against the race snapshot, and none for groups. */
  predicate LooksFull(t: Tables, id: EntityId, src: CountSource)
    requires src.FreshRead? ==> id in t.entities
  {
    match src
    case FreshRead => t.entities[id].occupancy >= t.entities[id].capacity
    case Cached(_) => false
    case Snapshot(c, mx) => c >= mx
  }

  /**
   * A signed-in user who is not found as a member, whose row read (if any)
   * succeeds, and for whom the entity does not look full: the handler goes on
   * to the insert.
   */
  predicate PassesChecks(t: Tables, id: EntityId, user: Option<UserId>, src: CountSource, r: StoreReplies)
  {
    && user.Some?
    && !FindsMembership(t, Membership(id, user.value), r.lookupFails)
    && !(src.FreshRead? && (r.readFails || id !in t.entities))
    && !LooksFull(t, id, src)
  }

  /**
   * One join of `user` into entity `id`: the outcome and the tables afterwards.
   * The steps run in the handlers' order: sign-in check, duplicate check, row
   * read (activities only), capacity check, insert, count write.
   */
  function Join(t: Tables, id: EntityId, user: Option<UserId>, src: CountSource, r: StoreReplies): (res: (JoinOutcome, Tables))
    ensures res.0 == Unauthenticated <==> user.None?
    ensures res.0 != UpdateFailed && res.0 != Joined ==> res.1 == t
    ensures res.0 == UpdateFailed || res.0 == Joined ==>
              user.Some? && res.1.rows == t.rows + [Membership(id, user.value)]
    ensures res.0 == UpdateFailed ==> res.1.entities == t.entities
    ensures res.0 == Joined ==> res.1.entities.Keys == t.entities.Keys
    ensures res.0 == NotFound ==> src.FreshRead?
    ensures res.0 == Full ==> !src.Cached?
    ensures user.Some? && FindsMembership(t, Membership(id, user.value), r.lookupFails) ==> res == (AlreadyJoined, t)
    ensures (user.Some? && !FindsMembership(t, Membership(id, user.value), r.lookupFails)
             && src.FreshRead? && (r.readFails || id !in t.entities)) ==> res == (NotFound, t)
    ensures (user.Some? && !FindsMembership(t, Membership(id, user.value), r.lookupFails)
             && !(src.FreshRead? && (r.readFails || id !in t.entities)) && LooksFull(t, id, src)) ==> res == (Full, t)
    ensures PassesChecks(t, id, user, src, r) && r.insertFails ==> res == (InsertFailed, t)
    ensures PassesChecks(t, id, user, src, r) && !r.insertFails && r.updateFails ==> res.0 == UpdateFailed
    ensures PassesChecks(t, id, user, src, r) && !r.insertFails && !r.updateFails ==> res.0 == Joined
  {
    if user.None? then (Unauthenticated, t)
    else
      var m := Membership(id, user.value);
      if FindsMembership(t, m, r.lookupFails) then (AlreadyJoined, t)
      else if src.FreshRead? && (r.readFails || id !in t.entities) then (NotFound, t)
      else if LooksFull(t, id, src) then (Full, t)
      else if r.insertFails then (InsertFailed, t)
      else
        var inserted := t.(rows := t.rows + [m]);
        if r.updateFails then (UpdateFailed, inserted)
        else (Joined, inserted.(entities := WriteOccupancy(t.entities, id, BaseCount(t, id, src) + 1)))
  }

  /** The count a handler read equals what the table holds (no other writer since that read). */
  predicate CountIsCurrent(t: Tables, id: EntityId, src: CountSource)
  {
    id in t.entities &&
    match src
    case FreshRead => true
    case Cached(n) => n == t.entities[id].occupancy
    case Snapshot(c, mx) => c == t.entities[id].occupancy && mx == t.entities[id].capacity
  }

  /** The stored occupancy of id equals its number of membership rows. */
  predicate Consistent(t: Tables, id: EntityId)
  {
    id in t.entities && t.entities[id].occupancy == EntityRows(t.rows, id)
  }

  /** The hosted tables of one entity kind, with the four requests the handlers send. */
  class Store {
    var entities: map<EntityId, Entity>
    var rows: seq<Membership>

    function State(): Tables
      reads this
    {
      Tables(entities, rows)
    }

    constructor (t: Tables)
      ensures State() == t
    {
      entities := t.entities;
      rows := t.rows;
    }

    /** The duplicate check; see FindsMembership. */
    method FindMembership(m: Membership, fails: bool) returns (found: bool)
      ensures found ==> !fails && m in rows
      ensures found <==> FindsMembership(State(), m, fails)
    {
      found := !fails && Occurrences(rows, m) == 1;
      if found {
        OccurrencesInRows(rows, m);
      }
    }

    /** `.select(count, capacity).eq('id', id).single()`: the row, unless the request fails or there is none. */
    method ReadEntity(id: EntityId, fails: bool) returns (row: Option<Entity>)
      ensures row.Some? <==> !fails && id in entities
      ensures row.Some? ==> row.value == entities[id]
    {
      if !fails && id in entities {
        row := Some(entities[id]);
      } else {
        row := None;
      }
    }

    /** `.insert({entity, user})`: appends one row unless the request fails. */
    method Insert(m: Membership, fails: bool) returns (ok: bool)
      modifies this
      ensures ok == !fails
      ensures entities == old(entities)
      ensures rows == if ok then old(rows) + [m] else old(rows)
    {
      ok := !fails;
      if ok {
        rows := rows + [m];
      }
    }

    /** `.update({count: v}).eq('id', id)`: overwrites the count unless the request fails. */
    method UpdateOccupancy(id: EntityId, v: int, fails: bool) returns (ok: bool)
      modifies this
      ensures ok == !fails
      ensures rows == old(rows)
      ensures entities == if ok then WriteOccupancy(old(entities), id, v) else old(entities)
    {
      ok := !fails;
      if ok {
        entities := WriteOccupancy(entities, id, v);
      }
    }
  }

  // ---------------------------------------------------------------------------
  // Counting rows

  lemma {:induction false} OccurrencesInRows(rows: seq<Membership>, m: Membership)
    requires Occurrences(rows, m) > 0
    ensures m in rows
  {
    var init := rows[..|rows| - 1];
    if rows[|rows| - 1] != m {
      OccurrencesInRows(init, m);
      assert m in init;
      assert forall x :: x in init ==> x in rows;
    }
  }

  lemma OccurrencesAppend(rows: seq<Membership>, x: Membership, m: Membership)
    ensures Occurrences(rows + [x], m) == Occurrences(rows, m) + (if x == m then 1 else 0)
  {
  }

  lemma EntityRowsAppend(rows: seq<Membership>, x: Membership, id: EntityId)
    ensures EntityRows(rows + [x], id) == EntityRows(rows, id) + (if x.entity == id then 1 else 0)
  {
  }

  // ---------------------------------------------------------------------------
  // Properties of one join

  /** A successful join adds exactly one row for (id, user) and writes the count read plus one; no other entity changes. */
  lemma JoinedWritesCountPlusOne(t: Tables, id: EntityId, u: UserId, src: CountSource, r: StoreReplies)
    requires Join(t, id, Some(u), src, r).0 == Joined
    ensures var t' := Join(t, id, Some(u), src, r).1;
      && Occurrences(t'.rows, Membership(id, u)) == Occurrences(t.rows, Membership(id, u)) + 1
      && (id in t.entities ==> t'.entities[id] == Entity(BaseCount(t, id, src) + 1, t.entities[id].capacity))
      && (forall k :: k in t.entities && k != id ==> t'.entities[k] == t.entities[k])
  {
  }

  /**
   * With the count read still current and 0 <= occupancy <= capacity, a join
   * through a handler that checks capacity (activities, races) keeps
   * occupancy <= capacity, whatever the outcome.
   */
  lemma JoinKeepsCapacity(t: Tables, id: EntityId, user: Option<UserId>, src: CountSource, r: StoreReplies)
    requires !src.Cached? && CountIsCurrent(t, id, src)
    requires 0 <= t.entities[id].occupancy <= t.entities[id].capacity
    ensures var t' := Join(t, id, user, src, r).1;
      id in t'.entities && 0 <= t'.entities[id].occupancy <= t'.entities[id].capacity
  {
  }

  /** The group handler has no capacity check: a non-member joins a group the store already holds full. */
  lemma GroupJoinIgnoresCapacity(t: Tables, id: EntityId, u: UserId)
    requires id in t.entities && t.entities[id].occupancy >= t.entities[id].capacity
    requires Occurrences(t.rows, Membership(id, u)) == 0
    ensures var (o, t') := Join(t, id, Some(u), Cached(t.entities[id].occupancy), NoFailures);
      o == Joined && t'.entities[id].occupancy > t'.entities[id].capacity
  {
  }

  /**
   * The race handler writes snapshot + 1: when other registrations landed after
   * the snapshot was taken, the stored count goes down although a row was added.
   */
  lemma SnapshotLosesUpdates(t: Tables, id: EntityId, u: UserId, current: int, max: int)
    requires id in t.entities && current < max && current + 1 < t.entities[id].occupancy
    requires Occurrences(t.rows, Membership(id, u)) == 0
    ensures var (o, t') := Join(t, id, Some(u), Snapshot(current, max), NoFailures);
      && o == Joined
      && EntityRows(t'.rows, id) == EntityRows(t.rows, id) + 1
      && t'.entities[id].occupancy < t.entities[id].occupancy
  {
  }

  /**
   * A join that reads a current count keeps "count equals number of rows" for
   * every entity when it succeeds; a failed count write after the insert
   * (UpdateFailed) leaves the rows one ahead of the count.
   */
  lemma JoinKeepsCountConsistent(t: Tables, id: EntityId, u: UserId, src: CountSource, r: StoreReplies, k: EntityId)
    requires CountIsCurrent(t, id, src) && Consistent(t, k)
    ensures var (o, t') := Join(t, id, Some(u), src, r);
      && (o != UpdateFailed || k != id ==> Consistent(t', k))
      && (o == UpdateFailed && k == id ==> EntityRows(t'.rows, k) == t'.entities[k].occupancy + 1)
  {
    var (o, t') := Join(t, id, Some(u), src, r);
    if o == UpdateFailed || o == Joined {
      assert t'.rows == t.rows + [Membership(id, u)];
      EntityRowsAppend(t.rows, Membership(id, u), k);
    } else {
      assert t' == t;
    }
  }

  /** Joining again after a successful join is a no-op that reports AlreadyJoined, whatever the count source. */
  lemma RejoinIsNoOp(t: Tables, id: EntityId, u: UserId, src: CountSource, src': CountSource)
    requires Occurrences(t.rows, Membership(id, u)) == 0
    requires Join(t, id, Some(u), src, NoFailures).0 == Joined
    ensures var t' := Join(t, id, Some(u), src, NoFailures).1;
      Join(t', id, Some(u), src', NoFailures) == (AlreadyJoined, t')
  {
  }

  /**
   * The lookup's error is not read: when it fails on a second attempt after a
   * successful join, the user is not seen as a member. If the join then gets
   * past the count check, the user has two rows, and from then on the
   * `.single()` lookup never finds them again. Without a capacity check
   * (groups) that second join always goes through.
   */
  lemma RejoinWithFailedLookupDuplicates(t: Tables, id: EntityId, u: UserId, src: CountSource, src': CountSource)
    requires Occurrences(t.rows, Membership(id, u)) == 0
    requires Join(t, id, Some(u), src, NoFailures).0 == Joined
    ensures var t' := Join(t, id, Some(u), src, NoFailures).1;
      var (o, t'') := Join(t', id, Some(u), src', NoFailures.(lookupFails := true));
      && o != AlreadyJoined
      && (src'.Cached? ==> o == Joined)
      && (o == Joined || o == UpdateFailed ==>
            Occurrences(t''.rows, Membership(id, u)) == 2 && !FindsMembership(t'', Membership(id, u), false))
  {
  }

  /**
   * Three users join one activity of capacity 2 in turn: the first two are
   * admitted, the third is turned away, and the count ends at 2 with two rows.
   */
  lemma TwoSeatsThreeUsers(a: UserId, b: UserId, c: UserId)
    requires a != b && b != c && a != c
    ensures var t0 := Tables(map["act_1" := Entity(0, 2)], []);
      var (o1, t1) := Join(t0, "act_1", Some(a), FreshRead, NoFailures);
      var (o2, t2) := Join(t1, "act_1", Some(b), FreshRead, NoFailures);
      var (o3, t3) := Join(t2, "act_1", Some(c), FreshRead, NoFailures);
      && o1 == Joined && o2 == Joined && o3 == Full
      && t3.entities["act_1"].occupancy == 2 && EntityRows(t3.rows, "act_1") == 2
  {
    var t0 := Tables(map["act_1" := Entity(0, 2)], []);
    var ma, mb, mc := Membership("act_1", a), Membership("act_1", b), Membership("act_1", c);
    assert Occurrences([], ma) == 0;
    var (o1, t1) := Join(t0, "act_1", Some(a), FreshRead, NoFailures);
    assert o1 == Joined && t1 == Tables(map["act_1" := Entity(1, 2)], [ma]);
    OccurrencesAppend([], ma, mb);
    assert [] + [ma] == [ma];
    var (o2, t2) := Join(t1, "act_1", Some(b), FreshRead, NoFailures);
    assert o2 == Joined && t2 == Tables(map["act_1" := Entity(2, 2)], [ma, mb]);
    OccurrencesAppend([ma], mb, mc);
    OccurrencesAppend([], ma, mc);
    assert [ma] + [mb] == [ma, mb];
    var (o3, t3) := Join(t2, "act_1", Some(c), FreshRead, NoFailures);
    assert o3 == Full && t3 == t2;
    EntityRowsAppend([], ma, "act_1");
    EntityRowsAppend([ma], mb, "act_1");
  }

  // ---------------------------------------------------------------------------
  // The join buttons of the activity and group lists

  const JoiningLabel := "Joining..."

  datatype Button = Button(disabled: bool, secondary: bool, text: string)

  /**
   * `disabled={joining === id || full}`, `variant={full ? 'secondary' : 'default'}`,
   * label "Joining..." over the full label over the idle label.
   */
  function JoinButton(joiningThis: bool, full: bool, fullLabel: string, idleLabel: string): (b: Button)
    requires fullLabel != JoiningLabel && idleLabel != JoiningLabel && idleLabel != fullLabel
    ensures b.text == JoiningLabel <==> joiningThis
    ensures b.text == fullLabel <==> !joiningThis && full
    ensures !b.disabled <==> b.text == idleLabel
    ensures b.secondary <==> full
    ensures b.disabled <==> joiningThis || full
  {
    Button(joiningThis || full, full, if joiningThis then JoiningLabel else if full then fullLabel else idleLabel)
  }
}
