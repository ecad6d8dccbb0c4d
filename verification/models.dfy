/** The persistence rules of the events app: the `Event` and
    `EventParticipant` tables, the role choices, the `unique_together`
    constraint, the cascade from an event to its participant rows, and the
    cache invalidation that the `save`/`delete` overrides perform. */
module Models {
  import opened Base

  // ---------------------------------------------------------------------
  // Events
  // ---------------------------------------------------------------------

  /** A stored event row. Every column is NOT NULL except
      `recurrence_pattern`; its `choices` are not enforced when a row is
      written, so any string can be stored there. */
  datatype Event = Event(
    title: string,
    description: string,
    start: Time,
    end: Time,
    location: string,
    isRecurring: bool,
    pattern: Option<string>)

  /** An `Event` instance before it is written: any attribute may be `None`. */
  datatype Draft = Draft(
    title: Option<string>,
    description: Option<string>,
    start: Option<Time>,
    end: Option<Time>,
    location: Option<string>,
    isRecurring: Option<bool>,
    pattern: Option<string>)

  /** The instance a stored row is loaded back into. */
  function ToDraft(e: Event): Draft {
    Draft(Some(e.title), Some(e.description), Some(e.start), Some(e.end),
          Some(e.location), Some(e.isRecurring), e.pattern)
  }

  /** True when writing the instance satisfies every NOT NULL constraint. */
  predicate Storable(d: Draft) {
    && d.title.Some? && d.description.Some? && d.start.Some? && d.end.Some?
    && d.location.Some? && d.isRecurring.Some?
  }

  /** Writing an instance: the row that results, or `None` when the
      database refuses it with an `IntegrityError`. */
  function Store(d: Draft): (r: Option<Event>)
    ensures r.Some? <==> Storable(d)
    ensures r.Some? ==> ToDraft(r.value) == d
  {
    if Storable(d) then
      Some(Event(d.title.value, d.description.value, d.start.value, d.end.value,
                 d.location.value, d.isRecurring.value, d.pattern))
    else None
  }

  /** Loading a row and writing it back stores the same row. */
  lemma StoreToDraft(e: Event)
    ensures Store(ToDraft(e)) == Some(e)
  {
  }

  // ---------------------------------------------------------------------
  // Roles and participant rows
  // ---------------------------------------------------------------------

  const Owner: string := "OWNER"
  const Editor: string := "EDITOR"
  const Viewer: string := "VIEWER"

  /** `ROLE_CHOICES`; the handlers check request roles against the same
      three values. */
  predicate IsRoleChoice(role: string) {
    role == Owner || role == Editor || role == Viewer
  }

  datatype Participant = Participant(user: UserId, event: EventId, role: string)

  /** The participant table, rows in primary-key order. */
  type Table = seq<Participant>

  /** `filter(user=u, event_id=e, role=role).exists()` */
  predicate HasRole(rows: Table, u: UserId, e: EventId, role: string) {
    Participant(u, e, role) in rows
  }

  /** Some row links user `u` to event `e`, whatever its role. */
  predicate IsParticipant(rows: Table, u: UserId, e: EventId) {
    exists i | 0 <= i < |rows| :: rows[i].user == u && rows[i].event == e
  }

  /** `unique_together = ('user', 'event')`: no two rows share the pair. */
  ghost predicate Unique(rows: Table) {
    forall i, j | 0 <= i < j < |rows| ::
      rows[i].user != rows[j].user || rows[i].event != rows[j].event
  }

  /** The role of the first row for (`u`, `e`); under `Unique` the only one. */
  function RoleOf(rows: Table, u: UserId, e: EventId): (r: Option<string>)
    ensures r.Some? ==> HasRole(rows, u, e, r.value)
    ensures r.None? <==> !IsParticipant(rows, u, e)
  {
    if rows == [] then None
    else if rows[0].user == u && rows[0].event == e then Some(rows[0].role)
    else
      var r := RoleOf(rows[1..], u, e);
      assert r.Some? ==> Participant(u, e, r.value) in rows by {
        if r.Some? {
          var i :| 0 <= i < |rows[1..]| && rows[1..][i] == Participant(u, e, r.value);
          assert rows[i + 1] == rows[1..][i];
        }
      }
      assert IsParticipant(rows[1..], u, e) ==> IsParticipant(rows, u, e) by {
        if IsParticipant(rows[1..], u, e) {
          var i :| 0 <= i < |rows[1..]| && rows[1..][i].user == u && rows[1..][i].event == e;
          assert rows[i + 1] == rows[1..][i];
        }
      }
      r
  }

  /** Under `Unique`, the stored role of a pair is the one `RoleOf` reports. */
  lemma {:induction false} RoleOfUnique(rows: Table, u: UserId, e: EventId, role: string)
    requires Unique(rows)
    ensures HasRole(rows, u, e, role) <==> RoleOf(rows, u, e) == Some(role)
  {
    if HasRole(rows, u, e, role) {
      var i :| 0 <= i < |rows| && rows[i] == Participant(u, e, role);
      if i == 0 {
      } else {
        assert rows[1..][i - 1] == rows[i];
        assert Unique(rows[1..]);
        RoleOfUnique(rows[1..], u, e, role);
      }
    }
  }

  /** The rows a predicate keeps, in table order. */
  function Filter(rows: Table, keep: Participant -> bool): (r: Table)
    ensures |r| <= |rows|
    ensures forall p :: p in r <==> p in rows && keep(p)
  {
    if rows == [] then []
    else if keep(rows[0]) then [rows[0]] + Filter(rows[1..], keep)
    else Filter(rows[1..], keep)
  }

  /** Keeping rows never breaks uniqueness. */
  lemma {:induction false} FilterUnique(rows: Table, keep: Participant -> bool)
    requires Unique(rows)
    ensures Unique(Filter(rows, keep))
  {
    if rows != [] {
      assert Unique(rows[1..]);
      FilterUnique(rows[1..], keep);
      var rest := Filter(rows[1..], keep);
      if keep(rows[0]) {
        var r := [rows[0]] + rest;
        forall i, j | 0 <= i < j < |r|
          ensures r[i].user != r[j].user || r[i].event != r[j].event
        {
          if i == 0 {
            assert r[j] in rows[1..];
            var k :| 0 <= k < |rows[1..]| && rows[1..][k] == r[j];
            assert rows[k + 1] == r[j];
          } else {
            assert r[i] == rest[i - 1] && r[j] == rest[j - 1];
          }
        }
      }
    }
  }

  /** The rows of event `e` (`filter(event_id=e)`). */
  function EventRows(rows: Table, e: EventId): (r: Table)
    ensures forall p :: p in r <==> p in rows && p.event == e
  {
    Filter(rows, (p: Participant) => p.event == e)
  }

  /** The table after `e` is deleted: `on_delete=CASCADE` removes its rows. */
  function WithoutEvent(rows: Table, e: EventId): (r: Table)
    ensures forall p :: p in r <==> p in rows && p.event != e
  {
    Filter(rows, (p: Participant) => p.event != e)
  }

  /** The table after the row for (`u`, `e`) is deleted. */
  function WithoutRow(rows: Table, u: UserId, e: EventId): (r: Table)
    ensures forall p :: p in r <==> p in rows && (p.user != u || p.event != e)
  {
    Filter(rows, (p: Participant) => p.user != u || p.event != e)
  }

  /** Every row for (`u`, `e`) with its role set to `role`, the others as
      they were (`participant.role = role`). */
  function WithRole(rows: Table, u: UserId, e: EventId, role: string): (r: Table)
    ensures |r| == |rows|
    ensures forall i | 0 <= i < |rows| :: r[i].user == rows[i].user && r[i].event == rows[i].event
  {
    seq(|rows|, i requires 0 <= i < |rows| =>
      if rows[i].user == u && rows[i].event == e then rows[i].(role := role) else rows[i])
  }

  /** Inserting a row: `None` when an existing row has the same pair and the
      database rejects the insert. */
  function InsertRow(rows: Table, p: Participant): (r: Option<Table>)
    ensures r.Some? <==> !IsParticipant(rows, p.user, p.event)
    ensures r.Some? ==> r.value == rows + [p]
  {
    if IsParticipant(rows, p.user, p.event) then None else Some(rows + [p])
  }

  /** One `INSERT` of several rows: all are written, or none when any of
      them clashes with a row already present or with an earlier one. */
  function InsertRows(rows: Table, ps: Table): (r: Option<Table>)
    ensures r.Some? ==> r.value == rows + ps
    decreases |ps|
  {
    if ps == [] then Some(rows)
    else match InsertRow(rows, ps[0])
      case None => None
      case Some(rows') =>
        var r := InsertRows(rows', ps[1..]);
        assert r.Some? ==> r.value == rows + ps by {
          if r.Some? {
            assert rows + ps == rows + [ps[0]] + ps[1..];
          }
        }
        r
  }

  /** `update_or_create(event_id=e, user=u, defaults={"role": role})`. */
  function Upsert(rows: Table, u: UserId, e: EventId, role: string): (r: Table)
    ensures HasRole(r, u, e, role)
  {
    if IsParticipant(rows, u, e) then
      var r := WithRole(rows, u, e, role);
      var i :| 0 <= i < |rows| && rows[i].user == u && rows[i].event == e;
      assert r[i] == Participant(u, e, role);
      r
    else rows + [Participant(u, e, role)]
  }

  /** Changing the role of a pair keeps the table unique and changes no
      other pair's role. */
  lemma WithRoleFacts(rows: Table, u: UserId, e: EventId, role: string)
    requires Unique(rows)
    ensures Unique(WithRole(rows, u, e, role))
    ensures IsParticipant(rows, u, e) ==> RoleOf(WithRole(rows, u, e, role), u, e) == Some(role)
    ensures forall v, f | v != u || f != e ::
      RoleOf(WithRole(rows, u, e, role), v, f) == RoleOf(rows, v, f)
  {
    var r := WithRole(rows, u, e, role);
    if IsParticipant(rows, u, e) {
      var i :| 0 <= i < |rows| && rows[i].user == u && rows[i].event == e;
      assert r[i] == Participant(u, e, role);
      RoleOfUnique(r, u, e, role);
    }
    forall v, f | v != u || f != e
      ensures RoleOf(r, v, f) == RoleOf(rows, v, f)
    {
      match RoleOf(rows, v, f)
      case None =>
        forall i | 0 <= i < |r|
          ensures r[i].user != v || r[i].event != f
        {
          assert r[i].user == rows[i].user && r[i].event == rows[i].event;
        }
      case Some(x) =>
        var i :| 0 <= i < |rows| && rows[i] == Participant(v, f, x);
        assert r[i] == rows[i];
        RoleOfUnique(r, v, f, x);
    }
  }

  /** `update_or_create` keeps the table unique, gives the pair the requested
      role, and changes no other pair's role. */
  lemma UpsertFacts(rows: Table, u: UserId, e: EventId, role: string)
    requires Unique(rows)
    ensures Unique(Upsert(rows, u, e, role))
    ensures RoleOf(Upsert(rows, u, e, role), u, e) == Some(role)
    ensures forall v, f | v != u || f != e ::
      RoleOf(Upsert(rows, u, e, role), v, f) == RoleOf(rows, v, f)
  {
    var r := Upsert(rows, u, e, role);
    if IsParticipant(rows, u, e) {
      WithRoleFacts(rows, u, e, role);
    } else {
      AppendFreshUnique(rows, Participant(u, e, role));
      RoleOfUnique(r, u, e, role);
      forall v, f | v != u || f != e
        ensures RoleOf(r, v, f) == RoleOf(rows, v, f)
      {
        match RoleOf(rows, v, f)
        case None =>
          forall i | 0 <= i < |r|
            ensures r[i].user != v || r[i].event != f
          {
            if i < |rows| {
              assert r[i] == rows[i];
            }
          }
        case Some(x) =>
          RoleOfUnique(r, v, f, x);
      }
    }
  }

  /** Setting a role writes no row other than the requested one: every row
      afterwards was there before or is exactly (`u`, `e`, `role`). */
  lemma WithRoleRows(rows: Table, u: UserId, e: EventId, role: string)
    ensures forall p | p in WithRole(rows, u, e, role) :: p in rows || p == Participant(u, e, role)
  {
    var r := WithRole(rows, u, e, role);
    forall i | 0 <= i < |r|
      ensures r[i] in rows || r[i] == Participant(u, e, role)
    {
      assert rows[i] in rows;
    }
  }

  /** The same for `update_or_create`. */
  lemma UpsertRows(rows: Table, u: UserId, e: EventId, role: string)
    ensures forall p | p in Upsert(rows, u, e, role) :: p in rows || p == Participant(u, e, role)
  {
    if IsParticipant(rows, u, e) {
      WithRoleRows(rows, u, e, role);
    }
  }

  /** Appending a row for a pair that has none keeps the table unique. */
  lemma AppendFreshUnique(rows: Table, p: Participant)
    requires Unique(rows)
    requires !IsParticipant(rows, p.user, p.event)
    ensures Unique(rows + [p])
  {
    var r := rows + [p];
    forall i, j | 0 <= i < j < |r|
      ensures r[i].user != r[j].user || r[i].event != r[j].event
    {
      if j == |rows| {
        assert r[i] == rows[i];
      } else {
        assert r[i] == rows[i] && r[j] == rows[j];
      }
    }
  }

  /** An insert the database accepts keeps the table unique. */
  lemma {:induction false} InsertRowsUnique(rows: Table, ps: Table)
    requires Unique(rows)
    requires InsertRows(rows, ps).Some?
    ensures Unique(InsertRows(rows, ps).value)
    decreases |ps|
  {
    if ps != [] {
      AppendFreshUnique(rows, ps[0]);
      InsertRowsUnique(rows + [ps[0]], ps[1..]);
    }
  }

  // ---------------------------------------------------------------------
  // Cache keys
  // ---------------------------------------------------------------------

  /** Cache keys: `event_detail_view_{event}_user_{user}`,
      `event_participants_{event}`, and every other key the cache may hold.
      Decimal ids joined by fixed separators name distinct keys for distinct
      ids, so a datatype stands for the strings. An `OtherKey` name never has
      either formatted shape: a key of that shape is always written as
      `DetailKey` or `ParticipantsKey`. */
  datatype CacheKey =
    | DetailKey(event: EventId, user: UserId)
    | ParticipantsKey(event: EventId)
    | OtherKey(name: string)

  /** `Event.clear_cache`: deletes the detail key of every current
      participant of `e` and nothing else. */
  function ClearCache(cache: set<CacheKey>, rows: Table, e: EventId): (r: set<CacheKey>)
    ensures r <= cache
    ensures forall u :: IsParticipant(rows, u, e) ==> DetailKey(e, u) !in r
    ensures forall k | k in cache && k !in r :: k.DetailKey? && k.event == e && IsParticipant(rows, k.user, e)
  {
    cache - set k | k in cache && k.DetailKey? && k.event == e && IsParticipant(rows, k.user, e)
  }

  // ---------------------------------------------------------------------
  // The whole store
  // ---------------------------------------------------------------------

  /** Registered users, the two tables, the live cache keys, and the id the
      next inserted event receives (ids are never reused). */
  datatype State = State(
    users: set<UserId>,
    events: map<EventId, Event>,
    participants: Table,
    cache: set<CacheKey>,
    nextId: EventId)

  /** What the database and the writers keep true of the store. */
  ghost predicate Valid(s: State) {
    && Unique(s.participants)
    && (forall p | p in s.participants ::
          IsRoleChoice(p.role) && p.event in s.events && p.user in s.users)
    && (forall id | id in s.events :: id < s.nextId)
  }

  /** `Event.save`: the row is written, then `clear_cache` runs over the
      participants the event has at that moment. */
  function SaveEvent(s: State, id: EventId, ev: Event): (r: State)
    ensures r.events == s.events[id := ev]
    ensures r.participants == s.participants && r.users == s.users && r.nextId == s.nextId
    ensures r.cache <= s.cache
    ensures forall u :: IsParticipant(s.participants, u, id) ==> DetailKey(id, u) !in r.cache
  {
    s.(events := s.events[id := ev], cache := ClearCache(s.cache, s.participants, id))
  }

  /** `Event.delete`: `clear_cache` runs first, then the row and, by the
      cascade, its participant rows are deleted. The cascade does not call
      `EventParticipant.delete`, so the participant-list key stays. */
  function DeleteEvent(s: State, id: EventId): (r: State)
    ensures id !in r.events && r.events.Keys == s.events.Keys - {id}
    ensures forall p :: p in r.participants <==> p in s.participants && p.event != id
    ensures forall u :: IsParticipant(s.participants, u, id) ==> DetailKey(id, u) !in r.cache
    ensures r.cache <= s.cache
  {
    s.(events := s.events - {id},
       participants := WithoutEvent(s.participants, id),
       cache := ClearCache(s.cache, s.participants, id))
  }

  /** `EventParticipant.save` / `EventParticipant.delete` on a row of event
      `e`: the table changes, then `event_participants_{e}` is deleted. */
  function SaveParticipants(s: State, rows: Table, e: EventId): (r: State)
    ensures r.participants == rows
    ensures r.cache == s.cache - {ParticipantsKey(e)}
    ensures r.events == s.events && r.users == s.users && r.nextId == s.nextId
  {
    s.(participants := rows, cache := s.cache - {ParticipantsKey(e)})
  }
}
