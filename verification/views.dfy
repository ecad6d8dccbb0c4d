/** The request handlers of the events app as transitions: each takes the
    store and the request and returns a status and the new store. */
module Views {
  import opened Base
  import opened Models

  /** The keys of an event body the handlers read. */
  datatype EventInput = EventInput(
    title: Json<string>,
    description: Json<string>,
    start: Json<string>,
    end: Json<string>,
    location: Json<string>,
    isRecurring: Json<bool>,
    pattern: Json<string>)

  datatype Reply = Reply(status: Status, state: State)

  // ---------------------------------------------------------------------
  // check_event_owner
  // ---------------------------------------------------------------------

  /** `check_event_owner`: `(event, True)` when the user has an OWNER row for
      the event, `(None, False)` otherwise. The event is `None` for an owner
      only if the event row is missing. */
  function CheckEventOwner(s: State, u: UserId, id: EventId): (r: (Option<Event>, bool))
    ensures r.1 <==> HasRole(s.participants, u, id, Owner)
    ensures r.0.Some? <==> r.1 && id in s.events
    ensures r.0.Some? ==> r.0.value == s.events[id]
  {
    if HasRole(s.participants, u, id, Owner) then
      (if id in s.events then Some(s.events[id]) else None, true)
    else (None, false)
  }

  // ---------------------------------------------------------------------
  // EventView.post: create
  // ---------------------------------------------------------------------

  /** The instance `Event.objects.create` is given, or `None` when one of the
      two `parse_datetime` calls raises. */
  function CreationDraft(parse: Parser, input: EventInput): Option<Draft> {
    var start := ParseDateTime(parse, Get(input.start));
    var end := ParseDateTime(parse, Get(input.end));
    if start.Raises? || end.Raises? then None
    else Some(Draft(Get(input.title), Get(input.description), start.AsTime(), end.AsTime(),
                    Get(input.location), GetOr(input.isRecurring, false), Get(input.pattern)))
  }

  /** `EventView.post`. The event row is written through `save` (whose
      `clear_cache` finds no participants yet), then the caller's OWNER row
      through `EventParticipant.save`. Every failure reaches the `except`
      clause, whose response expression itself raises, so it surfaces as
      `ServerError`. */
  function Create(s: State, parse: Parser, caller: UserId, body: Body<EventInput>): (r: Reply)
    ensures r.status == Created || r.status == ServerError
    ensures r.status == Created ==>
      && r.state.nextId == s.nextId + 1
      && r.state.events.Keys == s.events.Keys + {s.nextId}
      && HasRole(r.state.participants, caller, s.nextId, Owner)
    ensures r.status != Created ==> r.state.participants == s.participants
  {
    if body.NotObject? then Reply(ServerError, s)
    else match CreationDraft(parse, body.fields)
      case None => Reply(ServerError, s)
      case Some(d) =>
        match Store(d)
        case None => Reply(ServerError, s)
        case Some(ev) =>
          var id := s.nextId;
          var s1 := SaveEvent(s.(nextId := id + 1), id, ev);
          match InsertRow(s1.participants, Participant(caller, id, Owner))
          case None => Reply(ServerError, s1)
          case Some(rows) => Reply(Created, SaveParticipants(s1, rows, id))
  }

  // ---------------------------------------------------------------------
  // EventView.get and EventDetailView.get: reads
  // ---------------------------------------------------------------------

  /** ASCII case folding, as the database's case-insensitive match does it. */
  function Lower(c: char): char {
    if 'A' <= c <= 'Z' then (c as int + 32) as char else c
  }

  function Fold(t: string): (r: string)
    ensures |r| == |t|
  {
    seq(|t|, i requires 0 <= i < |t| => Lower(t[i]))
  }

  /** `q` occurs in `t` at position `i` up to case. */
  predicate MatchesAt(t: string, q: string, i: int) {
    0 <= i && i + |q| <= |t| && Fold(t)[i..i + |q|] == Fold(q)
  }

  /** `title__icontains=q`: `q` occurs in `t` up to case. */
  predicate ContainsIgnoreCase(t: string, q: string) {
    exists i | 0 <= i <= |t| - |q| :: MatchesAt(t, q, i)
  }

  /** `EventView.get`, without pagination: the ids of the events the caller
      takes part in, narrowed by a non-empty `title` query parameter. */
  function ListEvents(s: State, caller: UserId, title: Option<string>): (r: set<EventId>)
    ensures r <= s.events.Keys
    ensures forall id | id in r :: IsParticipant(s.participants, caller, id)
  {
    set id | id in s.events && IsParticipant(s.participants, caller, id)
                            && (!Truthy(title) || ContainsIgnoreCase(s.events[id].title, title.value))
  }

  /** `EventDetailView.get`: the event when the caller takes part in it, 404
      otherwise; an event one does not take part in looks absent. */
  function Detail(s: State, caller: UserId, id: EventId): (r: (Status, Option<Event>))
    ensures r.0 == Ok || r.0 == NotFound
    ensures r.0 == Ok <==> r.1.Some?
    ensures r.1.Some? ==> id in s.events && r.1.value == s.events[id]
  {
    if id in s.events && IsParticipant(s.participants, caller, id) then (Ok, Some(s.events[id]))
    else (NotFound, None)
  }

  // ---------------------------------------------------------------------
  // EventDetailView.put: update
  // ---------------------------------------------------------------------

  /** `parse_datetime(data.get(key)) or event.start_time` (or `end_time`) as
      written: the stored instant when the string does not parse, `None`
      when the call raises, which includes a missing key. */
  function TimeAsWritten(parse: Parser, f: Json<string>, prior: Time): (r: Option<Time>)
    ensures f.Absent? || f.Null? ==> r.None?
  {
    match ParseDateTime(parse, Get(f))
    case Raises => None
    case NoMatch => Some(prior)
    case Parsed(t) => Some(t)
  }

  /** `data.get("recurrence_pattern", event.recurrence_pattern)`. */
  function PatternOr(f: Json<string>, prior: Option<string>): Option<string> {
    match f
    case Absent => prior
    case Null => None
    case Given(p) => Some(p)
  }

  /** The instance after the assignments of an update, given the resolved
      start and end. */
  function EditedDraft(prior: Event, input: EventInput, start: Time, end: Time): Draft {
    Draft(GetOr(input.title, prior.title), GetOr(input.description, prior.description),
          Some(start), Some(end), GetOr(input.location, prior.location),
          GetOr(input.isRecurring, prior.isRecurring), PatternOr(input.pattern, prior.pattern))
  }

  /** Writes the edited event through `Event.save`, or fails without a
      write when a date could not be resolved or a NOT NULL column would be
      null. */
  function ApplyEdit(s: State, id: EventId, input: EventInput, start: Option<Time>, end: Option<Time>): (r: Reply)
    requires id in s.events
    ensures r.status == Ok || r.status == ServerError
    ensures r.status == ServerError ==> r.state == s
    ensures r.state.participants == s.participants && r.state.events.Keys == s.events.Keys
  {
    if start.None? || end.None? then Reply(ServerError, s)
    else match Store(EditedDraft(s.events[id], input, start.value, end.value))
      case None => Reply(ServerError, s)
      case Some(ev) => Reply(Ok, SaveEvent(s, id, ev))
  }

  /** `EventDetailView.put` as written. */
  function Update(s: State, parse: Parser, caller: UserId, id: EventId, body: Body<EventInput>): (r: Reply)
    ensures r.status == Ok || r.status == Forbidden || r.status == ServerError
    ensures r.status == Forbidden <==> !HasRole(s.participants, caller, id, Owner)
    ensures r.status != Ok ==> r.state == s
    ensures r.state.participants == s.participants
  {
    var (event, isOwner) := CheckEventOwner(s, caller, id);
    if !isOwner then Reply(Forbidden, s)
    else if event.None? || body.NotObject? then Reply(ServerError, s)
    else
      var input := body.fields;
      ApplyEdit(s, id, input, TimeAsWritten(parse, input.start, event.value.start),
                TimeAsWritten(parse, input.end, event.value.end))
  }

  /** `start_time` / `end_time` as the update handler evidently means them:
      a missing or null key keeps the stored instant, like every other key. */
  function TimeIntended(parse: Parser, f: Json<string>, prior: Time): (r: Option<Time>)
    ensures f.Absent? || f.Null? ==> r == Some(prior)
    ensures f.Given? ==> r == TimeAsWritten(parse, f, prior)
  {
    if f.Given? then TimeAsWritten(parse, f, prior) else Some(prior)
  }

  /** `EventDetailView.put` with a missing date key keeping the stored
      instant instead of raising. */
  function UpdateIntended(s: State, parse: Parser, caller: UserId, id: EventId, body: Body<EventInput>): (r: Reply)
    ensures r.status == Ok || r.status == Forbidden || r.status == ServerError
    ensures r.status == Forbidden <==> !HasRole(s.participants, caller, id, Owner)
    ensures r.status != Ok ==> r.state == s
    ensures r.state.participants == s.participants
  {
    var (event, isOwner) := CheckEventOwner(s, caller, id);
    if !isOwner then Reply(Forbidden, s)
    else if event.None? || body.NotObject? then Reply(ServerError, s)
    else
      var input := body.fields;
      ApplyEdit(s, id, input, TimeIntended(parse, input.start, event.value.start),
                TimeIntended(parse, input.end, event.value.end))
  }

  // ---------------------------------------------------------------------
  // EventDetailView.delete
  // ---------------------------------------------------------------------

  /** `EventDetailView.delete`: an owner deletes the event through
      `Event.delete`. */
  function Delete(s: State, caller: UserId, id: EventId): (r: Reply)
    ensures r.status == Ok || r.status == Forbidden || r.status == ServerError
    ensures r.status == Forbidden <==> !HasRole(s.participants, caller, id, Owner)
    ensures r.status != Ok ==> r.state == s
    ensures r.status == Ok ==> id in s.events && id !in r.state.events
  {
    var (event, isOwner) := CheckEventOwner(s, caller, id);
    if !isOwner then Reply(Forbidden, s)
    else if event.None? then Reply(ServerError, s)
    else Reply(Ok, DeleteEvent(s, id))
  }

  // ---------------------------------------------------------------------
  // BulkEventView.post
  // ---------------------------------------------------------------------

  datatype BulkBody = Items(items: seq<Body<EventInput>>) | NotList

  /** The `created_events` ids and the 1-based positions reported in `errors`. */
  datatype Report = Report(created: seq<EventId>, errors: seq<nat>)

  /** `report` is `None` when the response carries only an error message. */
  datatype BulkReply = BulkReply(status: Status, state: State, report: Option<Report>)

  /** One item of the validation loop: the instance queued for creation, or
      `None` when the item is reported in `errors` (not an object, a falsy
      title, start_time or end_time, or a date on which the parser raises). */
  function BulkItem(parse: Parser, item: Body<EventInput>): (r: Option<Draft>)
    ensures r.None? <==>
      || item.NotObject?
      || !Truthy(Get(item.fields.title)) || !Truthy(Get(item.fields.start)) || !Truthy(Get(item.fields.end))
      || parse(item.fields.start.value).Raises? || parse(item.fields.end.value).Raises?
    ensures r.Some? ==>
      r.value == Draft(Get(item.fields.title), Get(item.fields.description),
                       parse(item.fields.start.value).AsTime(), parse(item.fields.end.value).AsTime(),
                       Get(item.fields.location), GetOr(item.fields.isRecurring, false), Get(item.fields.pattern))
  {
    match item
    case NotObject => None
    case Object(input) =>
      if !Truthy(Get(input.title)) || !Truthy(Get(input.start)) || !Truthy(Get(input.end)) then None
      else CreationDraft(parse, input)
  }

  datatype Screened = Screened(drafts: seq<Draft>, errors: seq<nat>)

  /** The validation loop over `items`, whose first element has 0-based
      position `from` in the request. */
  function Screen(parse: Parser, items: seq<Body<EventInput>>, from: nat): (r: Screened)
    ensures |r.drafts| + |r.errors| == |items|
    ensures forall k | 0 <= k < |r.errors| :: from < r.errors[k] <= from + |items|
    ensures forall k, l | 0 <= k < l < |r.errors| :: r.errors[k] < r.errors[l]
    decreases |items|
  {
    if items == [] then Screened([], [])
    else
      var rest := Screen(parse, items[1..], from + 1);
      match BulkItem(parse, items[0])
      case None => Screened(rest.drafts, [from + 1] + rest.errors)
      case Some(d) => Screened([d] + rest.drafts, rest.errors)
  }

  /** `Event.objects.bulk_create`: every instance is written, or none when
      one of them violates a NOT NULL constraint. */
  function StoreAll(drafts: seq<Draft>): (r: Option<seq<Event>>)
    ensures r.Some? <==> forall j | 0 <= j < |drafts| :: Storable(drafts[j])
    ensures r.Some? ==> |r.value| == |drafts| && forall j | 0 <= j < |drafts| :: Store(drafts[j]) == Some(r.value[j])
  {
    if forall j | 0 <= j < |drafts| :: Storable(drafts[j]) then
      Some(seq(|drafts|, j requires 0 <= j < |drafts| => Store(drafts[j]).value))
    else None
  }

  /** The ids `first`, `first + 1`, ... given to `n` inserted events. */
  function Ids(first: EventId, n: nat): (r: seq<EventId>)
    ensures |r| == n
    ensures forall j | 0 <= j < n :: r[j] == first + j
    ensures forall id :: id in r <==> first <= id < first + n
  {
    var r := seq(n, j requires 0 <= j < n => first + j);
    assert forall id | first <= id < first + n :: id in r by {
      forall id | first <= id < first + n
        ensures id in r
      {
        assert r[id - first] == id;
      }
    }
    r
  }

  /** The event table after `evs` are inserted with consecutive ids. */
  function AddEvents(events: map<EventId, Event>, first: EventId, evs: seq<Event>): (r: map<EventId, Event>)
    ensures forall j | 0 <= j < |evs| :: first + j in r && r[first + j] == evs[j]
    ensures forall id :: id in r <==> id in events || first <= id < first + |evs|
    ensures forall id | id in events && !(first <= id < first + |evs|) :: r[id] == events[id]
  {
    var added := set id | id in Ids(first, |evs|);
    map id | id in events.Keys + added :: if first <= id < first + |evs| then evs[id - first] else events[id]
  }

  /** One OWNER row for the caller per created event. */
  function OwnerRows(caller: UserId, first: EventId, n: nat): (r: Table)
    ensures |r| == n
  {
    seq(n, j requires 0 <= j < n => Participant(caller, first + j, Owner))
  }

  /** `BulkEventView.post`. */
  function BulkCreate(s: State, parse: Parser, caller: UserId, body: BulkBody): (r: BulkReply)
    ensures body.NotList? ==> r == BulkReply(BadRequest, s, None)
    ensures r.status == Created || r.status == BadRequest
    ensures r.state.cache == s.cache && r.state.users == s.users
  {
    match body
    case NotList => BulkReply(BadRequest, s, None)
    case Items(items) => BulkCommit(s, caller, Screen(parse, items, 0))
  }

  /** Lines 208-225, after the validation loop: one insert of the queued
      instances, then one insert of an OWNER row per created event.
      `bulk_create` calls no `save`, so no cache key is deleted. */
  function BulkCommit(s: State, caller: UserId, screened: Screened): (r: BulkReply)
    ensures r.status == Created || r.status == BadRequest
    ensures r.state.cache == s.cache && r.state.users == s.users
    ensures r.report.None? ==> r.state.participants == s.participants
  {
    match StoreAll(screened.drafts)
    case None => BulkReply(BadRequest, s, None)
    case Some(evs) =>
      var s1 := s.(events := AddEvents(s.events, s.nextId, evs), nextId := s.nextId + |evs|);
      match InsertRows(s1.participants, OwnerRows(caller, s.nextId, |evs|))
      case None => BulkReply(BadRequest, s1, None)
      case Some(rows) =>
        BulkReply(if |evs| > 0 then Created else BadRequest, s1.(participants := rows),
                  Some(Report(Ids(s.nextId, |evs|), screened.errors)))
  }

  // ---------------------------------------------------------------------
  // EventViewShare.post: share
  // ---------------------------------------------------------------------

  datatype ShareEntry = ShareEntry(userId: Json<int>, role: Json<string>)

  /** The `users` key of a share body; `null` reads as a non-list. */
  datatype UsersField = UsersMissing | UsersList(entries: seq<Body<ShareEntry>>) | UsersNotList

  datatype Grant = Grant(user: UserId, role: string)

  /** One entry of the share loop: the grant it asks for, or `None` when it
      ends the loop with 400 (not an object, a falsy `user_id`, a role that
      is not a choice, or an id with no user). */
  function CheckEntry(users: set<UserId>, entry: Body<ShareEntry>): (r: Option<Grant>)
    ensures r.Some? <==>
      && entry.Object? && entry.fields.userId.Given? && entry.fields.userId.value != 0
      && entry.fields.userId.value in users
      && entry.fields.role.Given? && IsRoleChoice(entry.fields.role.value)
    ensures r.Some? ==> r.value == Grant(entry.fields.userId.value, entry.fields.role.value)
  {
    match entry
    case NotObject => None
    case Object(ShareEntry(userId, role)) =>
      var u := Get(userId);
      var rl := Get(role);
      if u.None? || u.value == 0 || rl.None? || !IsRoleChoice(rl.value) then None
      else if u.value !in users then None
      else Some(Grant(u.value, rl.value))
  }

  /** `update_or_create` of a row of event `id`, then the row's `save`. */
  function GrantRole(s: State, id: EventId, g: Grant): (r: State)
    ensures HasRole(r.participants, g.user, id, g.role)
    ensures r.events == s.events && r.users == s.users && r.nextId == s.nextId
  {
    SaveParticipants(s, Upsert(s.participants, g.user, id, g.role), id)
  }

  /** The loop over the entries: entries naming the caller are skipped; the
      first rejected entry ends it with 400 and the grants made before it
      stay in place (no transaction). */
  function ShareLoop(s: State, caller: UserId, id: EventId, entries: seq<Body<ShareEntry>>): (r: Reply)
    ensures r.status == Ok || r.status == BadRequest
    ensures r.state.events == s.events && r.state.users == s.users && r.state.nextId == s.nextId
    ensures r.state.cache <= s.cache
    decreases |entries|
  {
    if entries == [] then Reply(Ok, s)
    else match CheckEntry(s.users, entries[0])
      case None => Reply(BadRequest, s)
      case Some(g) =>
        var s' := if g.user == caller then s else GrantRole(s, id, g);
        ShareLoop(s', caller, id, entries[1..])
  }

  /** `EventViewShare.post`: the list check comes before the owner check. */
  function Share(s: State, caller: UserId, id: EventId, body: Body<UsersField>): (r: Reply)
    ensures r.status != Ok && r.status != BadRequest ==> r.state == s
    ensures r.state.events == s.events && r.state.users == s.users && r.state.nextId == s.nextId
  {
    if body.NotObject? then Reply(ServerError, s)
    else if body.fields.UsersNotList? then Reply(BadRequest, s)
    else
      var (_, isOwner) := CheckEventOwner(s, caller, id);
      if !isOwner then Reply(Forbidden, s)
      else ShareLoop(s, caller, id, if body.fields.UsersList? then body.fields.entries else [])
  }

  /** `EventViewShare.get` (and the list a successful share returns): the
      rows of the event, for any caller. */
  function ListPermissions(s: State, id: EventId): (r: Table)
    ensures forall p :: p in r <==> p in s.participants && p.event == id
  {
    EventRows(s.participants, id)
  }

  // ---------------------------------------------------------------------
  // EventViewShare.put / delete: permission update and removal
  // ---------------------------------------------------------------------

  /** `EventViewShare.put`: owner check (403), then target row (404), then
      the requested role (400); the body is the `role` key. */
  function UpdatePermission(s: State, caller: UserId, id: EventId, target: UserId, body: Body<Json<string>>): (r: Reply)
    ensures r.status != Ok ==> r.state == s
    ensures r.status == Ok ==> r.state.cache == s.cache - {ParticipantsKey(id)}
  {
    if !HasRole(s.participants, caller, id, Owner) then Reply(Forbidden, s)
    else if !IsParticipant(s.participants, target, id) then Reply(NotFound, s)
    else if body.NotObject? then Reply(ServerError, s)
    else
      var role := Get(body.fields);
      if role.Some? && IsRoleChoice(role.value) then
        Reply(Ok, SaveParticipants(s, WithRole(s.participants, target, id, role.value), id))
      else Reply(BadRequest, s)
  }

  /** The removal handler with the role its owner check looks for as a
      parameter: owner check (403), self-removal (400), target row (404). */
  function RemoveWith(s: State, ownerRole: string, caller: UserId, id: EventId, target: UserId): (r: Reply)
    ensures r.status != Ok ==> r.state == s
    ensures r.status == Ok ==> r.state.participants == WithoutRow(s.participants, target, id)
  {
    if !HasRole(s.participants, caller, id, ownerRole) then Reply(Forbidden, s)
    else if caller == target then Reply(BadRequest, s)
    else if !IsParticipant(s.participants, target, id) then Reply(NotFound, s)
    else Reply(Ok, SaveParticipants(s, WithoutRow(s.participants, target, id), id))
  }

  /** `EventViewShare.delete` as written: the owner check filters on
      `role='O'`. */
  function RemovePermission(s: State, caller: UserId, id: EventId, target: UserId): (r: Reply)
    ensures r.status != Ok ==> r.state == s
  {
    RemoveWith(s, "O", caller, id, target)
  }

  /** `EventViewShare.delete` with the owner check on `role='OWNER'`, as
      every other owner check in the handlers reads. */
  function RemovePermissionIntended(s: State, caller: UserId, id: EventId, target: UserId): (r: Reply)
    ensures r.status == Forbidden <==> !HasRole(s.participants, caller, id, Owner)
    ensures r.status != Ok ==> r.state == s
  {
    RemoveWith(s, Owner, caller, id, target)
  }
}
