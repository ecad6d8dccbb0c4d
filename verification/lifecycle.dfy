/** Properties of the event endpoints: create, list, detail, update and
    delete. */
module Lifecycle {
  import opened Base
  import opened Models
  import opened Views

  // ---------------------------------------------------------------------
  // Create
  // ---------------------------------------------------------------------

  /** In a valid store no participant row refers to the id the next event
      receives. */
  lemma NoRowsForNextId(s: State)
    requires Valid(s)
    ensures forall u :: !IsParticipant(s.participants, u, s.nextId)
  {
    forall i | 0 <= i < |s.participants|
      ensures s.participants[i].event != s.nextId
    {
      assert s.participants[i] in s.participants;
    }
  }

  /** `clear_cache` on an event without participants deletes nothing. */
  lemma ClearCacheWithoutParticipants(cache: set<CacheKey>, rows: Table, e: EventId)
    requires forall u :: !IsParticipant(rows, u, e)
    ensures ClearCache(cache, rows, e) == cache
  {
  }

  /** A create request succeeds when every NOT NULL column gets a value:
      title, description and location present and not null, both dates
      present and parsed, and `is_recurring` not null (missing means false). */
  predicate CreateAccepts(parse: Parser, input: EventInput) {
    && input.title.Given? && input.description.Given? && input.location.Given?
    && input.start.Given? && parse(input.start.value).Parsed?
    && input.end.Given? && parse(input.end.value).Parsed?
    && !input.isRecurring.Null?
  }

  /** Create adds exactly one event under a fresh id and exactly one
      participant row, the caller as OWNER, and deletes only the new event's
      participant-list key; a failed create changes nothing. */
  lemma CreateOutcome(s: State, parse: Parser, caller: UserId, body: Body<EventInput>)
    requires Valid(s)
    ensures var r := Create(s, parse, caller, body);
      && (r.status == Created <==> body.Object? && CreateAccepts(parse, body.fields))
      && (r.status != Created ==> r.state == s)
      && (r.status == Created ==>
            && s.nextId !in s.events
            && r.state.events.Keys == s.events.Keys + {s.nextId}
            && (forall e | e in s.events :: r.state.events[e] == s.events[e])
            && r.state.participants == s.participants + [Participant(caller, s.nextId, Owner)]
            && r.state.cache == s.cache - {ParticipantsKey(s.nextId)}
            && r.state.users == s.users
            && r.state.nextId == s.nextId + 1)
  {
    NoRowsForNextId(s);
    ClearCacheWithoutParticipants(s.cache, s.participants, s.nextId);
  }

  /** The created event holds the values of the request. */
  lemma CreateRecordsRequest(s: State, parse: Parser, caller: UserId, input: EventInput)
    requires Create(s, parse, caller, Object(input)).status == Created
    ensures var ev := Create(s, parse, caller, Object(input)).state.events[s.nextId];
      && input.title == Given(ev.title)
      && input.description == Given(ev.description)
      && input.location == Given(ev.location)
      && input.start.Given? && parse(input.start.value) == Parsed(ev.start)
      && input.end.Given? && parse(input.end.value) == Parsed(ev.end)
      && ev.isRecurring == (input.isRecurring.Given? && input.isRecurring.value)
      && ev.pattern == Get(input.pattern)
  {
    var d := CreationDraft(parse, input).value;
    assert ToDraft(Store(d).value) == d;
  }

  // ---------------------------------------------------------------------
  // List and detail
  // ---------------------------------------------------------------------

  /** The unfiltered list holds exactly the events whose detail the caller
      can read. */
  lemma ListedIffReadable(s: State, caller: UserId, id: EventId)
    ensures id in ListEvents(s, caller, None) <==> Detail(s, caller, id).0 == Ok
  {
  }

  /** Someone without a participant row gets 404 for the detail and never
      sees the event in a list. */
  lemma NonParticipantSeesNothing(s: State, caller: UserId, id: EventId, title: Option<string>)
    requires !IsParticipant(s.participants, caller, id)
    ensures Detail(s, caller, id) == (NotFound, None)
    ensures id !in ListEvents(s, caller, title)
  {
  }

  /** Every text contains the empty query. */
  lemma EmptyQueryMatches(t: string)
    ensures ContainsIgnoreCase(t, "")
  {
    assert MatchesAt(t, "", 0);
  }

  /** A title filter keeps exactly the listed events whose title contains
      the query up to case; an empty query keeps them all. */
  lemma TitleFilter(s: State, caller: UserId, q: string, id: EventId)
    ensures id in ListEvents(s, caller, Some(q)) <==>
      id in ListEvents(s, caller, None) && ContainsIgnoreCase(s.events[id].title, q)
  {
    if id in s.events {
      EmptyQueryMatches(s.events[id].title);
    }
  }

  lemma FoldIdempotent(t: string)
    ensures Fold(Fold(t)) == Fold(t)
  {
  }

  /** The letter case of the query does not matter. */
  lemma QueryCaseIrrelevant(t: string, q: string)
    ensures ContainsIgnoreCase(t, q) <==> ContainsIgnoreCase(t, Fold(q))
  {
    FoldIdempotent(q);
    if ContainsIgnoreCase(t, q) {
      var i :| 0 <= i <= |t| - |q| && MatchesAt(t, q, i);
      assert MatchesAt(t, Fold(q), i);
    }
    if ContainsIgnoreCase(t, Fold(q)) {
      var i :| 0 <= i <= |t| - |Fold(q)| && MatchesAt(t, Fold(q), i);
      assert MatchesAt(t, q, i);
    }
  }

  /** A query that occurs in the title verbatim matches it. */
  lemma SubstringMatches(t: string, q: string, i: nat)
    requires i + |q| <= |t| && t[i..i + |q|] == q
    ensures ContainsIgnoreCase(t, q)
  {
    assert Fold(t)[i..i + |q|] == Fold(q) by {
      forall k | 0 <= k < |q|
        ensures Fold(t)[i..i + |q|][k] == Fold(q)[k]
      {
        assert t[i + k] == q[k];
      }
    }
    assert MatchesAt(t, q, i);
  }

  // ---------------------------------------------------------------------
  // Update
  // ---------------------------------------------------------------------

  /** A key is kept when missing and takes the request's value otherwise. */
  predicate KeptOrSet<T(==)>(f: Json<T>, prior: T, now: T) {
    (f.Absent? && now == prior) || f == Given(now)
  }

  /** A date takes the parsed value, or keeps the stored one when the
      supplied string does not parse. */
  predicate TimeKeptOrSet(p: Parsed, prior: Time, now: Time) {
    p == Parsed(now) || (p == NoMatch && now == prior)
  }

  /** What an update body must carry for the handler as written: both
      dates as strings on which the parser does not raise, and no null for
      a NOT NULL column. */
  predicate UpdateAccepts(parse: Parser, input: EventInput) {
    && input.start.Given? && !parse(input.start.value).Raises?
    && input.end.Given? && !parse(input.end.value).Raises?
    && !input.title.Null? && !input.description.Null?
    && !input.location.Null? && !input.isRecurring.Null?
  }

  /** An update succeeds exactly for an owner of an existing event with an
      acceptable body. */
  lemma UpdateSucceedsIff(s: State, parse: Parser, caller: UserId, id: EventId, body: Body<EventInput>)
    ensures Update(s, parse, caller, id, body).status == Ok <==>
      && HasRole(s.participants, caller, id, Owner) && id in s.events
      && body.Object? && UpdateAccepts(parse, body.fields)
  {
  }

  /** A successful update rewrites only the target event, field by field as
      the request says, leaves the participants alone, and deletes the detail
      keys of the event's participants. */
  lemma UpdateEffect(s: State, parse: Parser, caller: UserId, id: EventId, body: Body<EventInput>)
    requires Update(s, parse, caller, id, body).status == Ok
    ensures id in s.events && body.Object?
    ensures var r := Update(s, parse, caller, id, body);
      var prior := s.events[id];
      var ev := r.state.events[id];
      var input := body.fields;
      && r.state.events == s.events[id := ev]
      && r.state.participants == s.participants
      && r.state.users == s.users && r.state.nextId == s.nextId
      && r.state.cache == ClearCache(s.cache, s.participants, id)
      && KeptOrSet(input.title, prior.title, ev.title)
      && KeptOrSet(input.description, prior.description, ev.description)
      && KeptOrSet(input.location, prior.location, ev.location)
      && KeptOrSet(input.isRecurring, prior.isRecurring, ev.isRecurring)
      && ((input.pattern.Absent? && ev.pattern == prior.pattern)
          || (input.pattern.Null? && ev.pattern.None?)
          || (input.pattern.Given? && ev.pattern == Some(input.pattern.value)))
      && input.start.Given? && TimeKeptOrSet(parse(input.start.value), prior.start, ev.start)
      && input.end.Given? && TimeKeptOrSet(parse(input.end.value), prior.end, ev.end)
  {
    var r := Update(s, parse, caller, id, body);
    var input := body.fields;
    var prior := s.events[id];
    var d := EditedDraft(prior, input, TimeAsWritten(parse, input.start, prior.start).value,
                         TimeAsWritten(parse, input.end, prior.end).value);
    assert ToDraft(Store(d).value) == d;
  }

  // ---------------------------------------------------------------------
  // Delete
  // ---------------------------------------------------------------------

  /** Only an owner can delete. A delete removes the event and every
      participant row that refers to it, keeps every other event and row,
      and deletes only the detail keys of the participants the event had
      when it was deleted; its participant-list key stays. */
  lemma DeleteOutcome(s: State, caller: UserId, id: EventId)
    requires Valid(s)
    ensures var r := Delete(s, caller, id);
      && (r.status == Ok <==> HasRole(s.participants, caller, id, Owner))
      && (r.status != Ok ==> r.status == Forbidden && r.state == s)
      && (r.status == Ok ==>
            && r.state.events == s.events - {id}
            && (forall p :: p in r.state.participants <==> p in s.participants && p.event != id)
            && (forall u :: !IsParticipant(r.state.participants, u, id))
            && (forall u :: IsParticipant(s.participants, u, id) ==> DetailKey(id, u) !in r.state.cache)
            && (forall k | k in s.cache && !(k.DetailKey? && k.event == id && IsParticipant(s.participants, k.user, id)) ::
                  k in r.state.cache)
            && r.state.cache <= s.cache)
  {
    var r := Delete(s, caller, id);
    if HasRole(s.participants, caller, id, Owner) {
      assert Participant(caller, id, Owner) in s.participants;
    }
    if r.status == Ok {
      forall i | 0 <= i < |r.state.participants|
        ensures r.state.participants[i].event != id
      {
        assert r.state.participants[i] in r.state.participants;
      }
    }
  }

  /** Why `clear_cache` runs before the row is deleted: after the cascade
      the event has no participants left, so clearing then would delete
      nothing. */
  lemma ClearingAfterCascadeIsNoop(s: State, id: EventId)
    ensures ClearCache(s.cache, WithoutEvent(s.participants, id), id) == s.cache
  {
    var rows := WithoutEvent(s.participants, id);
    forall i | 0 <= i < |rows|
      ensures rows[i].event != id
    {
      assert rows[i] in rows;
    }
  }
}
