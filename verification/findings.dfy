/** Two places where the handlers do not do what they evidently mean to,
    each shown on the handler as written and proved fixed on the intended
    one. */
module Findings {
  import opened Base
  import opened Models
  import opened Views

  // ---------------------------------------------------------------------
  // Removal looks for role 'O'
  // ---------------------------------------------------------------------

  /** As written, the removal handler's owner check asks for a row with role
      `'O'`, which no writer stores: on a valid store every removal is
      refused with 403 and changes nothing. */
  lemma RemovalAlwaysForbidden(s: State, caller: UserId, id: EventId, target: UserId)
    requires Valid(s)
    ensures RemovePermission(s, caller, id, target) == Reply(Forbidden, s)
  {
    assert !IsRoleChoice("O");
    assert Participant(caller, id, "O") !in s.participants;
  }

  /** A store with event 0 owned by user 1 and viewed by user 2. */
  function OwnerAndViewer(): (s: State)
    ensures Valid(s)
  {
    var ev := Event("standup", "", 0, 1, "", false, None);
    var s := State({1, 2}, map[0 := ev], [Participant(1, 0, Owner), Participant(2, 0, Viewer)], {}, 1);
    assert IsRoleChoice(Owner) && IsRoleChoice(Viewer);
    s
  }

  /** The owner of event 0 asks to remove the viewer: the handler as written
      answers 403 and keeps the row; the intended one removes it. */
  lemma RemovalCounterexample()
    ensures var s := OwnerAndViewer();
      && RemovePermission(s, 1, 0, 2) == Reply(Forbidden, s)
      && RemovePermissionIntended(s, 1, 0, 2).status == Ok
      && !IsParticipant(RemovePermissionIntended(s, 1, 0, 2).state.participants, 2, 0)
  {
    var s := OwnerAndViewer();
    RemovalAlwaysForbidden(s, 1, 0, 2);
    assert s.participants[1].user == 2 && s.participants[1].event == 0;
    assert Participant(1, 0, Owner) == s.participants[0];
    var r := RemovePermissionIntended(s, 1, 0, 2).state.participants;
    forall i | 0 <= i < |r|
      ensures r[i].user != 2 || r[i].event != 0
    {
      assert r[i] in r;
    }
  }

  /** The intended removal: an owner removes another participant's row of
      the event, and only that row; it refuses a non-owner (403), the owner
      themselves (400) and a user without a row (404). */
  lemma RemovalIntendedOutcome(s: State, caller: UserId, id: EventId, target: UserId)
    ensures var r := RemovePermissionIntended(s, caller, id, target);
      && (r.status == Ok <==>
            HasRole(s.participants, caller, id, Owner) && caller != target
            && IsParticipant(s.participants, target, id))
      && (r.status == BadRequest <==> HasRole(s.participants, caller, id, Owner) && caller == target)
      && (r.status == NotFound <==>
            HasRole(s.participants, caller, id, Owner) && caller != target
            && !IsParticipant(s.participants, target, id))
      && (r.status == Ok ==>
            && !IsParticipant(r.state.participants, target, id)
            && (forall p :: p in r.state.participants <==>
                  p in s.participants && (p.user != target || p.event != id))
            && HasRole(r.state.participants, caller, id, Owner)
            && r.state.events == s.events
            && r.state.cache == s.cache - {ParticipantsKey(id)})
  {
    var r := RemovePermissionIntended(s, caller, id, target);
    if r.status == Ok {
      var rows := r.state.participants;
      forall i | 0 <= i < |rows|
        ensures rows[i].user != target || rows[i].event != id
      {
        assert rows[i] in rows;
      }
    }
  }

  // ---------------------------------------------------------------------
  // A partial update raises on the missing date
  // ---------------------------------------------------------------------

  /** An update body naming only the title. */
  function TitleOnly(title: string): EventInput {
    EventInput(Given(title), Absent, Absent, Absent, Absent, Absent, Absent)
  }

  /** As written, an owner's update that leaves out `start_time` (or
      `end_time`) hands `None` to the date parser, which raises: 500, and
      nothing is saved. */
  lemma PartialUpdateAsWritten(s: State, parse: Parser, caller: UserId, id: EventId, input: EventInput)
    requires HasRole(s.participants, caller, id, Owner) && id in s.events
    requires input.start.Absent? || input.end.Absent?
    ensures Update(s, parse, caller, id, Object(input)) == Reply(ServerError, s)
  {
  }

  /** So a title-only update by the owner fails as written, while the
      intended handler saves the event with the new title and every other
      field kept. */
  lemma TitleOnlyUpdate(s: State, parse: Parser, caller: UserId, id: EventId, title: string)
    requires HasRole(s.participants, caller, id, Owner) && id in s.events
    ensures Update(s, parse, caller, id, Object(TitleOnly(title))).status == ServerError
    ensures UpdateIntended(s, parse, caller, id, Object(TitleOnly(title))) ==
      Reply(Ok, SaveEvent(s, id, s.events[id].(title := title)))
  {
    var prior := s.events[id];
    var d := EditedDraft(prior, TitleOnly(title), prior.start, prior.end);
    assert Store(d) == Some(prior.(title := title));
  }

  /** The intended update keeps a stored instant when its key is missing or
      null, and otherwise behaves like the handler as written. */
  lemma PartialUpdateIntended(s: State, parse: Parser, caller: UserId, id: EventId, input: EventInput)
    requires UpdateIntended(s, parse, caller, id, Object(input)).status == Ok
    ensures id in s.events
    ensures var ev := UpdateIntended(s, parse, caller, id, Object(input)).state.events[id];
      && (!input.start.Given? ==> ev.start == s.events[id].start)
      && (!input.end.Given? ==> ev.end == s.events[id].end)
  {
    var prior := s.events[id];
    var d := EditedDraft(prior, input, TimeIntended(parse, input.start, prior.start).value,
                         TimeIntended(parse, input.end, prior.end).value);
    assert ToDraft(Store(d).value) == d;
  }

  /** Wherever the handler as written succeeds, the intended one does the
      same thing: the correction only changes the requests that used to
      fail. */
  lemma UpdateIntendedAgrees(s: State, parse: Parser, caller: UserId, id: EventId, body: Body<EventInput>)
    requires Update(s, parse, caller, id, body).status != ServerError
    ensures UpdateIntended(s, parse, caller, id, body) == Update(s, parse, caller, id, body)
  {
  }
}
