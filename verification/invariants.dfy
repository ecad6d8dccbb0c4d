/** Every write path keeps the store valid: participant rows unique per
    (user, event), with a role among the three choices, for an existing
    event and user, and every event id below the next one handed out. */
module Invariants {
  import opened Base
  import opened Models
  import opened Views
  import Lifecycle
  import BulkFacts
  import Sharing

  /** Under `Valid`, an OWNER row means the event exists. */
  lemma OwnedEventExists(s: State, caller: UserId, id: EventId)
    requires Valid(s)
    requires HasRole(s.participants, caller, id, Owner)
    ensures id in s.events
  {
    assert Participant(caller, id, Owner) in s.participants;
  }

  /** Create, called by a registered user. */
  lemma CreateKeepsValid(s: State, parse: Parser, caller: UserId, body: Body<EventInput>)
    requires Valid(s) && caller in s.users
    ensures Valid(Create(s, parse, caller, body).state)
  {
    Lifecycle.CreateOutcome(s, parse, caller, body);
    var r := Create(s, parse, caller, body);
    if r.status == Created {
      Lifecycle.NoRowsForNextId(s);
      AppendFreshUnique(s.participants, Participant(caller, s.nextId, Owner));
    }
  }

  lemma UpdateKeepsValid(s: State, parse: Parser, caller: UserId, id: EventId, body: Body<EventInput>)
    requires Valid(s)
    ensures Valid(Update(s, parse, caller, id, body).state)
  {
  }

  lemma UpdateIntendedKeepsValid(s: State, parse: Parser, caller: UserId, id: EventId, body: Body<EventInput>)
    requires Valid(s)
    ensures Valid(UpdateIntended(s, parse, caller, id, body).state)
  {
  }

  /** Delete: the cascade takes the event's rows with it, so no row is left
      pointing at the deleted event. */
  lemma DeleteKeepsValid(s: State, caller: UserId, id: EventId)
    requires Valid(s)
    ensures Valid(Delete(s, caller, id).state)
  {
    var r := Delete(s, caller, id);
    if r.status == Ok {
      FilterUnique(s.participants, (p: Participant) => p.event != id);
    }
  }

  /** Bulk creation, called by a registered user. */
  lemma BulkCreateKeepsValid(s: State, parse: Parser, caller: UserId, body: BulkBody)
    requires Valid(s) && caller in s.users
    ensures Valid(BulkCreate(s, parse, caller, body).state)
  {
    if body.Items? {
      var screened := Screen(parse, body.items, 0);
      var r := BulkCreate(s, parse, caller, body);
      assert r == BulkCommit(s, caller, screened);
      BulkFacts.CommitAllOrNothing(s, caller, screened);
      if r.report.Some? {
        var n := |screened.drafts|;
        BulkFacts.RowsBelowNextId(s);
        BulkFacts.CommitWrites(s, caller, screened);
        BulkFacts.InsertOwnerRows(s.participants, caller, s.nextId, n);
        InsertRowsUnique(s.participants, OwnerRows(caller, s.nextId, n));
        var owners := OwnerRows(caller, s.nextId, n);
        forall p | p in r.state.participants
          ensures IsRoleChoice(p.role) && p.event in r.state.events && p.user in r.state.users
        {
          if p !in s.participants {
            var j :| 0 <= j < n && owners[j] == p;
          }
        }
      }
    }
  }

  /** The share loop on an existing event. */
  lemma {:induction false} ShareLoopKeepsValid(s: State, caller: UserId, id: EventId, entries: seq<Body<ShareEntry>>)
    requires Valid(s) && id in s.events
    ensures Valid(ShareLoop(s, caller, id, entries).state)
    decreases |entries|
  {
    if entries != [] {
      match CheckEntry(s.users, entries[0])
      case None =>
      case Some(g) =>
        if g.user == caller {
          ShareLoopKeepsValid(s, caller, id, entries[1..]);
        } else {
          UpsertFacts(s.participants, g.user, id, g.role);
          UpsertRows(s.participants, g.user, id, g.role);
          ShareLoopKeepsValid(GrantRole(s, id, g), caller, id, entries[1..]);
        }
    }
  }

  lemma ShareKeepsValid(s: State, caller: UserId, id: EventId, body: Body<UsersField>)
    requires Valid(s)
    ensures Valid(Share(s, caller, id, body).state)
  {
    if body.Object? && !body.fields.UsersNotList? && HasRole(s.participants, caller, id, Owner) {
      OwnedEventExists(s, caller, id);
      ShareLoopKeepsValid(s, caller, id, if body.fields.UsersList? then body.fields.entries else []);
    }
  }

  lemma UpdatePermissionKeepsValid(s: State, caller: UserId, id: EventId, target: UserId, body: Body<Json<string>>)
    requires Valid(s)
    ensures Valid(UpdatePermission(s, caller, id, target, body).state)
  {
    var r := UpdatePermission(s, caller, id, target, body);
    if r.status == Ok {
      var role := body.fields.value;
      WithRoleFacts(s.participants, target, id, role);
      WithRoleRows(s.participants, target, id, role);
      var i :| 0 <= i < |s.participants| && s.participants[i].user == target && s.participants[i].event == id;
      assert s.participants[i] in s.participants;
    }
  }

  /** Both removal handlers: the one as written and the intended one. */
  lemma RemoveWithKeepsValid(s: State, ownerRole: string, caller: UserId, id: EventId, target: UserId)
    requires Valid(s)
    ensures Valid(RemoveWith(s, ownerRole, caller, id, target).state)
  {
    var r := RemoveWith(s, ownerRole, caller, id, target);
    if r.status == Ok {
      FilterUnique(s.participants, (p: Participant) => p.user != target || p.event != id);
    }
  }
}
