/** Properties of the sharing endpoints: granting roles to a list of users,
    listing an event's permissions, changing one user's role. */
module Sharing {
  import opened Base
  import opened Models
  import opened Views

  // ---------------------------------------------------------------------
  // Share
  // ---------------------------------------------------------------------

  /** The 403 of a share: a request with a usable `users` value from someone
      who is not an OWNER of the event. Such a request changes nothing. */
  lemma ShareRequiresOwner(s: State, caller: UserId, id: EventId, body: Body<UsersField>)
    ensures Share(s, caller, id, body).status == Forbidden <==>
      body.Object? && !body.fields.UsersNotList? && !HasRole(s.participants, caller, id, Owner)
    ensures !HasRole(s.participants, caller, id, Owner) ==> Share(s, caller, id, body).state == s
  {
  }

  /** The share loop keeps the table unique, never changes the caller's own
      role on any event, never touches another event's rows, and deletes at
      most the event's participant-list key. */
  lemma {:induction false} ShareLoopFacts(s: State, caller: UserId, id: EventId, entries: seq<Body<ShareEntry>>)
    requires Unique(s.participants)
    ensures var r := ShareLoop(s, caller, id, entries).state;
      && Unique(r.participants)
      && (forall e :: RoleOf(r.participants, caller, e) == RoleOf(s.participants, caller, e))
      && (forall u, e | e != id :: RoleOf(r.participants, u, e) == RoleOf(s.participants, u, e))
      && (r.cache == s.cache || r.cache == s.cache - {ParticipantsKey(id)})
    decreases |entries|
  {
    if entries != [] {
      match CheckEntry(s.users, entries[0])
      case None =>
      case Some(g) =>
        if g.user == caller {
          ShareLoopFacts(s, caller, id, entries[1..]);
        } else {
          UpsertFacts(s.participants, g.user, id, g.role);
          ShareLoopFacts(GrantRole(s, id, g), caller, id, entries[1..]);
        }
    }
  }

  /** The share loop answers 200 exactly when every entry is acceptable. */
  lemma {:induction false} ShareOkIffAllValid(s: State, caller: UserId, id: EventId, entries: seq<Body<ShareEntry>>)
    ensures ShareLoop(s, caller, id, entries).status == Ok <==>
      forall k | 0 <= k < |entries| :: CheckEntry(s.users, entries[k]).Some?
    decreases |entries|
  {
    if entries != [] {
      match CheckEntry(s.users, entries[0])
      case None =>
      case Some(g) =>
        var next := if g.user == caller then s else GrantRole(s, id, g);
        ShareOkIffAllValid(next, caller, id, entries[1..]);
        assert forall k | 0 < k < |entries| :: entries[k] == entries[1..][k - 1];
    }
  }

  /** A rejected entry ends the loop with 400, and the grants of the entries
      before it stay in place: there is no transaction to roll back. */
  lemma {:induction false} ShareStopsAtFirstInvalid(s: State, caller: UserId, id: EventId,
                                                    done: seq<Body<ShareEntry>>, bad: Body<ShareEntry>,
                                                    rest: seq<Body<ShareEntry>>)
    requires forall k | 0 <= k < |done| :: CheckEntry(s.users, done[k]).Some?
    requires CheckEntry(s.users, bad).None?
    ensures ShareLoop(s, caller, id, done + [bad] + rest) ==
      Reply(BadRequest, ShareLoop(s, caller, id, done).state)
    decreases |done|
  {
    var all := done + [bad] + rest;
    if done == [] {
      assert all[0] == bad;
    } else {
      assert all[0] == done[0];
      assert all[1..] == done[1..] + [bad] + rest;
      var g := CheckEntry(s.users, done[0]).value;
      var next := if g.user == caller then s else GrantRole(s, id, g);
      forall k | 0 <= k < |done[1..]|
        ensures CheckEntry(next.users, done[1..][k]).Some?
      {
        assert done[1..][k] == done[k + 1];
      }
      ShareStopsAtFirstInvalid(next, caller, id, done[1..], bad, rest);
    }
  }

  /** The role the last acceptable entry naming `u` asks for, if any: a
      later entry for the same user overrides an earlier one. */
  function LastRequested(users: set<UserId>, entries: seq<Body<ShareEntry>>, u: UserId): (r: Option<string>)
    ensures r.Some? ==> exists k | 0 <= k < |entries| :: CheckEntry(users, entries[k]) == Some(Grant(u, r.value))
    decreases |entries|
  {
    if entries == [] then None
    else
      var later := LastRequested(users, entries[1..], u);
      if later.Some? then
        assert exists k | 0 < k < |entries| :: CheckEntry(users, entries[k]) == Some(Grant(u, later.value)) by {
          var k :| 0 <= k < |entries[1..]| && CheckEntry(users, entries[1..][k]) == Some(Grant(u, later.value));
          assert entries[k + 1] == entries[1..][k];
        }
        later
      else match CheckEntry(users, entries[0])
        case Some(g) => if g.user == u then Some(g.role) else None
        case None => None
  }

  /** After a fully accepted share, every user other than the caller holds
      the role of the last entry naming them, or the role they had before
      when no entry names them. */
  lemma {:induction false} ShareLastRoleWins(s: State, caller: UserId, id: EventId,
                                             entries: seq<Body<ShareEntry>>, u: UserId)
    requires Unique(s.participants)
    requires forall k | 0 <= k < |entries| :: CheckEntry(s.users, entries[k]).Some?
    requires u != caller
    ensures var requested := LastRequested(s.users, entries, u);
      RoleOf(ShareLoop(s, caller, id, entries).state.participants, u, id) ==
        if requested.Some? then requested else RoleOf(s.participants, u, id)
    decreases |entries|
  {
    if entries != [] {
      var g := CheckEntry(s.users, entries[0]).value;
      var next := if g.user == caller then s else GrantRole(s, id, g);
      if g.user != caller {
        UpsertFacts(s.participants, g.user, id, g.role);
      }
      forall k | 0 <= k < |entries[1..]|
        ensures CheckEntry(next.users, entries[1..][k]).Some?
      {
        assert entries[1..][k] == entries[k + 1];
      }
      ShareLastRoleWins(next, caller, id, entries[1..], u);
    }
  }

  // ---------------------------------------------------------------------
  // Permission list
  // ---------------------------------------------------------------------

  /** The permission list of an event names each participant once. */
  lemma PermissionListOnePerUser(s: State, id: EventId)
    requires Unique(s.participants)
    ensures var l := ListPermissions(s, id);
      && (forall i | 0 <= i < |l| :: l[i].event == id)
      && (forall i, j | 0 <= i < j < |l| :: l[i].user != l[j].user)
  {
    var l := ListPermissions(s, id);
    FilterUnique(s.participants, (p: Participant) => p.event == id);
    forall i | 0 <= i < |l|
      ensures l[i].event == id
    {
      assert l[i] in l;
    }
  }

  // ---------------------------------------------------------------------
  // Permission update
  // ---------------------------------------------------------------------

  /** The checks of a role change, in order: only an OWNER (403), only for a
      participant of the event (404), only to one of the three roles (400). */
  lemma UpdatePermissionChecks(s: State, caller: UserId, id: EventId, target: UserId, body: Body<Json<string>>)
    ensures var r := UpdatePermission(s, caller, id, target, body);
      && (r.status == Forbidden <==> !HasRole(s.participants, caller, id, Owner))
      && (r.status == NotFound <==>
            HasRole(s.participants, caller, id, Owner) && !IsParticipant(s.participants, target, id))
      && (r.status == Ok <==>
            && HasRole(s.participants, caller, id, Owner) && IsParticipant(s.participants, target, id)
            && body.Object? && body.fields.Given? && IsRoleChoice(body.fields.value))
      && (r.status == BadRequest <==>
            && HasRole(s.participants, caller, id, Owner) && IsParticipant(s.participants, target, id)
            && body.Object? && !(body.fields.Given? && IsRoleChoice(body.fields.value)))
  {
  }

  /** A role change sets the target's role on the event and nothing else:
      no row is added or removed, every other pair keeps its role, and only
      the event's participant-list key is deleted. */
  lemma UpdatePermissionOutcome(s: State, caller: UserId, id: EventId, target: UserId, body: Body<Json<string>>)
    requires Unique(s.participants)
    requires UpdatePermission(s, caller, id, target, body).status == Ok
    ensures body.Object? && body.fields.Given?
    ensures var r := UpdatePermission(s, caller, id, target, body).state;
      && Unique(r.participants)
      && |r.participants| == |s.participants|
      && RoleOf(r.participants, target, id) == Some(body.fields.value)
      && (forall v, f | v != target || f != id :: RoleOf(r.participants, v, f) == RoleOf(s.participants, v, f))
      && r.events == s.events && r.users == s.users && r.nextId == s.nextId
  {
    WithRoleFacts(s.participants, target, id, body.fields.value);
  }

  /** An owner may change their own role: nothing stops the only owner from
      demoting themselves, after which they can no longer update, delete or
      share the event. */
  lemma SelfDemotion(s: State, parse: Parser, caller: UserId, id: EventId, role: string,
                     edit: Body<EventInput>, users: Body<UsersField>)
    requires Unique(s.participants)
    requires HasRole(s.participants, caller, id, Owner)
    requires role == Editor || role == Viewer
    requires users.Object? && !users.fields.UsersNotList?
    ensures var r := UpdatePermission(s, caller, id, caller, Object(Given(role)));
      && r.status == Ok
      && RoleOf(r.state.participants, caller, id) == Some(role)
      && Update(r.state, parse, caller, id, edit).status == Forbidden
      && Delete(r.state, caller, id).status == Forbidden
      && Share(r.state, caller, id, users).status == Forbidden
  {
    var i :| 0 <= i < |s.participants| && s.participants[i] == Participant(caller, id, Owner);
    assert IsParticipant(s.participants, caller, id);
    var r := UpdatePermission(s, caller, id, caller, Object(Given(role)));
    UpdatePermissionOutcome(s, caller, id, caller, Object(Given(role)));
    RoleOfUnique(r.state.participants, caller, id, Owner);
  }
}
