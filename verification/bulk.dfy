/** Properties of bulk creation: which items are reported, which are
    created, in what order, and with which participant rows. */
module BulkFacts {
  import opened Base
  import opened Models
  import opened Views

  /** The number of items the validation loop queues for creation. */
  function CountValid(parse: Parser, items: seq<Body<EventInput>>): nat {
    if items == [] then 0
    else (if BulkItem(parse, items[0]).Some? then 1 else 0) + CountValid(parse, items[1..])
  }

  /** The first item is reported, at position `from + 1`, exactly when it
      is rejected. */
  lemma ScreenHead(parse: Parser, items: seq<Body<EventInput>>, from: nat)
    requires items != []
    ensures from + 1 in Screen(parse, items, from).errors <==> BulkItem(parse, items[0]).None?
  {
    var rest := Screen(parse, items[1..], from + 1);
    forall k | 0 <= k < |rest.errors|
      ensures rest.errors[k] != from + 1
    {
    }
  }

  /** A later position is reported exactly when the rest of the loop reports it. */
  lemma ScreenTail(parse: Parser, items: seq<Body<EventInput>>, from: nat, x: nat)
    requires items != [] && x != from + 1
    ensures x in Screen(parse, items, from).errors <==> x in Screen(parse, items[1..], from + 1).errors
  {
  }

  /** Exactly the rejected items are reported, by their 1-based position. */
  lemma {:induction false} ScreenErrors(parse: Parser, items: seq<Body<EventInput>>, from: nat, i: nat)
    requires i < |items|
    ensures from + i + 1 in Screen(parse, items, from).errors <==> BulkItem(parse, items[i]).None?
    decreases |items|
  {
    if i == 0 {
      ScreenHead(parse, items, from);
    } else {
      ScreenTail(parse, items, from, from + i + 1);
      assert items[1..][i - 1] == items[i];
      ScreenErrors(parse, items[1..], from + 1, i - 1);
    }
  }

  /** Every accepted item is queued, and none other. */
  lemma {:induction false} ScreenCount(parse: Parser, items: seq<Body<EventInput>>, from: nat)
    ensures |Screen(parse, items, from).drafts| == CountValid(parse, items)
    decreases |items|
  {
    if items != [] {
      ScreenCount(parse, items[1..], from + 1);
    }
  }

  /** Accepted items are queued in input order: the one with `k` accepted
      items before it is the `k`-th queued instance. */
  lemma {:induction false} ScreenKeepsOrder(parse: Parser, items: seq<Body<EventInput>>, from: nat, i: nat)
    requires i < |items| && BulkItem(parse, items[i]).Some?
    ensures var drafts := Screen(parse, items, from).drafts;
      && CountValid(parse, items[..i]) < |drafts|
      && drafts[CountValid(parse, items[..i])] == BulkItem(parse, items[i]).value
    decreases |items|
  {
    var rest := Screen(parse, items[1..], from + 1);
    if i == 0 {
      assert items[..0] == [];
    } else {
      assert items[1..][i - 1] == items[i];
      assert items[..i][1..] == items[1..][..i - 1];
      ScreenKeepsOrder(parse, items[1..], from + 1, i - 1);
    }
  }

  /** The OWNER rows of a batch of new ids never clash with existing rows
      or with each other. */
  lemma {:induction false} InsertOwnerRows(rows: Table, caller: UserId, first: EventId, n: nat)
    requires forall p | p in rows :: p.event < first
    ensures InsertRows(rows, OwnerRows(caller, first, n)) == Some(rows + OwnerRows(caller, first, n))
    decreases n
  {
    var ps := OwnerRows(caller, first, n);
    if n > 0 {
      assert ps[0] == Participant(caller, first, Owner);
      forall i | 0 <= i < |rows|
        ensures rows[i].event != first
      {
        assert rows[i] in rows;
      }
      assert ps[1..] == OwnerRows(caller, first + 1, n - 1);
      InsertOwnerRows(rows + [ps[0]], caller, first + 1, n - 1);
    }
  }

  /** In a valid store no row refers to an id at or above `nextId`. */
  lemma RowsBelowNextId(s: State)
    requires Valid(s)
    ensures forall p | p in s.participants :: p.event < s.nextId
  {
  }

  /** Row `j` of a batch is the caller's OWNER row for the `j`-th new id. */
  lemma OwnerRowsContents(caller: UserId, first: EventId, n: nat)
    ensures forall j | 0 <= j < n :: OwnerRows(caller, first, n)[j] == Participant(caller, first + j, Owner)
  {
  }

  /** The rows of a batch of new events: each new id has the caller's
      OWNER row and no other. */
  lemma OwnerRowsOnlyCaller(rows: Table, caller: UserId, first: EventId, n: nat, id: EventId)
    requires forall p | p in rows :: p.event < first
    requires first <= id < first + n
    ensures HasRole(rows + OwnerRows(caller, first, n), caller, id, Owner)
    ensures forall u :: IsParticipant(rows + OwnerRows(caller, first, n), u, id) <==> u == caller
  {
    var owners := OwnerRows(caller, first, n);
    var all := rows + owners;
    assert all[|rows| + id - first] == Participant(caller, id, Owner);
    forall j | 0 <= j < |all|
      ensures all[j].event == id ==> all[j].user == caller
    {
      if j < |rows| {
        assert all[j] in rows;
      } else {
        assert all[j] == owners[j - |rows|];
      }
    }
  }

  /** The insert after validation writes nothing and reports nothing when a
      queued instance has a null NOT NULL column. */
  lemma CommitAllOrNothing(s: State, caller: UserId, screened: Screened)
    requires Valid(s)
    ensures var r := BulkCommit(s, caller, screened);
      && (r.report.None? <==> exists j | 0 <= j < |screened.drafts| :: !Storable(screened.drafts[j]))
      && (r.report.None? ==> r.status == BadRequest && r.state == s)
  {
    RowsBelowNextId(s);
    InsertOwnerRows(s.participants, caller, s.nextId, |screened.drafts|);
  }

  /** Otherwise it creates every queued instance under consecutive fresh
      ids, with one OWNER row for the caller each, and answers 201 exactly
      when at least one event was created. */
  lemma CommitWrites(s: State, caller: UserId, screened: Screened)
    requires forall p | p in s.participants :: p.event < s.nextId
    requires forall id | id in s.events :: id < s.nextId
    requires BulkCommit(s, caller, screened).report.Some?
    ensures var r := BulkCommit(s, caller, screened);
      var n := |screened.drafts|;
      && r.report.value == Report(Ids(s.nextId, n), screened.errors)
      && (r.status == Created <==> n > 0)
      && r.state.participants == s.participants + OwnerRows(caller, s.nextId, n)
      && r.state.nextId == s.nextId + n
      && r.state.events == AddEvents(s.events, s.nextId, StoreAll(screened.drafts).value)
      && (forall id :: id in r.state.events <==> id in s.events || s.nextId <= id < s.nextId + n)
      && (forall id | id in s.events :: r.state.events[id] == s.events[id])
  {
    var evs := StoreAll(screened.drafts).value;
    var n := |screened.drafts|;
    InsertOwnerRows(s.participants, caller, s.nextId, n);
    var added := AddEvents(s.events, s.nextId, evs);
    forall id | id in s.events
      ensures added[id] == s.events[id]
    {
      assert id < s.nextId;
    }
  }

  /** The `j`-th queued instance becomes the event with id `nextId + j`. */
  lemma CommitStoresQueued(s: State, caller: UserId, screened: Screened, j: nat)
    requires forall p | p in s.participants :: p.event < s.nextId
    requires forall id | id in s.events :: id < s.nextId
    requires BulkCommit(s, caller, screened).report.Some?
    requires j < |screened.drafts|
    ensures var r := BulkCommit(s, caller, screened);
      s.nextId + j in r.state.events && Store(screened.drafts[j]) == Some(r.state.events[s.nextId + j])
  {
    var evs := StoreAll(screened.drafts).value;
    var events := AddEvents(s.events, s.nextId, evs);
    InsertOwnerRows(s.participants, caller, s.nextId, |evs|);
    assert BulkCommit(s, caller, screened).state.events == events;
    assert events[s.nextId + j] == evs[j];
    assert Store(screened.drafts[j]) == Some(evs[j]);
  }

  /** A bulk request is all-or-nothing at the insert: when a queued
      instance has a null NOT NULL column nothing is written and the
      response carries no report; otherwise every queued instance becomes an
      event under consecutive fresh ids, each with one OWNER row for the
      caller, and the answer is 201 exactly when one was created. */
  lemma BulkOutcome(s: State, parse: Parser, caller: UserId, items: seq<Body<EventInput>>)
    requires Valid(s)
    ensures var r := BulkCreate(s, parse, caller, Items(items));
      var screened := Screen(parse, items, 0);
      r.report.None? <==> exists j | 0 <= j < |screened.drafts| :: !Storable(screened.drafts[j])
    ensures var r := BulkCreate(s, parse, caller, Items(items));
      r.report.None? ==> r.status == BadRequest && r.state == s
    ensures var r := BulkCreate(s, parse, caller, Items(items));
      var screened := Screen(parse, items, 0);
      r.report.Some? ==> r.report.value == Report(Ids(s.nextId, |screened.drafts|), screened.errors)
    ensures var r := BulkCreate(s, parse, caller, Items(items));
      r.report.Some? ==> (r.status == Created <==> |Screen(parse, items, 0).drafts| > 0)
    ensures var r := BulkCreate(s, parse, caller, Items(items));
      var n := |Screen(parse, items, 0).drafts|;
      r.report.Some? ==> r.state.participants == s.participants + OwnerRows(caller, s.nextId, n)
    ensures var r := BulkCreate(s, parse, caller, Items(items));
      var n := |Screen(parse, items, 0).drafts|;
      r.report.Some? ==> forall id :: id in r.state.events <==> id in s.events || s.nextId <= id < s.nextId + n
    ensures var r := BulkCreate(s, parse, caller, Items(items));
      r.report.Some? ==> forall id | id in s.events :: r.state.events[id] == s.events[id]
    ensures BulkCreate(s, parse, caller, Items(items)).state.cache == s.cache
  {
    var screened := Screen(parse, items, 0);
    assert BulkCreate(s, parse, caller, Items(items)) == BulkCommit(s, caller, screened);
    CommitAllOrNothing(s, caller, screened);
    RowsBelowNextId(s);
    if BulkCommit(s, caller, screened).report.Some? {
      assert StoreAll(screened.drafts).Some?;
      CommitWrites(s, caller, screened);
    } else {
      assert exists j | 0 <= j < |screened.drafts| :: !Storable(screened.drafts[j]);
      assert BulkCreate(s, parse, caller, Items(items)).report.None?;
      assert Screen(parse, items, 0) == screened;
    }
  }

  /** Each item of a processed request is reported in `errors`, by its
      1-based position, exactly when it was rejected. */
  lemma BulkItemReported(s: State, parse: Parser, caller: UserId, items: seq<Body<EventInput>>, i: nat)
    requires BulkCreate(s, parse, caller, Items(items)).report.Some?
    requires i < |items|
    ensures i + 1 in BulkCreate(s, parse, caller, Items(items)).report.value.errors
      <==> BulkItem(parse, items[i]).None?
  {
    var screened := Screen(parse, items, 0);
    assert BulkCreate(s, parse, caller, Items(items)).report.value.errors == screened.errors;
    ScreenErrors(parse, items, 0, i);
  }

  /** A list body goes straight to the validation loop and the insert. */
  lemma BulkCreateCommits(s: State, parse: Parser, caller: UserId, items: seq<Body<EventInput>>)
    ensures BulkCreate(s, parse, caller, Items(items)) == BulkCommit(s, caller, Screen(parse, items, 0))
  {
  }

  /** The caller is the only participant of each new event, as OWNER. */
  lemma CommitOwnsQueued(s: State, caller: UserId, screened: Screened, id: EventId)
    requires forall p | p in s.participants :: p.event < s.nextId
    requires forall e | e in s.events :: e < s.nextId
    requires BulkCommit(s, caller, screened).report.Some?
    requires s.nextId <= id < s.nextId + |screened.drafts|
    ensures var rows := BulkCommit(s, caller, screened).state.participants;
      && id in BulkCommit(s, caller, screened).report.value.created
      && HasRole(rows, caller, id, Owner)
      && (forall u :: IsParticipant(rows, u, id) <==> u == caller)
  {
    var n := |screened.drafts|;
    InsertOwnerRows(s.participants, caller, s.nextId, n);
    assert BulkCommit(s, caller, screened).state.participants == s.participants + OwnerRows(caller, s.nextId, n);
    assert BulkCommit(s, caller, screened).report.value.created == Ids(s.nextId, n);
    OwnerRowsOnlyCaller(s.participants, caller, s.nextId, n, id);
  }

  /** An accepted item of a processed request becomes a new event, whose id
      is the next unused one after the accepted items before it. */
  lemma BulkItemCreated(s: State, parse: Parser, caller: UserId, items: seq<Body<EventInput>>, i: nat, id: EventId)
    requires forall p | p in s.participants :: p.event < s.nextId
    requires forall e | e in s.events :: e < s.nextId
    requires BulkCreate(s, parse, caller, Items(items)).report.Some?
    requires i < |items| && BulkItem(parse, items[i]).Some?
    requires id == s.nextId + CountValid(parse, items[..i])
    ensures id in BulkCreate(s, parse, caller, Items(items)).report.value.created
    ensures id !in s.events
    ensures id in BulkCreate(s, parse, caller, Items(items)).state.events
  {
    var screened := Screen(parse, items, 0);
    assert id - s.nextId < |screened.drafts| by {
      ScreenKeepsOrder(parse, items, 0, i);
    }
    BulkCreateCommits(s, parse, caller, items);
    CommitOwnsQueued(s, caller, screened, id);
    CommitStoresQueued(s, caller, screened, id - s.nextId);
  }

  /** An accepted item with `k` accepted items before it is the `k`-th
      queued instance. */
  lemma ItemQueuedAt(parse: Parser, items: seq<Body<EventInput>>, i: nat, k: nat)
    requires i < |items| && BulkItem(parse, items[i]).Some?
    requires k == CountValid(parse, items[..i])
    ensures k < |Screen(parse, items, 0).drafts| && Screen(parse, items, 0).drafts[k] == BulkItem(parse, items[i]).value
  {
    ScreenKeepsOrder(parse, items, 0, i);
  }

  /** The `k`-th queued instance of a processed request becomes the event
      with id `nextId + k`. */
  lemma CreateStoresQueued(s: State, parse: Parser, caller: UserId, items: seq<Body<EventInput>>, k: nat)
    requires forall p | p in s.participants :: p.event < s.nextId
    requires forall e | e in s.events :: e < s.nextId
    requires BulkCreate(s, parse, caller, Items(items)).report.Some?
    requires k < |Screen(parse, items, 0).drafts|
    ensures s.nextId + k in BulkCreate(s, parse, caller, Items(items)).state.events
    ensures Store(Screen(parse, items, 0).drafts[k]) == Some(BulkCreate(s, parse, caller, Items(items)).state.events[s.nextId + k])
  {
    BulkCreateCommits(s, parse, caller, items);
    CommitStoresQueued(s, caller, Screen(parse, items, 0), k);
  }

  /** The event an accepted item becomes holds the item's values. */
  lemma BulkItemStored(s: State, parse: Parser, caller: UserId, items: seq<Body<EventInput>>, i: nat, id: EventId)
    requires forall p | p in s.participants :: p.event < s.nextId
    requires forall e | e in s.events :: e < s.nextId
    requires BulkCreate(s, parse, caller, Items(items)).report.Some?
    requires i < |items| && BulkItem(parse, items[i]).Some?
    requires id == s.nextId + CountValid(parse, items[..i])
    ensures id in BulkCreate(s, parse, caller, Items(items)).state.events
    ensures Store(BulkItem(parse, items[i]).value) == Some(BulkCreate(s, parse, caller, Items(items)).state.events[id])
  {
    var k := id - s.nextId;
    ItemQueuedAt(parse, items, i, k);
    CreateStoresQueued(s, parse, caller, items, k);
    var events := BulkCreate(s, parse, caller, Items(items)).state.events;
    assert s.nextId + k == id;
    assert Store(Screen(parse, items, 0).drafts[k]) == Some(events[id]);
  }

  /** The event an accepted item becomes has the caller as its only
      participant, as OWNER. */
  lemma BulkItemOwned(s: State, parse: Parser, caller: UserId, items: seq<Body<EventInput>>, i: nat, id: EventId)
    requires forall p | p in s.participants :: p.event < s.nextId
    requires forall e | e in s.events :: e < s.nextId
    requires BulkCreate(s, parse, caller, Items(items)).report.Some?
    requires i < |items| && BulkItem(parse, items[i]).Some?
    requires id == s.nextId + CountValid(parse, items[..i])
    ensures HasRole(BulkCreate(s, parse, caller, Items(items)).state.participants, caller, id, Owner)
    ensures forall u :: IsParticipant(BulkCreate(s, parse, caller, Items(items)).state.participants, u, id) <==> u == caller
  {
    var screened := Screen(parse, items, 0);
    BulkCreateCommits(s, parse, caller, items);
    ScreenKeepsOrder(parse, items, 0, i);
    CommitOwnsQueued(s, caller, screened, id);
  }
}
