# Per-event access control of the events app, in Dafny

This project models the events app of a Django calendar service. Users create
events and share them with other users. Each (user, event) pair has at most one
participant row. A row carries one of three roles: OWNER, EDITOR or VIEWER.
Only an owner may edit, delete or share an event. Model hooks delete cached
responses whenever `save()` or `delete()` runs on an event or participant
instance.

Each request handler becomes a pure transition. It takes a `State` and returns
a status together with the new state. A `State` holds:

- the registered users;
- the event table;
- the participant table;
- the set of live cache keys;
- the next id the database hands out.

The files are:

- `base.dfy`: the vocabulary.
  - Identifiers and `Option`.
  - The three ways a JSON key reads: missing, `null`, or a value. `data.get`
    and `data.get(key, default)` are stated in terms of them.
  - Response statuses. An exception that escapes a handler becomes
    `ServerError`, the framework's 500.
  - Django's `parse_datetime`, taken as a parameter. It either returns an
    instant, returns `None`, or raises. `parse_datetime(None)` raises.
- `models.dfy`: the two tables and their write rules.
  - The NOT NULL columns of `Event`.
  - The role choices and `unique_together`.
  - `filter`, `update_or_create` and the cascade.
  - The cache keys, and the `save`/`delete` overrides that delete them.
  - `Valid`: the invariant the database and the writers keep.
- `views.dfy`: every handler of `events/views.py` as a transition.
  - The removal handler and the update handler each exist twice: as written,
    and as evidently intended. See Findings.
- `lifecycle.dfy`: properties of create, list, detail, update and delete.
- `bulk.dfy`: properties of bulk creation.
  - Which items are reported in `errors`.
  - Which items are created, in what order, and with which rows.
- `sharing.dfy`: properties of share, of the permission list and of role
  changes.
- `invariants.dfy`: every write path preserves `Valid`.
- `findings.dfy`: the two defects below, shown as written and proved fixed.

Some behaviour is easy to expect and absent from the code; the model follows
the code:

- `events/urls.py:1-3` imports history, changelog, diff and rollback views that
  `events/views.py` does not define; no handler checks for overlapping events,
  and no handler wraps its writes in a transaction. None of this is modelled.
- A share applies its entries one by one with no transaction. A rejected entry
  leaves the earlier grants in place.
- A failed create answers 500, not 400. Its `except` clause builds the response
  by subtracting a string from a string, which raises.
- Deleting an event does not delete its participant-list cache key. The cascade
  removes the rows without calling `EventParticipant.delete`.
- Bulk creation deletes no cache key, because `bulk_create` calls no `save`.
- Share checks that `users` is a list (400) before it checks the owner (403).

## Model

| member | source | states |
|---|---|---|
| Base.Get | events/views.py:30-36 | `data.get(key)` gives a value exactly when the key holds one; missing and `null` both read as `None` |
| Base.GetOr | events/views.py:144-150 | `data.get(key, default)` uses the default for a missing key only; `null` still reads as `None` |
| Base.ParseDateTime | events/views.py:146-147 | `parse_datetime` raises on `None`, which a missing key yields, and otherwise is the parser applied to the string |
| Models.Store | events/models.py:16-22 | an instance can be written exactly when every NOT NULL column has a value (only `recurrence_pattern` may be null), and the stored row holds the instance's values |
| Models.StoreToDraft | events/models.py:16-22 | storing a stored event's field values gives back that event |
| Models.RoleOf | events/models.py:58-59 | the role found for a pair is the role of a row for the pair, and it is absent exactly when the pair has no row |
| Models.RoleOfUnique | events/models.py:58-59 | under `unique_together` a pair has a row with a role exactly when that role is the pair's role |
| Models.FilterUnique | events/models.py:58-59 | keeping a subset of the rows, as the delete and the cascade do, keeps the table unique |
| Models.EventRows | events/views.py:288 | `filter(event_id=id)` holds exactly the event's rows |
| Models.WithoutEvent | events/models.py:55 | after the cascade a row remains exactly when it belongs to another event |
| Models.WithoutRow | events/views.py:330-331 | deleting one row keeps exactly the rows of other pairs |
| Models.WithRole | events/views.py:312-313 | assigning a role changes neither the number of rows nor any row's user or event |
| Models.WithRoleFacts | events/views.py:312-313 | assigning a role keeps the table unique, gives the pair the role, and leaves every other pair's role unchanged |
| Models.WithRoleRows | events/views.py:312-313 | after assigning a role, every row was there before or is exactly the requested row |
| Models.InsertRow | events/models.py:58-59 | an insert is rejected exactly when the pair already has a row; otherwise the row is appended |
| Models.InsertRows | events/views.py:220 | an accepted batch insert appends the rows in order |
| Models.InsertRowsUnique | events/views.py:220 | an accepted batch insert keeps the table unique |
| Models.Upsert | events/views.py:267-271 | after `update_or_create` the pair has the requested role |
| Models.UpsertFacts | events/views.py:267-271 | `update_or_create` keeps the table unique, sets the pair's role, and leaves every other pair's role unchanged |
| Models.UpsertRows | events/views.py:267-271 | `update_or_create` writes no row other than the requested one |
| Models.AppendFreshUnique | events/models.py:58-59 | inserting a row for a pair without one keeps the table unique |
| Models.ClearCache | events/models.py:32-36 | `clear_cache` deletes the detail key of every current participant and no other key |
| Models.SaveEvent | events/models.py:38-40 | `Event.save` writes the row, then deletes the detail keys of the event's participants at that moment |
| Models.DeleteEvent | events/models.py:42-44 | `Event.delete` deletes the detail keys of the participants the event had, then removes the event and every row of it |
| Models.SaveParticipants | events/models.py:64-71 | a participant-row write or delete deletes exactly the event's participant-list key |
| Views.CheckEventOwner | events/views.py:14-19 | ownership means an OWNER row for the caller; the event comes back exactly for an owner of an existing event |
| Views.Create | events/views.py:24-64 | create answers 201 or 500; on 201 it adds the next id to the table and makes the caller an OWNER of it; on 500 no row is written |
| Views.ListEvents | events/views.py:67-75 | the list holds only existing events the caller takes part in |
| Views.Detail | events/views.py:117-132 | detail answers 200 with the stored event, or 404 with nothing |
| Views.TimeAsWritten | events/views.py:146-147 | as written, a missing or null date makes the update raise |
| Views.ApplyEdit | events/views.py:144-153 | the edit answers 200 or 500, writes nothing on 500, and never touches the rows or the set of event ids |
| Views.Update | events/views.py:134-153 | update answers 403 exactly for a non-owner; any failure leaves the state unchanged; the rows are never touched |
| Views.TimeIntended | events/views.py:146-147 | as intended, a missing or null date keeps the stored instant; a given one reads as written |
| Views.UpdateIntended | events/views.py:134-153 | the intended update answers 403 exactly for a non-owner, and any failure leaves the state unchanged |
| Views.Delete | events/views.py:155-165 | delete answers 403 exactly for a non-owner; a failure changes nothing; success removes the event |
| Views.BulkItem | events/views.py:184-206 | an item is rejected exactly when it is not an object, its title, start_time or end_time is falsy, or the parser raises on either date; an accepted item queues an instance holding the item's values |
| Views.Screen | events/views.py:183-206 | every item is either queued or reported; reported positions are 1-based, in range and strictly increasing |
| Views.StoreAll | events/views.py:208 | `bulk_create` writes every queued instance, with its values, exactly when all can be written, and otherwise writes none |
| Views.Ids | events/views.py:208-218 | the batch's ids are the consecutive ids from the next one, in order |
| Views.AddEvents | events/views.py:208 | the batch's events go in under consecutive new ids, and every other event is kept |
| Views.OwnerRows | events/views.py:211-212 | one row per created event |
| Views.BulkCreate | events/views.py:171-227 | a body that is not a list gets 400 and changes nothing; every answer is 201 or 400; the cache is untouched |
| Views.BulkCommit | events/views.py:208-225 | the insert step answers 201 or 400, deletes no cache key, and writes no row when it reports nothing |
| Views.CheckEntry | events/views.py:252-262 | a share entry is accepted exactly when it is an object naming an existing user by a truthy id and one of the three roles, and the grant carries that entry's user and role |
| Views.GrantRole | events/views.py:267-271 | a grant leaves the user holding the requested role |
| Views.ShareLoop | events/views.py:252-271 | the share loop answers 200 or 400, never changes events or users, and only deletes cache keys |
| Views.Share | events/views.py:234-284 | a share that answers neither 200 nor 400 changes nothing |
| Views.ListPermissions | events/views.py:286-293 | the permission list holds exactly the event's rows, for any caller |
| Views.UpdatePermission | events/views.py:295-315 | a role change that fails changes nothing; one that succeeds deletes only the participant-list key |
| Views.RemoveWith | events/views.py:317-334 | a removal that fails changes nothing; one that succeeds deletes exactly the target's row |
| Views.RemovePermission | events/views.py:317-334 | a removal as written that fails changes nothing |
| Views.RemovePermissionIntended | events/views.py:317-334 | the intended removal answers 403 exactly when the caller is not an OWNER |
| Lifecycle.NoRowsForNextId | events/views.py:38-48 | in a valid store no row refers to the id a new event receives |
| Lifecycle.ClearCacheWithoutParticipants | events/models.py:32-40 | saving an event that has no participants deletes no key |
| Lifecycle.CreateOutcome | events/views.py:24-64 | create answers 201 exactly when the body is an object and every NOT NULL column gets a value; it then adds exactly one event under a fresh id and exactly one row (the caller as OWNER), keeps every other event and row, and deletes only the new event's list key; any other answer changes nothing |
| Lifecycle.CreateRecordsRequest | events/views.py:30-46 | the created event holds the request's values, with `is_recurring` false when missing |
| Lifecycle.ListedIffReadable | events/views.py:67-132 | an event appears in the unfiltered list exactly when its detail answers 200 for the caller |
| Lifecycle.NonParticipantSeesNothing | events/views.py:117-132 | without a row the caller gets 404 for the detail and never sees the event in a list |
| Lifecycle.EmptyQueryMatches | events/views.py:73-75 | every title contains the empty query |
| Lifecycle.TitleFilter | events/views.py:73-75 | a title query keeps exactly the listed events whose title contains it, ignoring case |
| Lifecycle.FoldIdempotent | events/views.py:75 | case folding twice is case folding once |
| Lifecycle.QueryCaseIrrelevant | events/views.py:75 | the case of the query does not matter |
| Lifecycle.SubstringMatches | events/views.py:75 | a verbatim occurrence of the query matches |
| Lifecycle.UpdateSucceedsIff | events/views.py:134-153 | update answers 200 exactly for an owner of an existing event whose body has both dates as strings the parser does not raise on, and no null NOT NULL column |
| Lifecycle.UpdateEffect | events/views.py:143-151 | a successful update rewrites only the target event: each present key sets its field and each missing key keeps it; a date that does not parse keeps the stored instant; the rows are untouched; the participants' detail keys are deleted |
| Lifecycle.DeleteOutcome | events/views.py:155-165 | delete answers 200 exactly for an owner; it then removes the event and all of its rows, keeps every other event and row, and deletes only the detail keys of the participants the event had (every other key, its list key included, stays); any other answer is 403 with no change |
| Lifecycle.ClearingAfterCascadeIsNoop | events/models.py:42-44 | clearing after the cascade would delete nothing, which is why `Event.delete` clears first |
| BulkFacts.ScreenErrors | events/views.py:183-206 | an item is reported at its 1-based position exactly when it is rejected |
| BulkFacts.ScreenCount | events/views.py:183-204 | the number of queued instances is the number of accepted items |
| BulkFacts.ScreenKeepsOrder | events/views.py:183-204 | accepted items are queued in input order |
| BulkFacts.InsertOwnerRows | events/views.py:211-220 | the OWNER rows of new ids never clash, so the batch insert of rows succeeds |
| BulkFacts.RowsBelowNextId | events/models.py:55 | in a valid store every row refers to an id below the next one |
| BulkFacts.OwnerRowsContents | events/views.py:211-212 | the j-th row of the batch is the caller's OWNER row for the j-th new id |
| BulkFacts.OwnerRowsOnlyCaller | events/views.py:211-212 | each new event has the caller's OWNER row and no other participant |
| BulkFacts.CommitAllOrNothing | events/views.py:208-227 | when a queued instance has a null NOT NULL column the request answers 400 with no report and writes nothing; the report is missing only then |
| BulkFacts.CommitWrites | events/views.py:208-225 | otherwise the report lists consecutive fresh ids and the rejected positions; the answer is 201 exactly when something was created; one OWNER row is added per new event; old events are kept |
| BulkFacts.CommitStoresQueued | events/views.py:208 | the k-th queued instance becomes the event with the k-th new id |
| BulkFacts.BulkOutcome | events/views.py:171-227 | a list request either writes nothing and reports nothing, or creates every queued instance under consecutive fresh ids, each with an OWNER row for the caller, answering 201 exactly when one was created; the cache is untouched |
| BulkFacts.BulkItemReported | events/views.py:183-206 | in a report, an item's 1-based position is listed exactly when the item was rejected |
| BulkFacts.BulkItemCreated | events/views.py:183-218 | an accepted item becomes a new event, not one that existed before, reported as created under the id that follows the earlier accepted items |
| BulkFacts.CreateStoresQueued | events/views.py:208 | in a processed request, the k-th queued instance becomes the event with the k-th new id and holds its values |
| BulkFacts.BulkItemStored | events/views.py:183-208 | the event an accepted item becomes holds that item's values |
| BulkFacts.CommitOwnsQueued | events/views.py:208-220 | each new id of the insert is reported as created and has the caller as OWNER and as its only participant |
| BulkFacts.BulkItemOwned | events/views.py:183-220 | the event an accepted item becomes has the caller as OWNER and as its only participant |
| Sharing.ShareRequiresOwner | events/views.py:234-247 | a share answers 403 exactly when the body is usable and the caller is not an OWNER; a non-owner never changes anything |
| Sharing.ShareLoopFacts | events/views.py:252-271 | sharing keeps at most one row per pair, never changes the caller's own role on any event, never touches another event's rows, and deletes at most the event's list key |
| Sharing.ShareOkIffAllValid | events/views.py:252-281 | a share answers 200 exactly when every entry is acceptable |
| Sharing.ShareStopsAtFirstInvalid | events/views.py:255-256 | the first rejected entry ends the share with 400, and the grants of the entries before it stay applied |
| Sharing.LastRequested | events/views.py:252-271 | a role is requested for a user only when some acceptable entry names that user with that role |
| Sharing.ShareLastRoleWins | events/views.py:252-271 | after a fully accepted share, each user other than the caller holds the role of the last entry naming them, or keeps their role when no entry names them |
| Sharing.PermissionListOnePerUser | events/views.py:286-293 | the permission list has only rows of the event and names each user once |
| Sharing.UpdatePermissionChecks | events/views.py:295-313 | a role change answers 403 exactly for a non-owner, 404 exactly for an owner naming a user without a row, 400 exactly for an owner naming a participant with a role outside the three choices, and 200 exactly when the role is one of them |
| Sharing.UpdatePermissionOutcome | events/views.py:309-313 | a successful role change sets only the target's role; no row is added or removed, the table stays unique, and every other pair keeps its role |
| Sharing.SelfDemotion | events/views.py:295-313 | an owner may demote themselves, after which they can no longer update, delete or share the event |
| Invariants.OwnedEventExists | events/models.py:55 | in a valid store an OWNER row implies that the event exists |
| Invariants.CreateKeepsValid | events/views.py:38-48 | create keeps the store valid |
| Invariants.UpdateKeepsValid | events/views.py:134-153 | update keeps the store valid |
| Invariants.UpdateIntendedKeepsValid | events/views.py:134-153 | the intended update keeps the store valid |
| Invariants.DeleteKeepsValid | events/views.py:155-165 | delete keeps the store valid, because no row is left pointing at the deleted event |
| Invariants.BulkCreateKeepsValid | events/views.py:208-220 | bulk creation keeps the store valid |
| Invariants.ShareLoopKeepsValid | events/views.py:252-271 | the share loop keeps the store valid on an existing event |
| Invariants.ShareKeepsValid | events/views.py:234-284 | share keeps the store valid |
| Invariants.UpdatePermissionKeepsValid | events/views.py:295-315 | a role change keeps the store valid |
| Invariants.RemoveWithKeepsValid | events/views.py:317-334 | both removal handlers keep the store valid |
| Findings.RemovalAlwaysForbidden | events/views.py:321-323 | as written, removal on a valid store always answers 403 and changes nothing |
| Findings.OwnerAndViewer | events/models.py:47-59 | a valid store with one owner and one viewer exists |
| Findings.RemovalCounterexample | events/views.py:321-331 | on that store, the owner's removal of the viewer answers 403 as written, while the intended handler removes the row |
| Findings.RemovalIntendedOutcome | events/views.py:317-334 | the intended removal answers 403 for a non-owner, 400 for removing oneself and 404 for a user without a row; otherwise it deletes exactly the target's row, and the owner stays an owner |
| Findings.PartialUpdateAsWritten | events/views.py:146-147 | as written, an owner's update without `start_time` or `end_time` answers 500 and saves nothing |
| Findings.TitleOnlyUpdate | events/views.py:144-151 | a title-only update fails as written; the intended handler saves the new title and keeps every other field |
| Findings.PartialUpdateIntended | events/views.py:146-147 | the intended update keeps a stored instant whose key is missing or null |
| Findings.UpdateIntendedAgrees | events/views.py:134-153 | wherever the update as written does not fail, the intended one gives the same answer and state |

## Left out

- Pagination: `Paginator`, the `page` and `page_size` parameters, the counts in
  the response, and `int(page)`. The list is the filtered set of events.
- The handlers' response bodies and message texts. Only statuses and state are
  modelled.
- `if not user` in create. An authenticated principal is always truthy.
- Users are a fixed set. Registration, login and tokens (the `users` app) are
  not part of this model.
- `events/urls.py`, which routes to views that `events/views.py` does not
  define, and `events/serializers.py`, which the handlers never call.
- `HistoricalRecords`, and the `created_at` and `updated_at` timestamps.
- `max_length` limits on the text columns.
- Unenforced `choices` on `recurrence_pattern`. Any string or null is stored.
- The foreign key to `auth.User`, which the model does not check on insert. The
  users a share names are checked by `User.objects.get`, and the caller of
  create and bulk create is assumed registered.
- The cache's values and its 24-hour expiry. Only which keys are live is
  modelled, and the handlers shown never set a key.
- Concurrency and transaction isolation. Requests are applied one at a time.
- The date parser, which is a parameter.
- Unicode case folding. `Fold` lower-cases ASCII letters only, a simplification
  of the database's `icontains`.
- Cache keys are a datatype standing for their formatted strings. Distinct ids
  give distinct strings. Any other key (`OtherKey`) is assumed not to have the
  shape `event_detail_view_{e}_user_{u}` or `event_participants_{e}`; a string
  of that shape is always the corresponding `DetailKey` or `ParticipantsKey`.
- Values of the wrong JSON type, such as a string `user_id` or a number
  `title`. Every key is either missing, `null`, or a value of the column's type.
- `Event.objects.bulk_create` is assumed to set the primary keys of the
  instances it returns, as it does on PostgreSQL, MariaDB 10.5+ and SQLite
  3.35+. On other databases the ids stay unset, the OWNER-row insert at
  `events/views.py:220` raises, and the answer is 400 with the events already
  written and no owner rows. `BulkFacts.BulkOutcome`, `BulkFacts.BulkItemOwned`
  and `Invariants.BulkCreateKeepsValid` hold only on a database that returns
  the keys.
- Database ids advance only on a successful insert. Some databases also consume
  an id on a failed insert.
- Views.ListEvents: its contract states only that the list is bounded by
  participation. `Lifecycle.ListedIffReadable` and `Lifecycle.TitleFilter`
  state the exact contents.

## Findings

| source | as written | input that shows it | evidently intended | confidence | as-written member | corrected member |
|---|---|---|---|---|---|---|
| events/views.py:321 | the removal handler's owner check filters on `role='O'`, which no writer stores, so every removal is refused with 403 | owner 1 of event 0 removes viewer 2 | the check filters on `role='OWNER'`, like every other owner check | not executed | Findings.RemovalCounterexample | Findings.RemovalIntendedOutcome |
| events/views.py:146-147 | `parse_datetime(data.get("start_time"))` receives `None` when the key is missing and raises `TypeError`, so any update without both dates answers 500 | owner's PUT with body `{"title": "x"}` | a missing date keeps the stored instant, like the other keys and like the `or event.start_time` fallback | not executed | Findings.PartialUpdateAsWritten | Findings.PartialUpdateIntended |
