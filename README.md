# Firefox Sync record store, modelled in Dafny

This project models the data layer of a Firefox Sync server that runs on Google App
Engine (`lib/fxsync/models.py`). The layer keeps the records a browser syncs, called
WBOs (Weave Basic Objects). Each record lives in a named **collection** (bookmarks,
history, tabs, …) owned by an account profile. Clients read, write and delete
records over HTTP; this layer does the work behind those requests:

- `WBO.validate` checks a record against eight rules. It returns every rule the
  record breaks, in a fixed order.
- `WBO.insert_or_update` does the following, in this order:
  1. Resolves the record's collection, creating it when it is given by name.
  2. Assembles the record from the client's fields.
  3. Stamps it with the current time.
  4. Validates it.
  5. Creates it, or overwrites the stored record with the same id field by field.
- `Collection.retrieve` runs one datastore query for each filter used. Each query
  keeps the first `limit` matches. It intersects the resulting key sets, then sorts
  the surviving records (by `sortindex`, oldest first or newest first), pages them
  with `(offset, limit)` and projects them to ids or to dictionaries (`WBO.to_dict`).
- `Collection.delete` deletes a collection and its records.
- `get_counts` and `get_timestamps` report, for every built-in collection name and
  every collection of a profile, the number of records and the newest
  modification time.
- `build_key_name`, `get_by_profile_and_name` (get-or-create), `is_builtin`,
  `get_by_collection_and_wbo_id` and `exists_by_collection_and_wbo_id` are the
  lookups these rest on.

## Layout

| file | module | contents |
|---|---|---|
| `records.dfy` | `Records` | the WBO record, its dictionary form (`to_dict`), lookup by id |
| `validation.dfy` | `Validation` | the candidate record (`wbo_data`), the eight rules, `ValidationErrors` |
| `query.dfy` | `Query` | the meaning of `retrieve`: filters, capped key sets, intersection, order, page |
| `registry.dfy` | `Registry` | built-in names, collection key names, newest modification time |
| `upsert.dfy` | `Upsert` | the write request, assembly of `wbo_data`, create and merge, `ApplyWrite` |
| `store.dfy` | `Store` | class `Datastore`: the datastore and the source's operations as methods |

The datastore is a class `Datastore` with these fields:

- `collections`: the collection entities.
- `wbos`: the records under each collection, in key order.
- `nextKey`: the numeric key the datastore allocates to the next new record.
- `isJson`: a constant, telling whether a text parses as JSON.

Its invariant `Valid()` holds after every method that changes state:

- every stored record would pass validation against the current store, so its
  parentid and predecessorid name records of its own collection;
- its payload is non-empty and `payload_size` equals the payload's length;
- ids and keys are unique within a collection, and every key was allocated.

The methods are proved against pure specification functions:

- `Validation.ValidationErrors`
- `Upsert.ApplyWrite`
- `Query.Retrieved`
- `Registry.LatestModified`

The listed properties are proved about those functions.

## Model

| member | source | states |
|---|---|---|
| Records.IndexOf | lib/fxsync/models.py:264-267 | the first position whose record has the id, or none exactly when no record has it |
| Records.HasRecordMeans | lib/fxsync/models.py:269-272 | a collection has a record with an id exactly when some record of it carries that id |
| Records.ToDict | lib/fxsync/models.py:188-195 | the dictionary holds `id` (the record's id) plus exactly the fields among the six that are truthy |
| Records.ToDictRoundTrip | lib/fxsync/models.py:188-195 | a record whose optional ids are not empty strings is recovered from its dictionary: to_dict loses nothing |
| Validation.RenameId | lib/fxsync/models.py:279-281 | a client `id` replaces `wbo_id`, and nothing else of the candidate changes |
| Validation.ErrorsFollowRuleOrder | lib/fxsync/models.py:275-327 | the reasons come in the rules' order, each at most once: validation never stops at the first failure and never repeats one |
| Validation.InvalidIdReported | lib/fxsync/models.py:283-285 | 'invalid id' iff the id is missing, empty, longer than 64 or contains '/' |
| Validation.InvalidCollectionReported | lib/fxsync/models.py:287-289 | 'invalid collection' iff the collection is missing or its name is longer than 64 |
| Validation.ReferenceErrorsReported | lib/fxsync/models.py:291-303 | 'invalid parentid' (and 'invalid predecessorid') iff the reference is given and is longer than 64 or names no record of the collection |
| Validation.NoModifiedReported | lib/fxsync/models.py:305-306 | 'no modification date' iff modified is missing or zero |
| Validation.InvalidSortindexReported | lib/fxsync/models.py:311-315 | 'invalid sortindex' iff a sortindex outside ±999999999 is given |
| Validation.PayloadErrorsReported | lib/fxsync/models.py:317-325 | 'payload too large' iff over 262144 characters; 'not json' iff within the limit and not JSON; never both |
| Validation.NoErrorsIffAcceptable | lib/fxsync/models.py:275-327 | no reasons exactly when every rule holds |
| Query.InsertSorted | lib/fxsync/models.py:123-127 | inserting into a sorted sequence keeps it sorted and adds exactly that record |
| Query.SortBySorted | lib/fxsync/models.py:123-127 | the query's ordering yields a sorted permutation of its input |
| Query.Where | lib/fxsync/models.py:76-111 | a filter keeps exactly the records that satisfy it, never more than its input |
| Query.Intersect | lib/fxsync/models.py:116-121 | an id is in the intersection iff it is in every key set |
| Query.Limit | lib/fxsync/models.py:69 | the limit is at least 1 (a missing or zero limit means 1000) |
| Query.KeySetSound | lib/fxsync/models.py:76-111 | a filter's key set has at most `limit` ids, each the id of a record satisfying the filter |
| Query.KeySetComplete | lib/fxsync/models.py:76-111 | when no more than `limit` records match, the key set holds every match |
| Query.CriteriaMembers | lib/fxsync/models.py:76-111 | the filters used are exactly those whose option is given (a truthy `id`, non-empty `ids`, any bound, parentid, predecessorid) |
| Query.ScopeSound | lib/fxsync/models.py:113-121 | every record in scope satisfies every filter used |
| Query.ScopeComplete | lib/fxsync/models.py:113-121 | when the collection has at most `limit` records, every record satisfying all filters is in scope |
| Query.QuerySound | lib/fxsync/models.py:59-135 | every record retrieve returns is a record of the collection that satisfies every filter used |
| Query.QueryScopeExact | lib/fxsync/models.py:59-135 | below the cap, the scope is exactly the records satisfying all filters |
| Query.QueryOrdered | lib/fxsync/models.py:123-127 | 'oldest' returns ascending modified, 'newest' descending, anything else ascending sortindex |
| Query.QueryPaginated | lib/fxsync/models.py:132-135 | the result is records `offset`, `offset+1`, … of the sorted scope, at most `limit` of them |
| Query.PageOfSorted | lib/fxsync/models.py:132-135 | a page of a sorted sequence is sorted |
| Query.WhereNone | lib/fxsync/models.py:76-111 | a filter no record satisfies selects nothing |
| Query.RetrieveByIdRoundTrip | lib/fxsync/models.py:76-79 | retrieving a stored record by its id with `full` yields exactly its dictionary |
| Query.ZeroIndexBoundIgnored | lib/fxsync/models.py:87-92 | when the collection has at most `limit` records, `index_above=0` selects the same records as no lower bound |
| Query.ZeroBoundStillCapsScope | lib/fxsync/models.py:87-99 | above the cap, `index_above=0` (or `newer=0`) still counts as a filter used and narrows the scope to the first `limit` records by key, where leaving it out keeps them all |
| Query.CappedKeySetsCanDropMatches | lib/fxsync/models.py:101-121 | with limit 1, a record satisfying both the parentid and predecessorid filters is not returned |
| Registry.KeyNameRoundTrip | lib/fxsync/models.py:137-139 | the profile key and the collection name are recovered from the key name (profile keys without ':') |
| Registry.KeyNameInjective | lib/fxsync/models.py:141-149 | distinct collections of colon-free profile keys get distinct key names, so get-or-create never returns another collection |
| Registry.KeyNameCollision | lib/fxsync/models.py:137-139 | with a ':' in the profile key, two different collections share a key name |
| Registry.LatestModified | lib/fxsync/models.py:161-163 | the newest modified time of a collection's records (0 for none): no record is newer, and some record has it |
| Upsert.Assemble | lib/fxsync/models.py:217-236 | the assembled record has no `id` key, the given id, collection and stamp, the request's sortindex, parentid, predecessorid and payload unchanged (each present iff supplied), and a payload size iff a payload, equal to its length |
| Upsert.MergeFieldwise | lib/fxsync/models.py:245 | every supplied field overwrites the record's, every other field is kept, and the collection and key stay |
| Upsert.MergeOverridesEarlierWrite | lib/fxsync/models.py:241-246 | a later write that supplies every field an earlier one supplied erases the earlier write entirely |
| Upsert.FullWriteCreatesOrOverwritesAlike | lib/fxsync/models.py:241-246 | a write supplying all four client fields gives the same record whether it creates or overwrites |
| Upsert.NewRecordStored | lib/fxsync/models.py:242-243 | a record created from an accepted write with a payload satisfies the store invariant |
| Upsert.MergeStored | lib/fxsync/models.py:244-245 | overwriting a stored record with an accepted write keeps the store invariant |
| Upsert.AcceptableWhenIdsKept | lib/fxsync/models.py:291-303 | adding records never makes an accepted candidate unacceptable |
| Upsert.WriteRejectedIffInvalid | lib/fxsync/models.py:238-239 | a write is rejected iff its assembled record breaks a rule; the reasons are validate's and nothing changes |
| Upsert.EmptyPayloadRejected | lib/fxsync/models.py:317-325 | with a JSON test that refuses the empty text, a write giving an empty payload is rejected as not JSON-encoded and changes nothing |
| Upsert.WriteChangesOnlyItsCollection | lib/fxsync/models.py:197-248 | a write changes only its own collection, never removes an id, and a write that stores nothing changes nothing |
| Upsert.WrittenRecordIsFound | lib/fxsync/models.py:241-248 | after a write, the lookup by id finds exactly the record written, stamped with the write's time |
| Upsert.WrittenRecordCarriesRequest | lib/fxsync/models.py:217-246 | the written record has every supplied field with the supplied value; a created record has sortindex 0 and no parent or predecessor unless supplied, and the next key; an overwritten record keeps its other fields and its key |
| Upsert.RetryAccepted | lib/fxsync/models.py:238-239 | a write accepted once is accepted again at any later non-zero time |
| Upsert.RetryOfCreate | lib/fxsync/models.py:241-246 | retrying a write that created its record overwrites it with what one write at the later time creates |
| Upsert.RetryOfOverwrite | lib/fxsync/models.py:241-246 | retrying a write that overwrote its record leaves it as one write at the later time would |
| Upsert.RetriedWriteActsOnce | lib/fxsync/models.py:197-248 | writing the same request twice leaves the store and outcome as one write at the later time: no duplicate record |
| Store.WriteKeepsStoreValid | lib/fxsync/models.py:197-248 | insert_or_update preserves the datastore invariant |
| Store.DeleteKeepsStoreValid | lib/fxsync/models.py:54-57 | removing a collection with its records preserves the datastore invariant |
| Store.Datastore.GetByCollectionAndWboId | lib/fxsync/models.py:264-267 | a record of the collection with that id, the only one when ids are unique; none exactly when no record has it |
| Store.Datastore.ExistsByCollectionAndWboId | lib/fxsync/models.py:269-272 | true iff some record of the collection has the id, iff the lookup by id finds one |
| Store.Datastore.GetByProfileAndName | lib/fxsync/models.py:141-149 | the collection (profile, name), added when missing; an empty name is refused and nothing is added |
| Store.Datastore.CheckReference | lib/fxsync/models.py:291-303 | reports the reference rule exactly as the specification of validate does |
| Store.Datastore.CheckPayload | lib/fxsync/models.py:317-325 | reports the payload size and JSON rules exactly as the specification of validate does |
| Store.Datastore.Validate | lib/fxsync/models.py:275-327 | returns exactly `ValidationErrors` of the candidate against the current store, and the renamed candidate |
| Store.Datastore.InsertOrUpdate | lib/fxsync/models.py:197-248 | outcome, records and key counter are those of `ApplyWrite`; the named collection is created; the invariant is kept |
| Store.Datastore.FilterBlock | lib/fxsync/models.py:76-111 | a used filter appends its capped key set; an unused one changes nothing |
| Store.Datastore.CollectKeySets | lib/fxsync/models.py:73-111 | the key sets are those of the filters used, in the source's order, and `filter_used` is set iff one is used |
| Store.Datastore.Retrieve | lib/fxsync/models.py:59-135 | returns exactly `Retrieved` of the collection's records and the options |
| Store.Datastore.Delete | lib/fxsync/models.py:54-57 | the collection and all its records are gone, nothing else changes, the invariant is kept |
| Store.Datastore.GetCounts | lib/fxsync/models.py:166-173 | keys are the built-in names and the profile's collection names; each value is the collection's record count, 0 without a collection |
| Store.Datastore.GetTimestamps | lib/fxsync/models.py:156-164 | same keys; each value is no older than every record of the collection and is one of their times (0 when empty or without a collection) |

`Registry.BuildKeyName` (lines 137-139) and `Registry.IsBuiltin` (lines 151-154)
are defined as in the source. `BuildKeyName` is paired with `ParseKeyName` by the
round-trip lemma above. `IsBuiltin` states which keys `GetCounts` and
`GetTimestamps` report.

## Source behaviour the model keeps

- A missing payload is not one of the validation errors. It fails afterwards, as
  App Engine's required property `payload`: a new record without a payload raises
  `RequiredProperty("payload")` and the store is unchanged. An empty payload
  fails earlier. The JSON parser refuses the empty text, so validation rejects the
  write as 'payload needs to be json-encoded' (`Upsert.EmptyPayloadRejected`).
  The datastore is built with a JSON test that refuses the empty text. The
  required-property branch for an empty payload in `ApplyWrite` is therefore
  only reached with a JSON test that accepts it.
- A write addressed by collection name creates the collection before validation.
  A rejected write therefore still leaves the collection behind.
- Each filter's key set is capped at `limit` before the intersection, so matching
  records can be lost (`Query.CappedKeySetsCanDropMatches`).
- A bound is applied only when it is truthy, so a zero bound does not restrict
  the records (`Query.ZeroIndexBoundIgnored`, which holds when the collection
  has at most `limit` records). The zero bound still counts as a filter used:
  its key set is the first `limit` records by key. Above the cap it therefore
  narrows the scope (`Query.ZeroBoundStillCapsScope`). This holds for
  `index_above`/`index_below` and for `newer`/`older` alike.
- A limit of 0 means 1000.
- Payload size is measured in characters (`len`), not bytes.

## Left out

- Profile (accounts, passwords, `get_by_user_name`, `user_name` in the write
  request): it lies outside the record store. A write names its collection directly
  or by profile key and name.
- `get_time_now`: the clock is the parameter `now` of `InsertOrUpdate`. Its
  rounding to hundredths of a second is not modelled.
- `simplejson.loads`: replaced by the constant predicate `isJson` of the store, of which only one fact is kept: it refuses the empty text.
- Datastore concurrency, transactions, entity groups and `get_or_insert`'s
  atomicity: the model is sequential.
- The 30-value limit of `IN` filters and the 500-character limit of
  `StringProperty` (a collection name longer than 500 is refused by the datastore
  before validation) are not modelled.
- The `ids` filter's query has no order in the source. Its matches are taken in key
  order, like the other equality filters.
- Python type checks ('invalid modified date', a non-integer sortindex, `None`
  values in the request): the model's types rule them out.
- `direct_output`: the source ignores it.
- The log set up in `retrieve` is not modelled.
- Negative `limit` or `offset`: the model's `nat` type rules them out.
- Floating point: `modified` and the `newer`/`older` bounds are exact reals.
- Store.Datastore.GetByProfileAndName: collections are identified by
  (profile, name) rather than by their key name string. `Registry.KeyNameInjective`
  shows the two agree for the datastore's colon-free profile keys.
- Store.Datastore.Delete: deletes the records in their stored order. A failure
  part-way through is not modelled.
