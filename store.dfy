/** The datastore-backed operations of Collection and WBO, as methods of an
    in-memory datastore holding the collection entities and, under each
    collection, its WBO entities. */
module Store {
  import opened Records
  import opened Validation
  import opened Query
  import opened Registry
  import opened Upsert

  /** Everything that holds of the records `s` stored under collection `c`. */
  ghost predicate CollectionValid(c: CollectionRef, s: seq<Wbo>, e: Entities, next: nat, isJson: string -> bool)
  {
    && UniqueIds(s) && UniqueKeys(s)
    && forall w | w in s :: w.collection == c && w.key < next && Stored(w, e, isJson)
  }

  /** The datastore invariant: every collection's records are valid, each names
      only records of its own collection, and every key was allocated. */
  ghost predicate StoreValid(e: Entities, next: nat, isJson: string -> bool)
  {
    forall c | c in e :: CollectionValid(c, e[c], e, next, isJson)
  }

  lemma StoredKept(w: Wbo, e: Entities, e2: Entities, isJson: string -> bool)
    requires IdsKept(e, e2) && Stored(w, e, isJson)
    ensures Stored(w, e2, isJson)
  {
    AcceptableWhenIdsKept(AsCandidate(w), e, e2, isJson);
  }

  /** A collection the write does not touch stays valid. */
  lemma UntouchedCollectionValid(c: CollectionRef, s: seq<Wbo>, e: Entities, e2: Entities, next: nat, next2: nat, isJson: string -> bool)
    requires CollectionValid(c, s, e, next, isJson) && IdsKept(e, e2) && next <= next2
    ensures CollectionValid(c, s, e2, next2, isJson)
  {
    forall w | w in s ensures Stored(w, e2, isJson) {
      StoredKept(w, e, e2, isJson);
    }
  }

  /** A new record under a fresh id and the next key keeps its collection valid. */
  lemma AppendedCollectionValid(c: CollectionRef, s: seq<Wbo>, w: Wbo, e: Entities, e2: Entities, next: nat, isJson: string -> bool)
    requires CollectionValid(c, s, e, next, isJson) && IdsKept(e, e2)
    requires w.collection == c && w.key == next && Stored(w, e2, isJson)
    requires forall v :: v in s ==> v.wboId != w.wboId
    ensures CollectionValid(c, s + [w], e2, next + 1, isJson)
  {
    UntouchedCollectionValid(c, s, e, e2, next, next + 1, isJson);
    var t := s + [w];
    assert forall j :: 0 <= j < |s| ==> t[j] == s[j] && s[j] in s;
  }

  /** A record overwritten in place by one of the same id and key keeps its
      collection valid. */
  lemma ReplacedCollectionValid(c: CollectionRef, s: seq<Wbo>, i: nat, w: Wbo, e: Entities, e2: Entities, next: nat, isJson: string -> bool)
    requires CollectionValid(c, s, e, next, isJson) && IdsKept(e, e2)
    requires i < |s| && w.collection == c && w.wboId == s[i].wboId && w.key == s[i].key && Stored(w, e2, isJson)
    ensures CollectionValid(c, s[i := w], e2, next, isJson)
  {
    UntouchedCollectionValid(c, s, e, e2, next, next, isJson);
    var t := s[i := w];
    assert s[i] in s;
    forall v | v in t ensures v.collection == c && v.key < next && Stored(v, e2, isJson) {
      var k :| 0 <= k < |t| && t[k] == v;
      if k != i {
        assert t[k] == s[k] && s[k] in s;
      }
    }
  }

  /** insert_or_update keeps the datastore invariant. */
  lemma WriteKeepsStoreValid(e: Entities, next: nat, r: WriteRequest, now: real, isJson: string -> bool)
    requires StoreValid(e, next, isJson)
    ensures var st := ApplyWrite(e, next, r, now, isJson); StoreValid(st.entities, st.next, isJson)
  {
    var st := ApplyWrite(e, next, r, now, isJson);
    WriteChangesOnlyItsCollection(e, next, r, now, isJson);
    if st.outcome.Written? {
      var c := ResolvedCollection(r.target).value;
      var id := ResolvedId(r).value;
      var d := Assemble(r, c, id, now);
      var s := RecordsOf(e, c);
      var e2 := st.entities;
      assert CollectionValid(c, s, e, next, isJson);
      NoErrorsIffAcceptable(d, e, isJson);
      match IndexOf(s, id) {
        case None =>
          var w := NewRecord(d, next);
          NewRecordStored(d, next, e, isJson);
          StoredKept(w, e, e2, isJson);
          AppendedCollectionValid(c, s, w, e, e2, next, isJson);
        case Some(i) =>
          var w := Merge(s[i], d);
          assert s[i] in s;
          MergeStored(s[i], d, e, isJson);
          StoredKept(w, e, e2, isJson);
          ReplacedCollectionValid(c, s, i, w, e, e2, next, isJson);
      }
      forall c2 | c2 in e2 && c2 != c ensures CollectionValid(c2, e2[c2], e2, st.next, isJson) {
        assert e2[c2] == e[c2];
        UntouchedCollectionValid(c2, e[c2], e, e2, next, st.next, isJson);
      }
    }
  }

  /** Deleting a collection with its records keeps the datastore invariant: no
      record of another collection refers to the deleted records. */
  lemma DeleteKeepsStoreValid(e: Entities, next: nat, c: CollectionRef, isJson: string -> bool)
    requires StoreValid(e, next, isJson)
    ensures StoreValid(e - {c}, next, isJson)
  {
    var e2 := e - {c};
    forall c2 | c2 in e2 ensures CollectionValid(c2, e2[c2], e2, next, isJson) {
      forall w | w in e2[c2] ensures Stored(w, e2, isJson) {
        assert RecordsOf(e2, c2) == RecordsOf(e, c2);
        forall id ensures HasRecord(e, c2, id) == HasRecord(e2, c2, id) {
        }
      }
    }
  }

  class Datastore {
    /** The collection entities. */
    var collections: set<CollectionRef>
    /** The WBO entities under each collection's key. */
    var wbos: Entities
    /** The key the datastore allocates to the next new WBO entity. */
    var nextKey: nat
    /** Whether a text parses as JSON (simplejson.loads succeeding). */
    const isJson: string -> bool

    ghost predicate Valid()
      reads this
    {
      StoreValid(wbos, nextKey, isJson)
    }

    constructor(isJson: string -> bool)
      requires !isJson("")
      ensures Valid() && this.isJson == isJson
      ensures collections == {} && wbos == map[] && nextKey == 0
    {
      this.isJson := isJson;
      collections := {};
      wbos := map[];
      nextKey := 0;
    }

    /** WBO.get_by_collection_and_wbo_id: the record of collection `c` with id
        `id`, the first in key order if several. */
    function GetByCollectionAndWboId(c: CollectionRef, id: string): (r: Option<Wbo>)
      reads this
      ensures r.Some? ==> r.value in RecordsOf(wbos, c) && r.value.wboId == id
      ensures r.Some? && UniqueIds(RecordsOf(wbos, c)) ==>
                forall w :: w in RecordsOf(wbos, c) && w.wboId == id ==> w == r.value
      ensures r.None? <==> !exists w :: w in RecordsOf(wbos, c) && w.wboId == id
    {
      var s := RecordsOf(wbos, c);
      HasRecordMeans(wbos, c, id);
      match IndexOf(s, id)
      case None => None
      case Some(i) => Some(s[i])
    }

    /** WBO.exists_by_collection_and_wbo_id: some record of `c` has id `id`;
        exactly when the lookup by id finds one. */
    function ExistsByCollectionAndWboId(c: CollectionRef, id: string): (b: bool)
      reads this
      ensures b <==> exists w :: w in RecordsOf(wbos, c) && w.wboId == id
      ensures b <==> GetByCollectionAndWboId(c, id).Some?
    {
      HasRecordMeans(wbos, c, id);
      HasRecord(wbos, c, id)
    }

    /** Collection.get_by_profile_and_name: the collection `name` of `profile`,
        created when missing. The datastore refuses an empty name. */
    method GetByProfileAndName(profile: string, name: string) returns (r: Option<CollectionRef>)
      modifies this`collections
      ensures name == "" ==> r.None? && collections == old(collections)
      ensures name != "" ==> r == Some(CollectionRef(profile, name)) && collections == old(collections) + {r.value}
    {
      if name == "" {
        return None;
      }
      var c := CollectionRef(profile, name);
      if c !in collections {
        collections := collections + {c};
      }
      r := Some(c);
    }

    /** The parentid / predecessorid check of WBO.validate: a reference that is
        too long, or names no record of the collection, is reported. */
    method CheckReference(ref: Option<string>, c: Option<CollectionRef>, reason: Reason) returns (errors: seq<Reason>)
      ensures errors == Report(ReferenceRule(ref, c, wbos), reason)
    {
      errors := [];
      if ref.Some? {
        var p := ref.value;
        if |p| > MaxIdLength {
          errors := [reason];
        } else if c.Some? {
          HasRecordMeans(wbos, c.value, p);
          if !ExistsByCollectionAndWboId(c.value, p) {
            errors := [reason];
          }
        }
      }
    }

    /** The payload check of WBO.validate: a payload over the size limit is
        reported as too large and not parsed; one within it must be JSON. */
    method CheckPayload(payload: Option<string>) returns (errors: seq<Reason>)
      ensures errors == Report(PayloadSizeRule(payload), PayloadTooLarge)
                        + Report(PayloadJsonRule(payload, isJson), PayloadNotJson)
    {
      errors := [];
      if payload.Some? {
        var p := payload.value;
        if |p| > PayloadMaxSize {
          errors := [PayloadTooLarge];
        } else if !isJson(p) {
          errors := [PayloadNotJson];
        }
      }
    }

    /** WBO.validate: the reasons `data` is refused, in rule order, and the
        dictionary after its `id` key is renamed to `wbo_id`. */
    method Validate(data: Candidate) returns (errors: seq<Reason>, renamed: Candidate)
      ensures renamed == RenameId(data)
      ensures errors == ValidationErrors(data, wbos, isJson)
    {
      renamed := data;
      if renamed.id.Some? {
        renamed := renamed.(wboId := renamed.id, id := None);
      }
      errors := [];
      var id := renamed.wboId;
      ghost var e0 := errors;
      if id.None? || id.value == "" || |id.value| > MaxIdLength || '/' in id.value {
        errors := errors + [InvalidId];
      }
      assert errors == e0 + Report(IdRule(id), InvalidId);
      var c := renamed.collection;
      ghost var e1 := errors;
      if c.None? || |c.value.name| > MaxIdLength {
        errors := errors + [InvalidCollection];
      }
      assert errors == e1 + Report(CollectionRule(c), InvalidCollection);
      var parentidErrors := CheckReference(renamed.parentid, c, InvalidParentid);
      errors := errors + parentidErrors;
      var predecessoridErrors := CheckReference(renamed.predecessorid, c, InvalidPredecessorid);
      errors := errors + predecessoridErrors;
      ghost var e4 := errors;
      if renamed.modified.None? || renamed.modified.value == 0.0 {
        errors := errors + [NoModificationDate];
      }
      assert errors == e4 + Report(ModifiedRule(renamed.modified), NoModificationDate);
      ghost var e5 := errors;
      if renamed.sortindex.Some? {
        var i := renamed.sortindex.value;
        if i > SortindexBound || i < -SortindexBound {
          errors := errors + [InvalidSortindex];
        }
      }
      assert errors == e5 + Report(SortindexRule(renamed.sortindex), InvalidSortindex);
      ghost var e6 := errors;
      var payloadErrors := CheckPayload(renamed.payload);
      errors := errors + payloadErrors;
      assert errors == e6 + Report(PayloadSizeRule(renamed.payload), PayloadTooLarge)
                          + Report(PayloadJsonRule(renamed.payload, isJson), PayloadNotJson);
      assert e0 + Report(IdRule(id), InvalidId) == Report(IdRule(id), InvalidId);
      assert RenameId(data) == renamed;
    }

    /** WBO.insert_or_update: resolves the collection (creating a named one),
        assembles and validates the record, then creates or overwrites it. */
    method InsertOrUpdate(r: WriteRequest, now: real) returns (outcome: WriteOutcome)
      requires Valid()
      modifies this
      ensures Valid()
      ensures var st := ApplyWrite(old(wbos), old(nextKey), r, now, isJson);
        outcome == st.outcome && wbos == st.entities && nextKey == st.next
      ensures collections == old(collections) + CreatedCollections(r)
    {
      WriteKeepsStoreValid(wbos, nextKey, r, now, isJson);
      var target: Option<CollectionRef> := None;
      match r.target {
        case Direct(c) =>
          target := Some(c);
        case ByName(profile, name) =>
          target := GetByProfileAndName(profile, name);
          if target.None? {
            return Raised(RequiredProperty("name"));
          }
        case NoTarget =>
      }
      var id := ResolvedId(r);
      if id.None? {
        return Raised(MissingKey("wbo_id"));
      }
      if target.None? {
        return Raised(MissingKey("collection"));
      }
      var c := target.value;
      var data := Assemble(r, c, id.value, now);
      var errors, _ := Validate(data);
      if |errors| > 0 {
        return Rejected(errors);
      }
      var existing := GetByCollectionAndWboId(c, id.value);
      var s := RecordsOf(wbos, c);
      if existing.None? {
        if data.payload.None? || data.payload.value == "" {
          return Raised(RequiredProperty("payload"));
        }
        var w := NewRecord(data, nextKey);
        wbos := wbos[c := s + [w]];
        nextKey := nextKey + 1;
        outcome := Written(w);
      } else {
        if data.payload == Some("") {
          return Raised(RequiredProperty("payload"));
        }
        var i := IndexOf(s, id.value).value;
        assert s[i] == existing.value;
        var w := Merge(existing.value, data);
        wbos := wbos[c := s[i := w]];
        outcome := Written(w);
      }
    }

    /** One `if` block of Collection.retrieve: when the filter category `cr`
        is used, its query runs and its key set joins the others. */
    static method FilterBlock(recs: seq<Wbo>, used: bool, cr: Criterion, limit: nat,
                              filterUsed: bool, keySets: seq<set<string>>, ghost done: seq<Criterion>)
      returns (filterUsed2: bool, keySets2: seq<set<string>>, ghost done2: seq<Criterion>)
      requires keySets == KeySets(recs, done, limit) && (filterUsed <==> done != [])
      ensures done2 == done + Optional(used, cr)
      ensures keySets2 == KeySets(recs, done2, limit) && (filterUsed2 <==> done2 != [])
    {
      filterUsed2, keySets2, done2 := filterUsed, keySets, done;
      if used {
        KeySetsAppend(recs, done, cr, limit);
        filterUsed2 := true;
        keySets2, done2 := keySets + [KeySet(recs, cr, limit)], done + [cr];
      }
    }

    /** The filter part of Collection.retrieve: for each filter category the
        options use, in the source's order, the key set of its first `limit`
        matches among `recs`; and whether any filter was used. */
    static method CollectKeySets(recs: seq<Wbo>, o: Options, limit: nat) returns (filterUsed: bool, keySets: seq<set<string>>)
      ensures keySets == KeySets(recs, Criteria(o), limit)
      ensures filterUsed <==> Criteria(o) != []
    {
      ghost var done: seq<Criterion> := [];
      filterUsed, keySets, done := FilterBlock(recs, Truthy(o.id), IdEquals(GetOr(o.id, "")), limit, false, [], done);
      filterUsed, keySets, done := FilterBlock(recs, o.ids.Some? && o.ids.value != [],
        IdAmong(IdSet(GetOr(o.ids, []))), limit, filterUsed, keySets, done);
      // A bound filters only when it is truthy.
      filterUsed, keySets, done := FilterBlock(recs, o.indexAbove.Some? || o.indexBelow.Some?,
        IndexBounds(AppliedInt(o.indexAbove), AppliedInt(o.indexBelow)), limit, filterUsed, keySets, done);
      filterUsed, keySets, done := FilterBlock(recs, o.newer.Some? || o.older.Some?,
        ModifiedBounds(AppliedReal(o.newer), AppliedReal(o.older)), limit, filterUsed, keySets, done);
      filterUsed, keySets, done := FilterBlock(recs, o.parentid.Some?, ParentEquals(GetOr(o.parentid, "")),
        limit, filterUsed, keySets, done);
      filterUsed, keySets, done := FilterBlock(recs, o.predecessorid.Some?, PredecessorEquals(GetOr(o.predecessorid, "")),
        limit, filterUsed, keySets, done);
      assert [] + Optional(Truthy(o.id), IdEquals(GetOr(o.id, ""))) == Optional(Truthy(o.id), IdEquals(GetOr(o.id, "")));
      assert done == Criteria(o);
    }

    /** Collection.retrieve on collection `c`: the records whose ids lie in every
        key set (all records when no filter is used), sorted and paged, as ids or
        as dictionaries. */
    method Retrieve(c: CollectionRef, o: Options) returns (out: Listing)
      ensures out == Retrieved(RecordsOf(wbos, c), o)
    {
      var recs := RecordsOf(wbos, c);
      var limit := Limit(o);
      var offset := Offset(o);
      var filterUsed, keySets := CollectKeySets(recs, o, limit);

      var scope := recs;
      if filterUsed {
        var keys := if |keySets| == 0 then {} else Intersect(keySets);
        scope := Where(recs, IdAmong(keys));
      }
      assert scope == Scope(recs, o);
      var order := ResolveSort(o);
      var page := Page(SortBy(scope, order), offset, limit);
      assert page == QueryRecords(recs, o);
      if !o.full {
        out := IdList(seq(|page|, i requires 0 <= i < |page| => page[i].wboId));
      } else {
        out := DictList(seq(|page|, i requires 0 <= i < |page| => ToDict(page[i])));
      }
    }

    /** Collection.delete: deletes the records of `c` one by one, then `c`. */
    method Delete(c: CollectionRef)
      requires Valid()
      modifies this
      ensures Valid()
      ensures collections == old(collections) - {c}
      ensures wbos == old(wbos) - {c}
      ensures nextKey == old(nextKey)
    {
      var q := RecordsOf(wbos, c);
      var i := 0;
      while i < |q|
        invariant 0 <= i <= |q|
        invariant q != [] ==> c in old(wbos)
        invariant wbos == if c in old(wbos) then old(wbos)[c := q[i..]] else old(wbos)
        invariant collections == old(collections) && nextKey == old(nextKey)
      {
        wbos := wbos[c := q[i + 1..]];
        i := i + 1;
      }
      wbos := wbos - {c};
      collections := collections - {c};
      DeleteKeepsStoreValid(old(wbos), nextKey, c, isJson);
      assert wbos == old(wbos) - {c};
    }

    /** The collections of `profile`. */
    function ProfileCollections(profile: string): set<CollectionRef>
      reads this
    {
      set c | c in collections && c.profile == profile
    }

    /** Collection.get_counts: every built-in name and every collection name of
        `profile`, each with the number of records of that collection (0 for a
        built-in name the profile has no collection of). */
    method GetCounts(profile: string) returns (counts: map<string, int>)
      ensures forall n :: n in counts <==> IsBuiltin(n) || CollectionRef(profile, n) in collections
      ensures forall n :: n in counts ==>
        counts[n] == if CollectionRef(profile, n) in collections then |RecordsOf(wbos, CollectionRef(profile, n))| else 0
    {
      counts := map n | n in BuiltinNames :: 0;
      var todo := ProfileCollections(profile);
      ghost var done: set<CollectionRef> := {};
      while todo != {}
        invariant todo + done == ProfileCollections(profile) && todo !! done
        invariant forall n :: n in counts <==> n in BuiltinNames || CollectionRef(profile, n) in done
        invariant forall n :: n in counts ==>
          counts[n] == if CollectionRef(profile, n) in done then |RecordsOf(wbos, CollectionRef(profile, n))| else 0
        decreases todo
      {
        var c :| c in todo;
        counts := counts[c.name := |RecordsOf(wbos, c)|];
        todo := todo - {c};
        done := done + {c};
      }
    }

    /** Collection.get_timestamps: every built-in name and every collection name
        of `profile`, each with the newest modified time of that collection's
        records (0 for an empty collection or a built-in name without one). */
    method GetTimestamps(profile: string) returns (stamps: map<string, real>)
      ensures forall n :: n in stamps <==> IsBuiltin(n) || CollectionRef(profile, n) in collections
      ensures forall n :: n in stamps && CollectionRef(profile, n) !in collections ==> stamps[n] == 0.0
      ensures forall n :: n in stamps && CollectionRef(profile, n) in collections ==>
        (forall w :: w in RecordsOf(wbos, CollectionRef(profile, n)) ==> w.modified <= stamps[n])
        && (RecordsOf(wbos, CollectionRef(profile, n)) == [] ==> stamps[n] == 0.0)
        && (RecordsOf(wbos, CollectionRef(profile, n)) != [] ==>
              exists w :: w in RecordsOf(wbos, CollectionRef(profile, n)) && w.modified == stamps[n])
    {
      stamps := map n | n in BuiltinNames :: 0.0;
      var todo := ProfileCollections(profile);
      ghost var done: set<CollectionRef> := {};
      while todo != {}
        invariant todo + done == ProfileCollections(profile) && todo !! done
        invariant forall n :: n in stamps <==> n in BuiltinNames || CollectionRef(profile, n) in done
        invariant forall n :: n in stamps ==>
          stamps[n] == if CollectionRef(profile, n) in done then LatestModified(RecordsOf(wbos, CollectionRef(profile, n))) else 0.0
        decreases todo
      {
        var c :| c in todo;
        stamps := stamps[c.name := LatestModified(RecordsOf(wbos, c))];
        todo := todo - {c};
        done := done + {c};
      }
    }
  }
}
