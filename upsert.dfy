/** WBO.insert_or_update, its pure part: the request, how the wbo_data
    dictionary is assembled from it, and how a record is created from that
    dictionary or an existing record overwritten with it. */
module Upsert {
  import opened Records
  import opened Validation

  /** Where a write goes: a collection given directly, a profile key and a
      collection name (the collection is created when missing), or neither. */
  datatype Target = Direct(collection: CollectionRef) | ByName(profile: string, name: string) | NoTarget

  /** The keys of data_in that insert_or_update reads; any other key is ignored. */
  datatype WriteRequest = WriteRequest(
    target: Target,
    id: Option<string>,
    wboId: Option<string>,
    sortindex: Option<int>,
    parentid: Option<string>,
    predecessorid: Option<string>,
    payload: Option<string>)

  /** Failures the source raises instead of returning: a key missing from
      data_in (KeyError), or a required datastore property left empty. */
  datatype Failure = MissingKey(key: string) | RequiredProperty(name: string)

  /** The (wbo, errors) pair insert_or_update returns, or the exception it raises. */
  datatype WriteOutcome = Written(wbo: Wbo) | Rejected(errors: seq<Reason>) | Raised(failure: Failure)

  function ResolvedCollection(t: Target): Option<CollectionRef>
  {
    match t
    case Direct(c) => Some(c)
    case ByName(p, n) => Some(CollectionRef(p, n))
    case NoTarget => None
  }

  /** A client `id` replaces `wbo_id`. */
  function ResolvedId(r: WriteRequest): Option<string>
  {
    if r.id.Some? then r.id else r.wboId
  }

  /** The wbo_data insert_or_update validates and stores: the four client
      fields that were supplied, the collection, the id, the stamp `now`, and
      the payload size when a payload was supplied. */
  function Assemble(r: WriteRequest, c: CollectionRef, id: string, now: real): (d: Candidate)
    ensures d.id.None? && d.wboId == Some(id) && d.collection == Some(c) && d.modified == Some(now)
    ensures d.sortindex == r.sortindex && d.parentid == r.parentid && d.predecessorid == r.predecessorid
    ensures d.payload == r.payload
    ensures d.payload.Some? <==> d.payloadSize.Some?
    ensures d.payload.Some? ==> d.payloadSize.value == |d.payload.value|
  {
    Candidate(None, Some(id), Some(c), r.parentid, r.predecessorid, Some(now), r.sortindex, r.payload,
              if r.payload.Some? then Some(|r.payload.value|) else None)
  }

  /** A candidate that names its record: id, collection and stamp present. */
  predicate Addressed(d: Candidate)
  {
    d.wboId.Some? && d.collection.Some? && d.modified.Some?
  }

  /** WBO(**wbo_data): a new entity of exactly the supplied fields, the others
      at their defaults (no parent or predecessor, sortindex 0). */
  function NewRecord(d: Candidate, key: nat): Wbo
    requires Addressed(d) && d.payload.Some?
  {
    Wbo(d.collection.value, d.wboId.value, d.modified.value, d.parentid, d.predecessorid,
        GetOr(d.sortindex, 0), d.payload.value, GetOr(d.payloadSize, 0), key)
  }

  /** The setattr loop over wbo_data: each supplied field overwrites the
      record's, every other field keeps its value. */
  function Merge(w: Wbo, d: Candidate): Wbo
    requires Addressed(d)
  {
    w.(collection := d.collection.value,
       wboId := d.wboId.value,
       modified := d.modified.value,
       parentid := if d.parentid.Some? then d.parentid else w.parentid,
       predecessorid := if d.predecessorid.Some? then d.predecessorid else w.predecessorid,
       sortindex := GetOr(d.sortindex, w.sortindex),
       payload := GetOr(d.payload, w.payload),
       payloadSize := GetOr(d.payloadSize, w.payloadSize))
  }

  /** Whether wbo_data carries field `f`; `modified` and `id` it always carries. */
  predicate Supplied(d: Candidate, f: Field)
  {
    match f
    case SortIndex => d.sortindex.Some?
    case ParentId => d.parentid.Some?
    case PredecessorId => d.predecessorid.Some?
    case Payload => d.payload.Some?
    case PayloadSize => d.payloadSize.Some?
    case Modified => d.modified.Some?
    case Id => d.wboId.Some?
  }

  /** The value wbo_data gives field `f`, in dictionary form. */
  function SuppliedValue(d: Candidate, f: Field): Value
    requires Supplied(d, f)
  {
    match f
    case SortIndex => IntValue(d.sortindex.value)
    case ParentId => TextValue(d.parentid.value)
    case PredecessorId => TextValue(d.predecessorid.value)
    case Payload => TextValue(d.payload.value)
    case PayloadSize => IntValue(d.payloadSize.value)
    case Modified => RealValue(d.modified.value)
    case Id => TextValue(d.wboId.value)
  }

  /** Field-wise merge: every field wbo_data supplies is overwritten, every
      other field is preserved; the record keeps its collection and key. */
  lemma MergeFieldwise(w: Wbo, d: Candidate)
    requires Addressed(d) && d.collection == Some(w.collection)
    ensures var m := Merge(w, d);
      && m.collection == w.collection && m.key == w.key
      && forall f :: FieldValue(m, f) == if Supplied(d, f) then SuppliedValue(d, f) else FieldValue(w, f)
  {
    var m := Merge(w, d);
    forall f ensures FieldValue(m, f) == if Supplied(d, f) then SuppliedValue(d, f) else FieldValue(w, f) {
      match f
      case SortIndex =>
      case ParentId =>
      case PredecessorId =>
      case Payload =>
      case PayloadSize =>
      case Modified =>
      case Id =>
    }
  }

  /** Writing the same fields again overrides the earlier write completely: the
      record differs only in what the later write stamps (its `modified`). */
  lemma MergeOverridesEarlierWrite(w: Wbo, d1: Candidate, d2: Candidate)
    requires Addressed(d1) && Addressed(d2)
    requires forall f :: Supplied(d1, f) ==> Supplied(d2, f)
    ensures Merge(Merge(w, d1), d2) == Merge(w, d2)
  {
    assert Supplied(d1, SortIndex) ==> Supplied(d2, SortIndex);
    assert Supplied(d1, ParentId) ==> Supplied(d2, ParentId);
    assert Supplied(d1, PredecessorId) ==> Supplied(d2, PredecessorId);
    assert Supplied(d1, Payload) ==> Supplied(d2, Payload);
    assert Supplied(d1, PayloadSize) ==> Supplied(d2, PayloadSize);
  }

  /** A write supplying all four client fields leaves an existing record equal
      to the record the same write would create. */
  lemma FullWriteCreatesOrOverwritesAlike(w: Wbo, r: WriteRequest, c: CollectionRef, id: string, now: real)
    requires r.sortindex.Some? && r.parentid.Some? && r.predecessorid.Some? && r.payload.Some?
    ensures Merge(w, Assemble(r, c, id, now)) == NewRecord(Assemble(r, c, id, now), w.key)
  {
  }

  /** The validated fields of a stored record, as the validator sees them. */
  function AsCandidate(w: Wbo): Candidate
  {
    Candidate(None, Some(w.wboId), Some(w.collection), w.parentid, w.predecessorid,
              Some(w.modified), Some(w.sortindex), Some(w.payload), Some(w.payloadSize))
  }

  /** What holds of every stored record: it passes validation against the
      current datastore, its payload is not empty (a datastore requirement)
      and its payload size is the payload's length. */
  ghost predicate Stored(w: Wbo, e: Entities, isJson: string -> bool)
  {
    Acceptable(AsCandidate(w), e, isJson) && w.payload != "" && w.payloadSize == |w.payload|
  }

  /** A record created from an accepted write is a stored record. */
  lemma NewRecordStored(d: Candidate, key: nat, e: Entities, isJson: string -> bool)
    requires Addressed(d) && d.id.None? && d.payload.Some? && d.payload.value != ""
    requires d.payload.Some? ==> d.payloadSize == Some(|d.payload.value|)
    requires Acceptable(d, e, isJson)
    ensures Stored(NewRecord(d, key), e, isJson)
  {
  }

  /** Overwriting a stored record with an accepted write yields a stored record. */
  lemma MergeStored(w: Wbo, d: Candidate, e: Entities, isJson: string -> bool)
    requires Addressed(d) && d.id.None? && d.collection == Some(w.collection)
    requires d.payload != Some("")
    requires d.payload.Some? <==> d.payloadSize.Some?
    requires d.payload.Some? ==> d.payloadSize == Some(|d.payload.value|)
    requires Stored(w, e, isJson) && Acceptable(d, e, isJson)
    ensures Stored(Merge(w, d), e, isJson)
  {
  }

  /** Every id of every collection of `e` is still there in `e2`. */
  ghost predicate IdsKept(e: Entities, e2: Entities)
  {
    forall c, id :: HasRecord(e, c, id) ==> HasRecord(e2, c, id)
  }

  /** Validation only looks ids up, so adding records never makes an accepted
      candidate unacceptable. */
  lemma AcceptableWhenIdsKept(d: Candidate, e: Entities, e2: Entities, isJson: string -> bool)
    requires IdsKept(e, e2) && Acceptable(d, e, isJson)
    ensures Acceptable(d, e2, isJson)
  {
  }

  /** The state of a write: its outcome, the entities afterwards and the key
      the datastore allocates next. */
  datatype Step = Step(outcome: WriteOutcome, entities: Entities, next: nat)

  /** insert_or_update on entities `e`, `next` being the key the datastore
      allocates to the next new entity and `now` the time get_time_now gives.
      The steps come in the source's order: the collection is looked up or
      created (an empty name is refused by the datastore), then `wbo_id` and
      `collection` are read, the candidate assembled and validated, and the
      record either created or overwritten in place. */
  function ApplyWrite(e: Entities, next: nat, r: WriteRequest, now: real, isJson: string -> bool): Step
  {
    if r.target.ByName? && r.target.name == "" then Step(Raised(RequiredProperty("name")), e, next)
    else if ResolvedId(r).None? then Step(Raised(MissingKey("wbo_id")), e, next)
    else if ResolvedCollection(r.target).None? then Step(Raised(MissingKey("collection")), e, next)
    else
      var c := ResolvedCollection(r.target).value;
      var d := Assemble(r, c, ResolvedId(r).value, now);
      var errs := ValidationErrors(d, e, isJson);
      if errs != [] then Step(Rejected(errs), e, next)
      else
        var s := RecordsOf(e, c);
        match IndexOf(s, d.wboId.value)
        case None =>
          if d.payload.None? || d.payload.value == "" then Step(Raised(RequiredProperty("payload")), e, next)
          else
            var w := NewRecord(d, next);
            Step(Written(w), e[c := s + [w]], next + 1)
        case Some(i) =>
          if d.payload == Some("") then Step(Raised(RequiredProperty("payload")), e, next)
          else
            var w := Merge(s[i], d);
            Step(Written(w), e[c := s[i := w]], next)
  }

  /** The collections a write creates: the named one, unless its name is empty. */
  function CreatedCollections(r: WriteRequest): set<CollectionRef>
  {
    if r.target.ByName? && r.target.name != "" then {CollectionRef(r.target.profile, r.target.name)} else {}
  }

  /** A write that resolves its id and collection is rejected exactly when the
      assembled candidate breaks a rule, with the validator's reasons, and a
      rejected write changes nothing. */
  lemma WriteRejectedIffInvalid(e: Entities, next: nat, r: WriteRequest, now: real, isJson: string -> bool)
    requires !(r.target.ByName? && r.target.name == "")
    requires ResolvedId(r).Some? && ResolvedCollection(r.target).Some?
    ensures var d := Assemble(r, ResolvedCollection(r.target).value, ResolvedId(r).value, now);
      var st := ApplyWrite(e, next, r, now, isJson);
      && (st.outcome.Rejected? <==> !Acceptable(d, e, isJson))
      && (st.outcome.Rejected? ==>
            st.outcome.errors == ValidationErrors(d, e, isJson) && st.entities == e && st.next == next)
  {
    var d := Assemble(r, ResolvedCollection(r.target).value, ResolvedId(r).value, now);
    NoErrorsIffAcceptable(d, e, isJson);
  }

  /** The empty text is not JSON, so a write giving an empty payload that
      reaches validation is rejected as not JSON-encoded: it never reaches the
      datastore's required-property check. */
  lemma EmptyPayloadRejected(e: Entities, next: nat, r: WriteRequest, now: real, isJson: string -> bool)
    requires !isJson("") && r.payload == Some("")
    requires !(r.target.ByName? && r.target.name == "")
    requires ResolvedId(r).Some? && ResolvedCollection(r.target).Some?
    ensures var st := ApplyWrite(e, next, r, now, isJson);
      && st.outcome.Rejected? && PayloadNotJson in st.outcome.errors
      && st.entities == e && st.next == next
  {
    var d := Assemble(r, ResolvedCollection(r.target).value, ResolvedId(r).value, now);
    PayloadErrorsReported(d, e, isJson);
  }

  /** A write touches only its own collection, never removes an id, and when it
      writes nothing it leaves the entities and the key counter as they were. */
  lemma WriteChangesOnlyItsCollection(e: Entities, next: nat, r: WriteRequest, now: real, isJson: string -> bool)
    ensures var st := ApplyWrite(e, next, r, now, isJson);
      && IdsKept(e, st.entities)
      && (forall c :: Some(c) != ResolvedCollection(r.target) ==> RecordsOf(st.entities, c) == RecordsOf(e, c))
      && (!st.outcome.Written? ==> st.entities == e && st.next == next)
      && st.next >= next
  {
    var st := ApplyWrite(e, next, r, now, isJson);
    if st.outcome.Written? {
      var c := ResolvedCollection(r.target).value;
      var s := RecordsOf(e, c);
      var s2 := RecordsOf(st.entities, c);
      forall c2, id | HasRecord(e, c2, id) ensures HasRecord(st.entities, c2, id) {
        HasRecordMeans(e, c2, id);
        HasRecordMeans(st.entities, c2, id);
        if c2 == c {
          var w :| w in s && w.wboId == id;
          var k :| 0 <= k < |s| && s[k] == w;
          assert k < |s2| && s2[k].wboId == id;
        }
      }
    }
  }

  /** After a write the record is found under its id: get_by_collection_and_wbo_id
      returns exactly the record written, stamped with the write's time. */
  lemma WrittenRecordIsFound(e: Entities, next: nat, r: WriteRequest, now: real, isJson: string -> bool)
    requires ApplyWrite(e, next, r, now, isJson).outcome.Written?
    ensures var st := ApplyWrite(e, next, r, now, isJson);
      var c := ResolvedCollection(r.target).value;
      var id := ResolvedId(r).value;
      var s2 := RecordsOf(st.entities, c);
      && st.outcome.wbo.collection == c && st.outcome.wbo.wboId == id && st.outcome.wbo.modified == now
      && IndexOf(s2, id).Some? && s2[IndexOf(s2, id).value] == st.outcome.wbo
  {
    var c := ResolvedCollection(r.target).value;
    var id := ResolvedId(r).value;
    var s := RecordsOf(e, c);
    var d := Assemble(r, c, id, now);
    match IndexOf(s, id)
    case None => IndexOfAppended(s, NewRecord(d, next));
    case Some(i) => IndexOfReplaced(s, i, Merge(s[i], d));
  }

  /** The written record carries every field the write supplied, with the
      value supplied. A created record takes the defaults for the rest
      (sortindex 0, no parent, no predecessor) and the next key; an overwritten
      record keeps its other fields and its key. */
  lemma WrittenRecordCarriesRequest(e: Entities, next: nat, r: WriteRequest, now: real, isJson: string -> bool)
    requires ApplyWrite(e, next, r, now, isJson).outcome.Written?
    ensures var c := ResolvedCollection(r.target).value;
      var d := Assemble(r, c, ResolvedId(r).value, now);
      var s := RecordsOf(e, c);
      var w := ApplyWrite(e, next, r, now, isJson).outcome.wbo;
      && (forall f :: Supplied(d, f) ==> FieldValue(w, f) == SuppliedValue(d, f))
      && (IndexOf(s, d.wboId.value).None? ==>
            && w.key == next && w.sortindex == GetOr(r.sortindex, 0)
            && w.parentid == r.parentid && w.predecessorid == r.predecessorid)
      && (IndexOf(s, d.wboId.value).Some? ==>
            var v := s[IndexOf(s, d.wboId.value).value];
            && w.key == v.key
            && forall f :: !Supplied(d, f) ==> FieldValue(w, f) == FieldValue(v, f))
  {
    var c := ResolvedCollection(r.target).value;
    var d := Assemble(r, c, ResolvedId(r).value, now);
    var s := RecordsOf(e, c);
    var w := ApplyWrite(e, next, r, now, isJson).outcome.wbo;
    forall f | Supplied(d, f) ensures FieldValue(w, f) == SuppliedValue(d, f) {
      match f
      case SortIndex =>
      case ParentId =>
      case PredecessorId =>
      case Payload =>
      case PayloadSize =>
      case Modified =>
      case Id =>
    }
    match IndexOf(s, d.wboId.value)
    case None =>
    case Some(i) =>
      forall f | !Supplied(d, f) ensures FieldValue(w, f) == FieldValue(s[i], f) {
        match f
        case SortIndex =>
        case ParentId =>
        case PredecessorId =>
        case Payload =>
        case PayloadSize =>
        case Modified =>
        case Id =>
      }
  }

  /** The second write of a retry passes validation: it differs from the
      accepted first one only in its non-zero stamp, and the first one removed
      no id its references could name. */
  lemma RetryAccepted(e: Entities, next: nat, r: WriteRequest, t1: real, t2: real, isJson: string -> bool)
    requires ApplyWrite(e, next, r, t1, isJson).outcome.Written?
    requires t2 != 0.0
    ensures var c := ResolvedCollection(r.target).value;
      var d2 := Assemble(r, c, ResolvedId(r).value, t2);
      && ValidationErrors(d2, e, isJson) == []
      && ValidationErrors(d2, ApplyWrite(e, next, r, t1, isJson).entities, isJson) == []
  {
    var c := ResolvedCollection(r.target).value;
    var id := ResolvedId(r).value;
    var d1 := Assemble(r, c, id, t1);
    var d2 := Assemble(r, c, id, t2);
    var e1 := ApplyWrite(e, next, r, t1, isJson).entities;
    NoErrorsIffAcceptable(d1, e, isJson);
    WriteChangesOnlyItsCollection(e, next, r, t1, isJson);
    AcceptableWhenIdsKept(d2, e, e1, isJson);
    NoErrorsIffAcceptable(d2, e1, isJson);
    NoErrorsIffAcceptable(d2, e, isJson);
  }

  /** A retry of a write that created its record overwrites that record with
      what a single write at `t2` would have created. */
  lemma {:induction false} RetryOfCreate(e: Entities, next: nat, r: WriteRequest, t1: real, t2: real, isJson: string -> bool)
    requires ApplyWrite(e, next, r, t1, isJson).outcome.Written?
    requires t2 != 0.0
    requires IndexOf(RecordsOf(e, ResolvedCollection(r.target).value), ResolvedId(r).value).None?
    ensures var st1 := ApplyWrite(e, next, r, t1, isJson);
      ApplyWrite(st1.entities, st1.next, r, t2, isJson) == ApplyWrite(e, next, r, t2, isJson)
  {
    var st1 := ApplyWrite(e, next, r, t1, isJson);
    var c := ResolvedCollection(r.target).value;
    var id := ResolvedId(r).value;
    var s := RecordsOf(e, c);
    var d1 := Assemble(r, c, id, t1);
    var d2 := Assemble(r, c, id, t2);
    RetryAccepted(e, next, r, t1, t2, isJson);
    var w1 := NewRecord(d1, next);
    assert st1 == Step(Written(w1), e[c := s + [w1]], next + 1);
    IndexOfAppended(s, w1);
    assert Merge(w1, d2) == NewRecord(d2, next);
    assert (s + [w1])[|s| := Merge(w1, d2)] == s + [NewRecord(d2, next)];
  }

  /** A retry of a write that overwrote its record overwrites it again as a
      single write at `t2` would have. */
  lemma {:induction false} RetryOfOverwrite(e: Entities, next: nat, r: WriteRequest, t1: real, t2: real, isJson: string -> bool)
    requires ApplyWrite(e, next, r, t1, isJson).outcome.Written?
    requires t2 != 0.0
    requires IndexOf(RecordsOf(e, ResolvedCollection(r.target).value), ResolvedId(r).value).Some?
    ensures var st1 := ApplyWrite(e, next, r, t1, isJson);
      ApplyWrite(st1.entities, st1.next, r, t2, isJson) == ApplyWrite(e, next, r, t2, isJson)
  {
    var st1 := ApplyWrite(e, next, r, t1, isJson);
    var c := ResolvedCollection(r.target).value;
    var id := ResolvedId(r).value;
    var s := RecordsOf(e, c);
    var d1 := Assemble(r, c, id, t1);
    var d2 := Assemble(r, c, id, t2);
    RetryAccepted(e, next, r, t1, t2, isJson);
    var i := IndexOf(s, id).value;
    var w1 := Merge(s[i], d1);
    assert st1 == Step(Written(w1), e[c := s[i := w1]], next);
    IndexOfReplaced(s, i, w1);
    MergeOverridesEarlierWrite(s[i], d1, d2);
    var w2 := Merge(s[i], d2);
    assert RecordsOf(st1.entities, c) == s[i := w1];
    assert s[i := w1][i := Merge(w1, d2)] == s[i := w2];
    assert ApplyWrite(st1.entities, st1.next, r, t2, isJson) == Step(Written(w2), e[c := s[i := w2]], next);
    assert ApplyWrite(e, next, r, t2, isJson) == Step(Written(w2), e[c := s[i := w2]], next);
  }

  /** A retried write, sent again at a later time `t2` after it was accepted at
      `t1`, leaves the datastore as a single write at `t2` would, with the same
      outcome: a retry never duplicates a record. */
  lemma {:induction false} RetriedWriteActsOnce(e: Entities, next: nat, r: WriteRequest, t1: real, t2: real, isJson: string -> bool)
    requires ApplyWrite(e, next, r, t1, isJson).outcome.Written?
    requires t2 != 0.0
    ensures var st1 := ApplyWrite(e, next, r, t1, isJson);
      ApplyWrite(st1.entities, st1.next, r, t2, isJson) == ApplyWrite(e, next, r, t2, isJson)
  {
    if IndexOf(RecordsOf(e, ResolvedCollection(r.target).value), ResolvedId(r).value).None? {
      RetryOfCreate(e, next, r, t1, t2, isJson);
    } else {
      RetryOfOverwrite(e, next, r, t1, t2, isJson);
    }
  }
}
