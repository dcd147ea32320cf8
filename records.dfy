/** The stored record of the sync store: a Weave Basic Object (WBO), the
    collection it lives in, its dictionary form for JSON responses, and the
    lookups by (collection, wbo_id) that the validator and the upsert use. */
module Records {

  datatype Option<+T> = None | Some(value: T)

  /** The value of `o`, or `default` when there is none. */
  function GetOr<T>(o: Option<T>, default: T): T
  {
    if o.Some? then o.value else default
  }

  /** Longest accepted record id, parentid, predecessorid and collection name. */
  const MaxIdLength: nat := 64
  /** WBO.WEAVE_PAYLOAD_MAX_SIZE: longest accepted payload, in characters. */
  const PayloadMaxSize: nat := 262144
  /** sortindex must lie in [-SortindexBound, SortindexBound]. */
  const SortindexBound: int := 999999999

  /** A collection is identified by the profile (account) key that owns it and its name. */
  datatype CollectionRef = CollectionRef(profile: string, name: string)

  /** A WBO entity. `modified` is seconds since the epoch (exact); `key` is the
      numeric id the datastore allocated to the entity, by which it orders
      unordered fetches and breaks ties of an ordered one. */
  datatype Wbo = Wbo(
    collection: CollectionRef,
    wboId: string,
    modified: real,
    parentid: Option<string>,
    predecessorid: Option<string>,
    sortindex: int,
    payload: string,
    payloadSize: int,
    key: nat)

  /** The WBO entities stored under each collection. */
  type Entities = map<CollectionRef, seq<Wbo>>

  function RecordsOf(e: Entities, c: CollectionRef): seq<Wbo>
  {
    if c in e then e[c] else []
  }

  /** First position of a record with the given id, if any. */
  function IndexOf(s: seq<Wbo>, id: string): (r: Option<nat>)
    ensures r.Some? ==> r.value < |s| && s[r.value].wboId == id
    ensures r.Some? ==> forall j :: 0 <= j < r.value ==> s[j].wboId != id
    ensures r.None? <==> forall j :: 0 <= j < |s| ==> s[j].wboId != id
  {
    if |s| == 0 then None
    else if s[0].wboId == id then Some(0)
    else match IndexOf(s[1..], id)
      case None => None
      case Some(k) => Some(k + 1)
  }

  /** WBO.exists_by_collection_and_wbo_id on a snapshot of the datastore. */
  predicate HasRecord(e: Entities, c: CollectionRef, id: string)
  {
    IndexOf(RecordsOf(e, c), id).Some?
  }

  /** A record appended under a new id is found at the end. */
  lemma IndexOfAppended(s: seq<Wbo>, w: Wbo)
    requires IndexOf(s, w.wboId).None?
    ensures IndexOf(s + [w], w.wboId) == Some(|s|)
  {
    var t := s + [w];
    assert t[|s|].wboId == w.wboId;
    assert forall j :: 0 <= j < |s| ==> t[j] == s[j];
  }

  /** A record replaced by one of the same id is still found at its position. */
  lemma IndexOfReplaced(s: seq<Wbo>, i: nat, w: Wbo)
    requires IndexOf(s, w.wboId) == Some(i)
    ensures IndexOf(s[i := w], w.wboId) == Some(i)
  {
    var t := s[i := w];
    assert t[i].wboId == w.wboId;
    assert forall j :: 0 <= j < i ==> t[j] == s[j];
  }

  lemma HasRecordMeans(e: Entities, c: CollectionRef, id: string)
    ensures HasRecord(e, c, id) <==> exists w :: w in RecordsOf(e, c) && w.wboId == id
  {
    var s := RecordsOf(e, c);
    if HasRecord(e, c, id) {
      assert s[IndexOf(s, id).value] in s;
    } else {
      forall w | w in s ensures w.wboId != id {
        var i :| 0 <= i < |s| && s[i] == w;
      }
    }
  }

  /** No two records of a collection share an id. */
  predicate UniqueIds(s: seq<Wbo>)
  {
    forall i, j :: 0 <= i < |s| && 0 <= j < |s| && i != j ==> s[i].wboId != s[j].wboId
  }

  /** No two records of a collection share a datastore key. */
  predicate UniqueKeys(s: seq<Wbo>)
  {
    forall i, j :: 0 <= i < |s| && 0 <= j < |s| && i != j ==> s[i].key != s[j].key
  }

  /** Python truthiness of an optional string field. */
  predicate Truthy(o: Option<string>)
  {
    o.Some? && o.value != ""
  }

  /** A field value in the dictionary form of a record. */
  datatype Value = IntValue(i: int) | RealValue(r: real) | TextValue(s: string)

  /** The keys of the dictionary form of a record. */
  datatype Field = SortIndex | ParentId | PredecessorId | Payload | PayloadSize | Modified | Id

  /** The JSON key under which each field is sent. */
  function Name(f: Field): string
  {
    match f
    case SortIndex => "sortindex"
    case ParentId => "parentid"
    case PredecessorId => "predecessorid"
    case Payload => "payload"
    case PayloadSize => "payload_size"
    case Modified => "modified"
    case Id => "id"
  }

  /** Whether field `f` of `w` is truthy (non-zero, non-empty, present); `id` is not
      one of the six fields WBO.to_dict tests. */
  predicate FieldTruthy(w: Wbo, f: Field)
  {
    match f
    case SortIndex => w.sortindex != 0
    case ParentId => Truthy(w.parentid)
    case PredecessorId => Truthy(w.predecessorid)
    case Payload => w.payload != ""
    case PayloadSize => w.payloadSize != 0
    case Modified => w.modified != 0.0
    case Id => false
  }

  const AllFields: set<Field> := {SortIndex, ParentId, PredecessorId, Payload, PayloadSize, Modified, Id}

  /** The value field `f` of `w` takes in the dictionary form. */
  function FieldValue(w: Wbo, f: Field): Value
  {
    match f
    case SortIndex => IntValue(w.sortindex)
    case ParentId => TextValue(if w.parentid.Some? then w.parentid.value else "")
    case PredecessorId => TextValue(if w.predecessorid.Some? then w.predecessorid.value else "")
    case Payload => TextValue(w.payload)
    case PayloadSize => IntValue(w.payloadSize)
    case Modified => RealValue(w.modified)
    case Id => TextValue(w.wboId)
  }

  /** WBO.to_dict: `id` plus every truthy field among the six. */
  function ToDict(w: Wbo): (d: map<Field, Value>)
    ensures forall f :: f in d <==> f == Id || FieldTruthy(w, f)
    ensures d[Id] == TextValue(w.wboId)
  {
    map f | f in AllFields && (f == Id || FieldTruthy(w, f)) :: FieldValue(w, f)
  }

  function IntField(d: map<Field, Value>, f: Field): int
  {
    if f in d && d[f].IntValue? then d[f].i else 0
  }

  function RealField(d: map<Field, Value>, f: Field): real
  {
    if f in d && d[f].RealValue? then d[f].r else 0.0
  }

  function TextField(d: map<Field, Value>, f: Field): string
  {
    if f in d && d[f].TextValue? then d[f].s else ""
  }

  function OptionalTextField(d: map<Field, Value>, f: Field): Option<string>
  {
    if f in d && d[f].TextValue? then Some(d[f].s) else None
  }

  /** Reads a record back from its dictionary form; fields the dictionary omits
      take their falsy defaults. */
  function FromDict(d: map<Field, Value>, c: CollectionRef, key: nat): Wbo
  {
    Wbo(c, TextField(d, Id), RealField(d, Modified),
        OptionalTextField(d, ParentId), OptionalTextField(d, PredecessorId),
        IntField(d, SortIndex), TextField(d, Payload), IntField(d, PayloadSize), key)
  }

  /** to_dict loses nothing of a record whose optional ids are not empty strings:
      the record is recovered from its dictionary, its collection and its key. */
  lemma ToDictRoundTrip(w: Wbo)
    requires w.parentid != Some("") && w.predecessorid != Some("")
    ensures FromDict(ToDict(w), w.collection, w.key) == w
  {
  }
}
