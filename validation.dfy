/** WBO.validate: checks a candidate record and reports every rule it breaks,
    in a fixed order, instead of stopping at the first. */
module Validation {
  import opened Records

  /** The wbo_data dictionary handed to the validator; `None` is a key that is
      absent (or holds None). `id` is the client's name for `wboId`. */
  datatype Candidate = Candidate(
    id: Option<string>,
    wboId: Option<string>,
    collection: Option<CollectionRef>,
    parentid: Option<string>,
    predecessorid: Option<string>,
    modified: Option<real>,
    sortindex: Option<int>,
    payload: Option<string>,
    payloadSize: Option<int>)

  /** The reasons a candidate can be refused for, in the order the validator
      considers them. */
  datatype Reason =
    | InvalidId | InvalidCollection | InvalidParentid | InvalidPredecessorid
    | NoModificationDate | InvalidSortindex | PayloadTooLarge | PayloadNotJson

  /** The text the source reports for each reason. */
  function Message(r: Reason): string
  {
    match r
    case InvalidId => "invalid id"
    case InvalidCollection => "invalid collection"
    case InvalidParentid => "invalid parentid"
    case InvalidPredecessorid => "invalid predecessorid"
    case NoModificationDate => "no modification date"
    case InvalidSortindex => "invalid sortindex"
    case PayloadTooLarge => "payload too large"
    case PayloadNotJson => "payload needs to be json-encoded"
  }

  /** Position of a reason in the validator's order. */
  function Rank(r: Reason): nat
  {
    match r
    case InvalidId => 0
    case InvalidCollection => 1
    case InvalidParentid => 2
    case InvalidPredecessorid => 3
    case NoModificationDate => 4
    case InvalidSortindex => 5
    case PayloadTooLarge => 6
    case PayloadNotJson => 7
  }

  /** The validator's first step: a client `id` key replaces `wbo_id`. */
  function RenameId(c: Candidate): (r: Candidate)
    ensures r.id.None?
    ensures r.wboId == (if c.id.Some? then c.id else c.wboId)
    ensures r == c.(id := None, wboId := r.wboId)
  {
    if c.id.Some? then c.(wboId := c.id, id := None) else c
  }

  // The rules, one predicate each, on the renamed candidate.

  predicate IdRule(id: Option<string>)
  {
    id.Some? && id.value != "" && |id.value| <= MaxIdLength && '/' !in id.value
  }

  predicate CollectionRule(c: Option<CollectionRef>)
  {
    c.Some? && |c.value.name| <= MaxIdLength
  }

  /** parentid / predecessorid: not too long, and naming a record of the same
      collection; the lookup is skipped when there is no collection to look in. */
  predicate ReferenceRule(ref: Option<string>, c: Option<CollectionRef>, e: Entities)
  {
    ref.Some? ==> |ref.value| <= MaxIdLength && (c.Some? ==> HasRecord(e, c.value, ref.value))
  }

  predicate ModifiedRule(m: Option<real>)
  {
    m.Some? && m.value != 0.0
  }

  predicate SortindexRule(s: Option<int>)
  {
    s.Some? ==> -SortindexBound <= s.value <= SortindexBound
  }

  predicate PayloadSizeRule(p: Option<string>)
  {
    p.Some? ==> |p.value| <= PayloadMaxSize
  }

  /** The JSON rule is only consulted on a payload that passed the size rule. */
  predicate PayloadJsonRule(p: Option<string>, isJson: string -> bool)
  {
    p.Some? && |p.value| <= PayloadMaxSize ==> isJson(p.value)
  }

  function Report(ok: bool, r: Reason): seq<Reason>
  {
    if ok then [] else [r]
  }

  /** The reasons WBO.validate returns for `c` against the stored entities `e`,
      JSON text being recognised by `isJson`. */
  function ValidationErrors(c: Candidate, e: Entities, isJson: string -> bool): seq<Reason>
  {
    var d := RenameId(c);
    Report(IdRule(d.wboId), InvalidId)
    + Report(CollectionRule(d.collection), InvalidCollection)
    + Report(ReferenceRule(d.parentid, d.collection, e), InvalidParentid)
    + Report(ReferenceRule(d.predecessorid, d.collection, e), InvalidPredecessorid)
    + Report(ModifiedRule(d.modified), NoModificationDate)
    + Report(SortindexRule(d.sortindex), InvalidSortindex)
    + Report(PayloadSizeRule(d.payload), PayloadTooLarge)
    + Report(PayloadJsonRule(d.payload, isJson), PayloadNotJson)
  }

  /** A valid candidate is exactly one that breaks no rule. */
  predicate Acceptable(c: Candidate, e: Entities, isJson: string -> bool)
  {
    var d := RenameId(c);
    IdRule(d.wboId) && CollectionRule(d.collection)
    && ReferenceRule(d.parentid, d.collection, e) && ReferenceRule(d.predecessorid, d.collection, e)
    && ModifiedRule(d.modified) && SortindexRule(d.sortindex)
    && PayloadSizeRule(d.payload) && PayloadJsonRule(d.payload, isJson)
  }

  predicate RanksIncrease(errs: seq<Reason>)
  {
    forall i, j :: 0 <= i < j < |errs| ==> Rank(errs[i]) < Rank(errs[j])
  }

  /** Appending the report of a rule to the reasons of earlier rules keeps the order. */
  lemma AppendReport(errs: seq<Reason>, ok: bool, r: Reason)
    requires RanksIncrease(errs)
    requires forall m :: m in errs ==> Rank(m) < Rank(r)
    ensures RanksIncrease(errs + Report(ok, r))
    ensures forall m :: m in errs + Report(ok, r) ==> Rank(m) <= Rank(r)
  {
    var s := errs + Report(ok, r);
    forall i, j | 0 <= i < j < |s| ensures Rank(s[i]) < Rank(s[j]) {
      if j >= |errs| {
        assert s[i] in errs;
      }
    }
  }

  /** validate never stops early and never repeats itself: the reasons come in
      the validator's order, each at most once. */
  lemma ErrorsFollowRuleOrder(c: Candidate, e: Entities, isJson: string -> bool)
    ensures RanksIncrease(ValidationErrors(c, e, isJson))
  {
    var d := RenameId(c);
    ReportsInOrder(IdRule(d.wboId), CollectionRule(d.collection),
      ReferenceRule(d.parentid, d.collection, e), ReferenceRule(d.predecessorid, d.collection, e),
      ModifiedRule(d.modified), SortindexRule(d.sortindex),
      PayloadSizeRule(d.payload), PayloadJsonRule(d.payload, isJson));
  }

  lemma ReportsInOrder(b0: bool, b1: bool, b2: bool, b3: bool, b4: bool, b5: bool, b6: bool, b7: bool)
    ensures RanksIncrease(
      Report(b0, InvalidId) + Report(b1, InvalidCollection) + Report(b2, InvalidParentid)
      + Report(b3, InvalidPredecessorid) + Report(b4, NoModificationDate) + Report(b5, InvalidSortindex)
      + Report(b6, PayloadTooLarge) + Report(b7, PayloadNotJson))
  {
    var e1 := Report(b0, InvalidId);
    AppendReport(e1, b1, InvalidCollection);
    var e2 := e1 + Report(b1, InvalidCollection);
    AppendReport(e2, b2, InvalidParentid);
    var e3 := e2 + Report(b2, InvalidParentid);
    AppendReport(e3, b3, InvalidPredecessorid);
    var e4 := e3 + Report(b3, InvalidPredecessorid);
    AppendReport(e4, b4, NoModificationDate);
    var e5 := e4 + Report(b4, NoModificationDate);
    AppendReport(e5, b5, InvalidSortindex);
    var e6 := e5 + Report(b5, InvalidSortindex);
    AppendReport(e6, b6, PayloadTooLarge);
    var e7 := e6 + Report(b6, PayloadTooLarge);
    AppendReport(e7, b7, PayloadNotJson);
  }

  /** 'invalid id' is reported exactly when the id (after renaming) is missing,
      empty, longer than 64 characters or contains a slash. */
  lemma InvalidIdReported(c: Candidate, e: Entities, isJson: string -> bool)
    ensures var id := if c.id.Some? then c.id else c.wboId;
      InvalidId in ValidationErrors(c, e, isJson)
      <==> id.None? || id.value == "" || |id.value| > 64 || '/' in id.value
  {
  }

  /** 'invalid collection' is reported exactly when the collection is missing or
      its name is longer than 64 characters. */
  lemma InvalidCollectionReported(c: Candidate, e: Entities, isJson: string -> bool)
    ensures InvalidCollection in ValidationErrors(c, e, isJson)
      <==> c.collection.None? || |c.collection.value.name| > 64
  {
  }

  /** 'invalid parentid' is reported exactly when a parentid is given that is too
      long, or, a collection being given, names no record of that collection;
      the same rule holds for predecessorid. */
  lemma ReferenceErrorsReported(c: Candidate, e: Entities, isJson: string -> bool)
    ensures InvalidParentid in ValidationErrors(c, e, isJson)
      <==> c.parentid.Some? && (|c.parentid.value| > 64
           || (c.collection.Some?
               && !exists w :: w in RecordsOf(e, c.collection.value) && w.wboId == c.parentid.value))
    ensures InvalidPredecessorid in ValidationErrors(c, e, isJson)
      <==> c.predecessorid.Some? && (|c.predecessorid.value| > 64
           || (c.collection.Some?
               && !exists w :: w in RecordsOf(e, c.collection.value) && w.wboId == c.predecessorid.value))
  {
    if c.collection.Some? {
      if c.parentid.Some? {
        HasRecordMeans(e, c.collection.value, c.parentid.value);
      }
      if c.predecessorid.Some? {
        HasRecordMeans(e, c.collection.value, c.predecessorid.value);
      }
    }
  }

  /** 'no modification date' is reported exactly when modified is missing or zero. */
  lemma NoModifiedReported(c: Candidate, e: Entities, isJson: string -> bool)
    ensures NoModificationDate in ValidationErrors(c, e, isJson) <==> c.modified.None? || c.modified.value == 0.0
  {
  }

  /** 'invalid sortindex' is reported exactly when a sortindex is given outside
      [-999999999, 999999999]. */
  lemma InvalidSortindexReported(c: Candidate, e: Entities, isJson: string -> bool)
    ensures InvalidSortindex in ValidationErrors(c, e, isJson)
      <==> c.sortindex.Some? && (c.sortindex.value < -999999999 || c.sortindex.value > 999999999)
  {
  }

  /** A payload over 262144 characters is too large and is not parsed; one within
      the limit that is not JSON is reported as such; the two never come together. */
  lemma PayloadErrorsReported(c: Candidate, e: Entities, isJson: string -> bool)
    ensures PayloadTooLarge in ValidationErrors(c, e, isJson)
      <==> c.payload.Some? && |c.payload.value| > 262144
    ensures PayloadNotJson in ValidationErrors(c, e, isJson)
      <==> c.payload.Some? && |c.payload.value| <= 262144 && !isJson(c.payload.value)
    ensures !(PayloadTooLarge in ValidationErrors(c, e, isJson)
              && PayloadNotJson in ValidationErrors(c, e, isJson))
  {
  }

  /** The empty list of reasons means exactly that every rule holds. */
  lemma NoErrorsIffAcceptable(c: Candidate, e: Entities, isJson: string -> bool)
    ensures ValidationErrors(c, e, isJson) == [] <==> Acceptable(c, e, isJson)
  {
  }
}
