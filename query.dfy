/** Collection.retrieve: each filter that is given yields the set of keys of the
    first `limit` records that match it; the records whose keys lie in every
    such set (or the whole collection when no filter is given) are sorted,
    paginated and projected to ids or dictionaries. */
module Query {
  import opened Records

  /** Orders of a fetch. ByKey is the datastore's own order of a fetch that
      names none; ByIndex, Oldest and Newest are the orders `sort` selects. */
  datatype Order = ByKey | ByIndex | Oldest | Newest

  function SortKey(w: Wbo, o: Order): real
  {
    match o
    case ByKey => 0.0
    case ByIndex => w.sortindex as real
    case Oldest => w.modified
    case Newest => -w.modified
  }

  /** `a` may come before `b`: the sort property first, then the datastore key. */
  predicate Precedes(a: Wbo, b: Wbo, o: Order)
  {
    SortKey(a, o) < SortKey(b, o) || (SortKey(a, o) == SortKey(b, o) && a.key <= b.key)
  }

  predicate Sorted(s: seq<Wbo>, o: Order)
  {
    forall i, j :: 0 <= i < j < |s| ==> Precedes(s[i], s[j], o)
  }

  function Insert(x: Wbo, s: seq<Wbo>, o: Order): seq<Wbo>
  {
    if s == [] || Precedes(x, s[0], o) then [x] + s
    else [s[0]] + Insert(x, s[1..], o)
  }

  /** The records of `s` in the order `o` (an insertion sort). */
  function SortBy(s: seq<Wbo>, o: Order): seq<Wbo>
  {
    if s == [] then [] else Insert(s[0], SortBy(s[1..], o), o)
  }

  lemma {:induction false} InsertSorted(x: Wbo, s: seq<Wbo>, o: Order)
    requires Sorted(s, o)
    ensures Sorted(Insert(x, s, o), o)
    ensures multiset(Insert(x, s, o)) == multiset(s) + multiset{x}
  {
    if s == [] || Precedes(x, s[0], o) {
    } else {
      InsertSorted(x, s[1..], o);
      var rest := Insert(x, s[1..], o);
      assert s == [s[0]] + s[1..];
      forall k | 0 <= k < |rest| ensures Precedes(s[0], rest[k], o) {
        assert rest[k] in multiset(rest);
        if rest[k] != x {
          assert rest[k] in multiset(s[1..]);
          var j :| 0 <= j < |s[1..]| && s[1..][j] == rest[k];
          assert s[j + 1] == rest[k];
        }
      }
    }
  }

  /** SortBy orders its input and keeps exactly its records. */
  lemma {:induction false} SortBySorted(s: seq<Wbo>, o: Order)
    ensures Sorted(SortBy(s, o), o)
    ensures multiset(SortBy(s, o)) == multiset(s)
  {
    if s != [] {
      SortBySorted(s[1..], o);
      InsertSorted(s[0], SortBy(s[1..], o), o);
      assert s == [s[0]] + s[1..];
    }
  }

  lemma SortByLength(s: seq<Wbo>, o: Order)
    ensures |SortBy(s, o)| == |s|
  {
    SortBySorted(s, o);
    assert |multiset(SortBy(s, o))| == |multiset(s)|;
  }

  /** A filter category of retrieve, with only the bounds that are applied. */
  datatype Criterion =
    | IdEquals(id: string)
    | IdAmong(ids: set<string>)
    | IndexBounds(above: Option<int>, below: Option<int>)
    | ModifiedBounds(newer: Option<real>, older: Option<real>)
    | ParentEquals(parentid: string)
    | PredecessorEquals(predecessorid: string)

  predicate Holds(c: Criterion, w: Wbo)
  {
    match c
    case IdEquals(id) => w.wboId == id
    case IdAmong(ids) => w.wboId in ids
    case IndexBounds(above, below) =>
      (above.Some? ==> w.sortindex > above.value) && (below.Some? ==> w.sortindex < below.value)
    case ModifiedBounds(newer, older) =>
      (newer.Some? ==> w.modified > newer.value) && (older.Some? ==> w.modified < older.value)
    case ParentEquals(p) => w.parentid == Some(p)
    case PredecessorEquals(p) => w.predecessorid == Some(p)
  }

  /** The order in which the datastore returns the matches of a filter: by the
      property of an applied inequality, otherwise by key. */
  function ScanOrder(c: Criterion): Order
  {
    match c
    case IndexBounds(above, below) => if above.Some? || below.Some? then ByIndex else ByKey
    case ModifiedBounds(newer, older) => if newer.Some? || older.Some? then Oldest else ByKey
    case _ => ByKey
  }

  /** The records of `s` that satisfy `c`, in their order. */
  function Where(s: seq<Wbo>, c: Criterion): (r: seq<Wbo>)
    ensures forall w :: w in r <==> w in s && Holds(c, w)
    ensures |r| <= |s|
  {
    if s == [] then []
    else if Holds(c, s[0]) then [s[0]] + Where(s[1..], c)
    else Where(s[1..], c)
  }

  function Take(s: seq<Wbo>, n: nat): seq<Wbo>
  {
    if n < |s| then s[..n] else s
  }

  function IdsOf(s: seq<Wbo>): set<string>
  {
    set w | w in s :: w.wboId
  }

  /** The key set one filter contributes: the ids of its first `limit` matches. */
  function KeySet(recs: seq<Wbo>, c: Criterion, limit: nat): set<string>
  {
    IdsOf(Take(SortBy(Where(recs, c), ScanOrder(c)), limit))
  }

  /** The ids that lie in every set of `ks`. */
  function Intersect(ks: seq<set<string>>): (r: set<string>)
    requires |ks| > 0
    ensures forall k :: k in r <==> forall i :: 0 <= i < |ks| ==> k in ks[i]
  {
    if |ks| == 1 then ks[0] else ks[0] * Intersect(ks[1..])
  }

  /** The options of retrieve (`direct_output`, which the source ignores, is left out). */
  datatype Options = Options(
    full: bool,
    id: Option<string>,
    ids: Option<seq<string>>,
    parentid: Option<string>,
    predecessorid: Option<string>,
    newer: Option<real>,
    older: Option<real>,
    indexAbove: Option<int>,
    indexBelow: Option<int>,
    sort: Option<string>,
    limit: Option<nat>,
    offset: Option<nat>)

  const DefaultLimit: nat := 1000

  /** A missing or zero limit means 1000. */
  function Limit(o: Options): (n: nat)
    ensures n >= 1
  {
    if o.limit.None? || o.limit.value == 0 then DefaultLimit else o.limit.value
  }

  function Offset(o: Options): nat
  {
    if o.offset.None? then 0 else o.offset.value
  }

  /** 'oldest' and 'newest' select those orders; anything else sorts by sortindex. */
  function ResolveSort(o: Options): Order
  {
    if o.sort == Some("oldest") then Oldest
    else if o.sort == Some("newest") then Newest
    else ByIndex
  }

  /** A bound is applied only when it is truthy (a zero bound is dropped). */
  function AppliedInt(b: Option<int>): Option<int>
  {
    if b.Some? && b.value != 0 then b else None
  }

  function AppliedReal(b: Option<real>): Option<real>
  {
    if b.Some? && b.value != 0.0 then b else None
  }

  /** The filter category `c` when the options use it, otherwise none. */
  function Optional(used: bool, c: Criterion): seq<Criterion>
  {
    if used then [c] else []
  }

  /** The filter categories the options give, in the source's order. */
  function Criteria(o: Options): seq<Criterion>
  {
    Optional(Truthy(o.id), IdEquals(GetOr(o.id, "")))
    + Optional(o.ids.Some? && o.ids.value != [], IdAmong(IdSet(GetOr(o.ids, []))))
    + Optional(o.indexAbove.Some? || o.indexBelow.Some?, IndexBounds(AppliedInt(o.indexAbove), AppliedInt(o.indexBelow)))
    + Optional(o.newer.Some? || o.older.Some?, ModifiedBounds(AppliedReal(o.newer), AppliedReal(o.older)))
    + Optional(o.parentid.Some?, ParentEquals(GetOr(o.parentid, "")))
    + Optional(o.predecessorid.Some?, PredecessorEquals(GetOr(o.predecessorid, "")))
  }

  /** The ids listed in `ids`, as a set. */
  function IdSet(ids: seq<string>): (r: set<string>)
    ensures forall i :: i in r <==> i in ids
  {
    set i | i in ids
  }

  function KeySets(recs: seq<Wbo>, cs: seq<Criterion>, limit: nat): (ks: seq<set<string>>)
    ensures |ks| == |cs|
  {
    seq(|cs|, i requires 0 <= i < |cs| => KeySet(recs, cs[i], limit))
  }

  lemma KeySetsAppend(recs: seq<Wbo>, cs: seq<Criterion>, c: Criterion, limit: nat)
    ensures KeySets(recs, cs + [c], limit) == KeySets(recs, cs, limit) + [KeySet(recs, c, limit)]
  {
  }

  /** The records whose keys lie in every key set of the filters `cs`, or all
      records when there is no filter. */
  function ScopeOf(recs: seq<Wbo>, cs: seq<Criterion>, limit: nat): seq<Wbo>
  {
    if |cs| == 0 then recs else Where(recs, IdAmong(Intersect(KeySets(recs, cs, limit))))
  }

  /** The records in scope of a retrieve with options `o`. */
  function Scope(recs: seq<Wbo>, o: Options): seq<Wbo>
  {
    ScopeOf(recs, Criteria(o), Limit(o))
  }

  /** fetch(limit, offset): skip `offset` records, then return at most `limit`. */
  function Page(s: seq<Wbo>, offset: nat, limit: nat): seq<Wbo>
  {
    if offset >= |s| then [] else Take(s[offset..], limit)
  }

  /** The records retrieve returns, before projection. */
  function QueryRecords(recs: seq<Wbo>, o: Options): seq<Wbo>
  {
    Page(SortBy(Scope(recs, o), ResolveSort(o)), Offset(o), Limit(o))
  }

  /** What retrieve yields: bare ids, or the dictionary form of each record. */
  datatype Listing = IdList(ids: seq<string>) | DictList(dicts: seq<map<Field, Value>>)

  function Project(s: seq<Wbo>, full: bool): Listing
  {
    if full then DictList(seq(|s|, i requires 0 <= i < |s| => ToDict(s[i])))
    else IdList(seq(|s|, i requires 0 <= i < |s| => s[i].wboId))
  }

  /** Collection.retrieve over the records `recs` of the collection. */
  function Retrieved(recs: seq<Wbo>, o: Options): Listing
  {
    Project(QueryRecords(recs, o), o.full)
  }

  // Properties of the pieces.

  lemma PageIndexes(s: seq<Wbo>, offset: nat, limit: nat)
    ensures var p := Page(s, offset, limit);
      && |p| == (if offset >= |s| then 0 else if limit < |s| - offset then limit else |s| - offset)
      && forall i :: 0 <= i < |p| ==> p[i] == s[offset + i]
  {
  }

  lemma PageOfSorted(s: seq<Wbo>, offset: nat, limit: nat, o: Order)
    requires Sorted(s, o)
    ensures Sorted(Page(s, offset, limit), o)
  {
    PageIndexes(s, offset, limit);
  }

  lemma {:induction false} IdsOfSize(s: seq<Wbo>)
    ensures |IdsOf(s)| <= |s|
  {
    if s != [] {
      IdsOfSize(s[1..]);
      assert IdsOf(s) == {s[0].wboId} + IdsOf(s[1..]) by {
        assert forall w :: w in s <==> w == s[0] || w in s[1..];
      }
    }
  }

  lemma TakeMembers(s: seq<Wbo>, n: nat)
    ensures forall w :: w in Take(s, n) ==> w in s
    ensures |Take(s, n)| <= n
    ensures |s| <= n ==> Take(s, n) == s
  {
  }

  /** A filter's key set holds at most `limit` ids, each the id of a record that
      satisfies the filter. */
  lemma KeySetSound(recs: seq<Wbo>, c: Criterion, limit: nat)
    ensures |KeySet(recs, c, limit)| <= limit
    ensures forall k :: k in KeySet(recs, c, limit) ==>
      exists w :: w in recs && Holds(c, w) && w.wboId == k
  {
    var sorted := SortBy(Where(recs, c), ScanOrder(c));
    SortBySorted(Where(recs, c), ScanOrder(c));
    TakeMembers(sorted, limit);
    IdsOfSize(Take(sorted, limit));
    forall k | k in KeySet(recs, c, limit) ensures exists w :: w in recs && Holds(c, w) && w.wboId == k {
      var w :| w in Take(sorted, limit) && w.wboId == k;
      assert w in multiset(sorted);
    }
  }

  /** When at most `limit` records match a filter, its key set is not truncated. */
  lemma KeySetComplete(recs: seq<Wbo>, c: Criterion, limit: nat)
    requires |Where(recs, c)| <= limit
    ensures forall w :: w in recs && Holds(c, w) ==> w.wboId in KeySet(recs, c, limit)
  {
    var sorted := SortBy(Where(recs, c), ScanOrder(c));
    SortBySorted(Where(recs, c), ScanOrder(c));
    SortByLength(Where(recs, c), ScanOrder(c));
    TakeMembers(sorted, limit);
    forall w | w in recs && Holds(c, w) ensures w.wboId in KeySet(recs, c, limit) {
      assert w in multiset(Where(recs, c));
      assert w in sorted;
    }
  }

  lemma CriteriaMembers(o: Options)
    ensures forall c :: c in Criteria(o) <==>
      || (Truthy(o.id) && c == IdEquals(o.id.value))
      || (o.ids.Some? && o.ids.value != [] && c == IdAmong(IdSet(o.ids.value)))
      || ((o.indexAbove.Some? || o.indexBelow.Some?)
          && c == IndexBounds(AppliedInt(o.indexAbove), AppliedInt(o.indexBelow)))
      || ((o.newer.Some? || o.older.Some?) && c == ModifiedBounds(AppliedReal(o.newer), AppliedReal(o.older)))
      || (o.parentid.Some? && c == ParentEquals(o.parentid.value))
      || (o.predecessorid.Some? && c == PredecessorEquals(o.predecessorid.value))
  {
  }

  /** Every record in scope satisfies every filter in `cs`. */
  lemma ScopeSound(recs: seq<Wbo>, cs: seq<Criterion>, limit: nat)
    requires UniqueIds(recs)
    ensures forall w :: w in ScopeOf(recs, cs, limit) ==> w in recs && forall c :: c in cs ==> Holds(c, w)
  {
    if |cs| > 0 {
      var ks := KeySets(recs, cs, limit);
      forall w, c | w in ScopeOf(recs, cs, limit) && c in cs ensures Holds(c, w) {
        var j :| 0 <= j < |cs| && cs[j] == c;
        assert w.wboId in ks[j];
        KeySetSound(recs, c, limit);
        var v :| v in recs && Holds(c, v) && v.wboId == w.wboId;
        var a :| 0 <= a < |recs| && recs[a] == v;
        var b :| 0 <= b < |recs| && recs[b] == w;
      }
    }
  }

  /** With at most `limit` records, every record satisfying all filters is in scope. */
  lemma ScopeComplete(recs: seq<Wbo>, cs: seq<Criterion>, limit: nat)
    requires |recs| <= limit
    ensures forall w :: w in recs && (forall c :: c in cs ==> Holds(c, w)) ==> w in ScopeOf(recs, cs, limit)
  {
    if |cs| > 0 {
      var ks := KeySets(recs, cs, limit);
      forall w | w in recs && (forall c :: c in cs ==> Holds(c, w)) ensures w in ScopeOf(recs, cs, limit) {
        forall j | 0 <= j < |cs| ensures w.wboId in ks[j] {
          assert cs[j] in cs;
          KeySetComplete(recs, cs[j], limit);
        }
      }
    }
  }

  /** Soundness of the filter composition: every record retrieve returns is a
      record of the collection that satisfies every filter given. */
  lemma QuerySound(recs: seq<Wbo>, o: Options)
    requires UniqueIds(recs)
    ensures forall w :: w in QueryRecords(recs, o) ==>
      w in recs && forall c :: c in Criteria(o) ==> Holds(c, w)
  {
    var scope := Scope(recs, o);
    var sorted := SortBy(scope, ResolveSort(o));
    SortBySorted(scope, ResolveSort(o));
    PageIndexes(sorted, Offset(o), Limit(o));
    ScopeSound(recs, Criteria(o), Limit(o));
    forall w | w in QueryRecords(recs, o) ensures w in scope {
      assert w in multiset(sorted);
    }
  }

  /** Completeness: when the collection holds at most `limit` records, no key
      set is truncated and the scope is exactly the records that satisfy every
      filter given (all records when none is given). */
  lemma QueryScopeExact(recs: seq<Wbo>, o: Options)
    requires UniqueIds(recs)
    requires |recs| <= Limit(o)
    ensures forall w :: w in Scope(recs, o) <==> w in recs && forall c :: c in Criteria(o) ==> Holds(c, w)
  {
    ScopeSound(recs, Criteria(o), Limit(o));
    ScopeComplete(recs, Criteria(o), Limit(o));
  }

  /** The output is ordered: by sortindex ascending by default, by modified
      ascending for 'oldest' and descending for 'newest'; ties by key. */
  lemma QueryOrdered(recs: seq<Wbo>, o: Options)
    ensures var r := QueryRecords(recs, o);
      && (o.sort == Some("oldest") ==> forall i, j :: 0 <= i < j < |r| ==> r[i].modified <= r[j].modified)
      && (o.sort == Some("newest") ==> forall i, j :: 0 <= i < j < |r| ==> r[i].modified >= r[j].modified)
      && (o.sort != Some("oldest") && o.sort != Some("newest") ==>
            forall i, j :: 0 <= i < j < |r| ==> r[i].sortindex <= r[j].sortindex)
      && Sorted(r, ResolveSort(o))
  {
    var sorted := SortBy(Scope(recs, o), ResolveSort(o));
    SortBySorted(Scope(recs, o), ResolveSort(o));
    PageOfSorted(sorted, Offset(o), Limit(o), ResolveSort(o));
  }

  /** Pagination: retrieve skips `offset` records of the sorted scope (default 0)
      and returns the next ones, at most `limit` (default 1000); the sorted scope
      is a permutation of the scope. */
  lemma QueryPaginated(recs: seq<Wbo>, o: Options)
    ensures var sorted := SortBy(Scope(recs, o), ResolveSort(o));
      var r := QueryRecords(recs, o);
      && multiset(sorted) == multiset(Scope(recs, o))
      && |r| <= Limit(o)
      && |r| == (if Offset(o) >= |sorted| then 0
                 else if Limit(o) < |sorted| - Offset(o) then Limit(o) else |sorted| - Offset(o))
      && forall i :: 0 <= i < |r| ==> r[i] == sorted[Offset(o) + i]
  {
    SortBySorted(Scope(recs, o), ResolveSort(o));
    PageIndexes(SortBy(Scope(recs, o), ResolveSort(o)), Offset(o), Limit(o));
  }

  /** A criterion no record satisfies selects nothing. */
  lemma {:induction false} WhereNone(s: seq<Wbo>, c: Criterion)
    requires forall v :: v in s ==> !Holds(c, v)
    ensures Where(s, c) == []
  {
    if s != [] {
      assert s[0] in s;
      WhereNone(s[1..], c);
    }
  }

  /** In a collection without duplicate ids, a filter that picks out one id
      selects exactly the record with that id. */
  lemma {:induction false} WhereSingleId(s: seq<Wbo>, c: Criterion, w: Wbo)
    requires UniqueIds(s) && w in s
    requires forall v :: Holds(c, v) <==> v.wboId == w.wboId
    ensures Where(s, c) == [w]
  {
    if s[0] == w {
      forall v | v in s[1..] ensures v.wboId != w.wboId {
        var k :| 0 <= k < |s[1..]| && s[1..][k] == v;
        assert s[k + 1] == v;
      }
      WhereNone(s[1..], c);
    } else {
      var k :| 0 <= k < |s| && s[k] == w;
      assert s[0].wboId != w.wboId;
      assert s[1..][k - 1] == w;
      WhereSingleId(s[1..], c, w);
    }
  }

  /** The round trip of a write and a read: retrieving the id of a stored record
      with full output yields exactly that record's dictionary. */
  lemma RetrieveByIdRoundTrip(recs: seq<Wbo>, w: Wbo, o: Options)
    requires UniqueIds(recs) && w in recs && w.wboId != ""
    requires o.full && o.id == Some(w.wboId) && Offset(o) == 0
    requires o.ids.None? && o.parentid.None? && o.predecessorid.None?
    requires o.newer.None? && o.older.None? && o.indexAbove.None? && o.indexBelow.None?
    ensures Retrieved(recs, o) == DictList([ToDict(w)])
  {
    var limit := Limit(o);
    assert Criteria(o) == [IdEquals(w.wboId)];
    WhereSingleId(recs, IdEquals(w.wboId), w);
    assert SortBy([w], ByKey) == [w];
    assert KeySet(recs, IdEquals(w.wboId), limit) == {w.wboId};
    assert KeySets(recs, Criteria(o), limit) == [{w.wboId}];
    WhereSingleId(recs, IdAmong({w.wboId}), w);
    assert Scope(recs, o) == [w];
    assert SortBy([w], ResolveSort(o)) == [w];
    assert QueryRecords(recs, o) == [w];
  }

  /** A zero sortindex bound is not applied: with no truncation, index_above = 0
      puts in scope exactly what leaving index_above out does, so records with
      a negative sortindex are still returned. */
  lemma ZeroIndexBoundIgnored(recs: seq<Wbo>, o: Options)
    requires UniqueIds(recs) && |recs| <= Limit(o)
    requires o.indexAbove == Some(0)
    ensures forall w :: w in Scope(recs, o) <==> w in Scope(recs, o.(indexAbove := None))
  {
    var o' := o.(indexAbove := None);
    QueryScopeExact(recs, o);
    QueryScopeExact(recs, o');
    CriteriaMembers(o);
    CriteriaMembers(o');
  }

  /** The two filters of the example below, and the key set each gives. */
  lemma CappedExampleKeySets(a: Wbo, b: Wbo, o: Options)
    requires a.wboId == "a" && b.wboId == "b" && a.key == 0 && b.key == 1
    requires a.parentid == Some("p") && a.predecessorid == Some("x")
    requires b.parentid == Some("p") && b.predecessorid == Some("q")
    requires o == Options(false, None, None, Some("p"), Some("q"), None, None, None, None, None, Some(1), None)
    ensures Criteria(o) == [ParentEquals("p"), PredecessorEquals("q")]
    ensures KeySets([a, b], Criteria(o), 1) == [{"a"}, {"b"}]
  {
    var recs := [a, b];
    assert Criteria(o) == [ParentEquals("p"), PredecessorEquals("q")] by {
      assert Optional(o.parentid.Some?, ParentEquals(GetOr(o.parentid, ""))) == [ParentEquals("p")];
      assert Optional(o.predecessorid.Some?, PredecessorEquals(GetOr(o.predecessorid, ""))) == [PredecessorEquals("q")];
    }
    assert KeySet(recs, ParentEquals("p"), 1) == {"a"} by {
      assert recs[1..] == [b];
      assert Where(recs, ParentEquals("p")) == [a, b];
      assert SortBy([b], ByKey) == [b];
      assert Insert(a, [b], ByKey) == [a, b];
      assert SortBy([a, b], ByKey) == [a, b];
      assert Take([a, b], 1) == [a];
    }
    assert KeySet(recs, PredecessorEquals("q"), 1) == {"b"} by {
      assert recs[1..] == [b];
      assert "x" != "q";
      assert Where(recs, PredecessorEquals("q")) == [b];
      assert SortBy([b], ByKey) == [b];
    }
  }

  /** The per-filter cap can drop a record that satisfies every filter: with
      limit 1, the parentid filter keeps only the first of two children, and the
      intersection with the predecessorid filter comes out empty. */
  lemma CappedKeySetsCanDropMatches(a: Wbo, b: Wbo, o: Options)
    requires a.wboId == "a" && b.wboId == "b" && a.key == 0 && b.key == 1
    requires a.parentid == Some("p") && a.predecessorid == Some("x")
    requires b.parentid == Some("p") && b.predecessorid == Some("q")
    requires o == Options(false, None, None, Some("p"), Some("q"), None, None, None, None, None, Some(1), None)
    ensures UniqueIds([a, b])
    ensures forall cr :: cr in Criteria(o) ==> Holds(cr, b)
    ensures Retrieved([a, b], o) == IdList([])
  {
    var recs := [a, b];
    CappedExampleKeySets(a, b, o);
    var ks := KeySets(recs, Criteria(o), 1);
    assert Intersect(ks) == {} by {
      assert "a" != "b";
    }
    WhereNone(recs, IdAmong({}));
  }

  /** A filter that every record passes but whose matches come in key order
      still caps the scope at the first `limit` records by key. */
  lemma UnboundedFilterCapsScope(a: Wbo, b: Wbo, c: Criterion)
    requires a.wboId == "a" && b.wboId == "b" && a.key == 0 && b.key == 1
    requires Holds(c, a) && Holds(c, b) && ScanOrder(c) == ByKey
    ensures ScopeOf([a, b], [c], 1) == [a]
  {
    var recs := [a, b];
    assert recs[1..] == [b];
    assert Where(recs, c) == [a, b];
    assert SortBy([b], ByKey) == [b];
    assert Insert(a, [b], ByKey) == [a, b];
    assert SortBy([a, b], ByKey) == [a, b];
    assert Take([a, b], 1) == [a];
    assert KeySet(recs, c, 1) == {"a"};
    assert KeySets(recs, [c], 1) == [{"a"}];
    assert Where(recs, IdAmong({"a"})) == [a] by {
      assert "b" !in {"a"};
    }
  }

  /** A zero bound is dropped from the test but still counts as a filter used:
      above the cap, index_above = 0 (or newer = 0) narrows the scope to the
      first `limit` records by key, where leaving it out keeps them all. */
  lemma ZeroBoundStillCapsScope(a: Wbo, b: Wbo, o: Options)
    requires a.wboId == "a" && b.wboId == "b" && a.key == 0 && b.key == 1
    requires o == Options(false, None, None, None, None, None, None, Some(0), None, None, Some(1), None)
    ensures Scope([a, b], o.(indexAbove := None)) == [a, b]
    ensures Scope([a, b], o) == [a]
    ensures Scope([a, b], o.(indexAbove := None, newer := Some(0.0))) == [a]
  {
    assert Criteria(o.(indexAbove := None)) == [];
    assert Criteria(o) == [IndexBounds(None, None)];
    UnboundedFilterCapsScope(a, b, IndexBounds(None, None));
    assert Criteria(o.(indexAbove := None, newer := Some(0.0))) == [ModifiedBounds(None, None)];
    UnboundedFilterCapsScope(a, b, ModifiedBounds(None, None));
  }
}
