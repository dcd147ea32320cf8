/** The collection registry's pure part: the built-in collection names, the
    datastore key name of a collection, and the last-modified time of a
    collection's records. */
module Registry {
  import opened Records

  /** Collection.builtin_names. */
  const BuiltinNames: seq<string> := [
    "clients", "crypto", "forms", "history", "keys", "meta",
    "bookmarks", "prefs", "tabs", "passwords"]

  /** Collection.is_builtin. */
  function IsBuiltin(name: string): bool
  {
    name in BuiltinNames
  }

  const KeyNamePrefix: string := "collection:"

  /** Collection.build_key_name: 'collection:<profile key>:<name>'. */
  function BuildKeyName(profile: string, name: string): string
  {
    KeyNamePrefix + profile + ":" + name
  }

  /** Position of the first ':' in `s`, if any. */
  function FirstColon(s: string): (r: Option<nat>)
    ensures r.Some? ==> r.value < |s| && s[r.value] == ':' && ':' !in s[..r.value]
    ensures r.None? ==> ':' !in s
  {
    if |s| == 0 then None
    else if s[0] == ':' then Some(0)
    else match FirstColon(s[1..])
      case None => None
      case Some(k) =>
        assert s[..k + 1] == [s[0]] + s[1..][..k];
        Some(k + 1)
  }

  lemma {:induction false} FirstColonAt(s: string, k: nat)
    requires k < |s| && s[k] == ':' && ':' !in s[..k]
    ensures FirstColon(s) == Some(k)
  {
    if k > 0 {
      assert s[0] == s[..k][0];
      assert s[1..][..k - 1] == s[..k][1..];
      FirstColonAt(s[1..], k - 1);
    }
  }

  /** Splits a key name back into the profile key and the collection name; the
      profile part ends at the first ':' after the prefix. */
  function ParseKeyName(s: string): Option<(string, string)>
  {
    if |s| < |KeyNamePrefix| || s[..|KeyNamePrefix|] != KeyNamePrefix then None
    else
      var rest := s[|KeyNamePrefix|..];
      match FirstColon(rest)
      case None => None
      case Some(i) => Some((rest[..i], rest[i + 1..]))
  }

  /** A key name gives back the profile and the name it was built from, for a
      profile key without ':' (the datastore's encoded keys have none). */
  lemma KeyNameRoundTrip(profile: string, name: string)
    requires ':' !in profile
    ensures ParseKeyName(BuildKeyName(profile, name)) == Some((profile, name))
  {
    var s := BuildKeyName(profile, name);
    assert s[..|KeyNamePrefix|] == KeyNamePrefix;
    var rest := s[|KeyNamePrefix|..];
    assert rest == profile + ":" + name;
    assert rest[..|profile|] == profile;
    FirstColonAt(rest, |profile|);
    assert rest[|profile| + 1..] == name;
  }

  /** Hence two collections of colon-free profile keys get the same key name
      only if they are the same collection: get_or_insert cannot mix them up. */
  lemma KeyNameInjective(p1: string, n1: string, p2: string, n2: string)
    requires ':' !in p1 && ':' !in p2
    requires BuildKeyName(p1, n1) == BuildKeyName(p2, n2)
    ensures p1 == p2 && n1 == n2
  {
    KeyNameRoundTrip(p1, n1);
    KeyNameRoundTrip(p2, n2);
  }

  /** Without the colon-free condition key names collide. */
  lemma KeyNameCollision()
    ensures BuildKeyName("a:b", "c") == BuildKeyName("a", "b:c")
  {
  }

  /** The modified time of a collection's newest record, 0 when it has none:
      what get_timestamps reports for a collection. */
  function LatestModified(recs: seq<Wbo>): (r: real)
    ensures recs == [] ==> r == 0.0
    ensures forall w :: w in recs ==> w.modified <= r
    ensures recs != [] ==> exists w :: w in recs && w.modified == r
  {
    if recs == [] then 0.0
    else if |recs| == 1 then recs[0].modified
    else
      var m := LatestModified(recs[1..]);
      assert recs == [recs[0]] + recs[1..];
      if recs[0].modified >= m then recs[0].modified else m
  }
}
