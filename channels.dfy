/**
 * The channel record that flows through the collector: a Python dict with the
 * keys `name`, `url`, `attributes`, and the keys later stages add
 * (`source_url`, `priority`, `keyword`, `clean_name`, `latency`, `resolution`).
 * A key that has not been written yet is `None`.
 */
module Channels {

  import opened Wrappers

  /** A `dict[str, str]`, in insertion order, as Python keeps it. */
  type Attributes = seq<(string, string)>

  function Keys(a: Attributes): (ks: seq<string>)
    ensures |ks| == |a| && forall i :: 0 <= i < |a| ==> ks[i] == a[i].0
  {
    if a == [] then [] else Keys(a[..|a| - 1]) + [a[|a| - 1].0]
  }

  /** No key occurs twice, as in every dict. */
  predicate UniqueKeys(a: Attributes) {
    forall i, j :: 0 <= i < j < |a| ==> a[i].0 != a[j].0
  }

  /** `d.get(k)`. */
  function Lookup(a: Attributes, k: string): (r: Option<string>)
    ensures r.Some? <==> k in Keys(a)
    ensures r.Some? ==> exists i :: 0 <= i < |a| && a[i] == (k, r.value)
    ensures UniqueKeys(a) ==> forall i :: 0 <= i < |a| && a[i].0 == k ==> r == Some(a[i].1)
  {
    if a == [] then None
    else if a[|a| - 1].0 == k then Some(a[|a| - 1].1)
    else Lookup(a[..|a| - 1], k)
  }

  /** Position of key `k` in the dict. */
  function KeyIndex(a: Attributes, k: string): (i: nat)
    requires k in Keys(a)
    ensures i < |a| && a[i].0 == k
  {
    if a[|a| - 1].0 == k then |a| - 1
    else
      assert Keys(a) == Keys(a[..|a| - 1]) + [a[|a| - 1].0];
      KeyIndex(a[..|a| - 1], k)
  }

  /**
   * `d[k] = v`: overwrites the value in place when `k` is present, appends the
   * pair otherwise. AssignLookup states what it does to every key.
   */
  function Assign(a: Attributes, k: string, v: string): (r: Attributes)
    requires UniqueKeys(a)
    ensures UniqueKeys(r)
  {
    if k in Keys(a) then
      var r := a[KeyIndex(a, k) := (k, v)];
      assert Keys(r) == Keys(a);
      r
    else a + [(k, v)]
  }

  /** `d[k] = v` keeps the keys in place and appends a new key at the end. */
  lemma AssignKeys(a: Attributes, k: string, v: string)
    requires UniqueKeys(a)
    ensures Keys(Assign(a, k, v)) == if k in Keys(a) then Keys(a) else Keys(a) + [k]
  {
    var r := Assign(a, k, v);
    if k !in Keys(a) {
      assert r[..|r| - 1] == a;
    }
  }

  /** After `d[k] = v`, `k` maps to `v` and every other key keeps its value. */
  lemma AssignLookup(a: Attributes, k: string, v: string)
    requires UniqueKeys(a)
    ensures Lookup(Assign(a, k, v), k) == Some(v)
    ensures forall k' :: k' != k ==> Lookup(Assign(a, k, v), k') == Lookup(a, k')
  {
    var r := Assign(a, k, v);
    AssignKeys(a, k, v);
    if k !in Keys(a) {
      assert r[..|r| - 1] == a;
    }
    LookupUnique(r, k);
    forall k' | k' != k ensures Lookup(r, k') == Lookup(a, k') {
      LookupUnique(r, k');
      LookupUnique(a, k');
      if k !in Keys(a) {
        assert r[..|r| - 1] == a;
      }
    }
  }

  lemma LookupUnique(a: Attributes, k: string)
    requires UniqueKeys(a)
    ensures Lookup(a, k).Some? ==> exists i :: 0 <= i < |a| && a[i] == (k, Lookup(a, k).value)
    ensures Lookup(a, k).None? ==> forall i :: 0 <= i < |a| ==> a[i].0 != k
  {
  }

  datatype Channel = Channel(
    name: string,
    url: string,
    attributes: Attributes,
    sourceUrl: Option<string>,
    priority: Option<int>,
    keyword: Option<string>,
    cleanName: Option<string>,
    latency: Option<int>,
    resolution: Option<string>)

  /** The dict a parser creates: `{"name": ..., "url": ..., "attributes": ...}`. */
  function Entry(name: string, url: string, attributes: Attributes): Channel {
    Channel(name, url, attributes, None, None, None, None, None, None)
  }

  /** The keys the final sort reads are all present. */
  predicate Ranked(c: Channel) {
    c.priority.Some? && c.cleanName.Some? && c.latency.Some?
  }

  /** The URLs of a list of channels, in order. */
  function Urls(s: seq<Channel>): (us: seq<string>)
    ensures |us| == |s| && forall i :: 0 <= i < |s| ==> us[i] == s[i].url
  {
    if s == [] then [] else Urls(s[..|s| - 1]) + [s[|s| - 1].url]
  }

  /** No two channels share a URL. */
  predicate DistinctUrls(s: seq<Channel>) {
    forall i, j :: 0 <= i < j < |s| ==> s[i].url != s[j].url
  }
}
