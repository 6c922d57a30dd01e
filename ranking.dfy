/**
 * Python's `list.sort(key=...)`: a stable sort by a key compared with a total
 * order. It is modelled by insertion sort; SortedStableUnique shows that any
 * stable sort gives the same list, so nothing depends on the algorithm.
 */
module Sorting {

  import opened Orders

  /** `s` is non-decreasing by `key`. */
  ghost predicate SortedBy<T, K>(s: seq<T>, key: T -> K, cmp: (K, K) -> Ordering) {
    forall i, j :: 0 <= i < j < |s| ==> cmp(key(s[i]), key(s[j])) != Gt
  }

  /** The elements of `s` whose key is exactly `k`, in their order in `s`. */
  function WithKey<T, K(==)>(s: seq<T>, key: T -> K, k: K): seq<T> {
    if s == [] then []
    else (if key(s[0]) == k then [s[0]] else []) + WithKey(s[1..], key, k)
  }

  /** Insert `x` after every element whose key is not greater than its own. */
  function Insert<T, K>(x: T, s: seq<T>, key: T -> K, cmp: (K, K) -> Ordering): seq<T> {
    if s == [] then [x]
    else if cmp(key(x), key(s[0])) == Lt then [x] + s
    else [s[0]] + Insert(x, s[1..], key, cmp)
  }

  /** Inserting adds `x` and keeps everything else. */
  lemma {:induction false} InsertPermutation<T, K>(x: T, s: seq<T>, key: T -> K, cmp: (K, K) -> Ordering)
    ensures multiset(Insert(x, s, key, cmp)) == multiset(s) + multiset{x}
    decreases |s|
  {
    if s != [] && cmp(key(x), key(s[0])) != Lt {
      InsertPermutation(x, s[1..], key, cmp);
      assert s == [s[0]] + s[1..];
    }
  }

  /** Insertion sort: each element goes after the equal keys that came before it. */
  function SortBy<T, K>(s: seq<T>, key: T -> K, cmp: (K, K) -> Ordering): seq<T> {
    if s == [] then [] else Insert(s[|s| - 1], SortBy(s[..|s| - 1], key, cmp), key, cmp)
  }

  lemma {:induction false} InsertSorted<T, K(!new)>(x: T, s: seq<T>, key: T -> K, cmp: (K, K) -> Ordering)
    requires TotalOrder(cmp) && SortedBy(s, key, cmp)
    ensures SortedBy(Insert(x, s, key, cmp), key, cmp)
    decreases |s|
  {
    if s != [] && cmp(key(x), key(s[0])) != Lt {
      InsertSorted(x, s[1..], key, cmp);
      InsertPermutation(x, s[1..], key, cmp);
      var r := Insert(x, s[1..], key, cmp);
      forall y | y in r ensures cmp(key(s[0]), key(y)) != Gt {
        assert y in multiset(r);
        if y != x {
          assert y in s[1..];
        }
      }
      assert SortedBy([s[0]] + r, key, cmp);
    }
  }

  /** The sorted list is non-decreasing by the key. */
  lemma {:induction false} SortSorted<T, K(!new)>(s: seq<T>, key: T -> K, cmp: (K, K) -> Ordering)
    requires TotalOrder(cmp)
    ensures SortedBy(SortBy(s, key, cmp), key, cmp)
    decreases |s|
  {
    if s != [] {
      SortSorted(s[..|s| - 1], key, cmp);
      InsertSorted(s[|s| - 1], SortBy(s[..|s| - 1], key, cmp), key, cmp);
    }
  }

  /** The sorted list holds the same elements, each as often. */
  lemma {:induction false} SortPermutation<T, K>(s: seq<T>, key: T -> K, cmp: (K, K) -> Ordering)
    ensures multiset(SortBy(s, key, cmp)) == multiset(s)
    decreases |s|
  {
    if s != [] {
      SortPermutation(s[..|s| - 1], key, cmp);
      InsertPermutation(s[|s| - 1], SortBy(s[..|s| - 1], key, cmp), key, cmp);
      SplitLast(s);
    }
  }

  lemma SplitLast<T>(s: seq<T>)
    requires s != []
    ensures s == s[..|s| - 1] + [s[|s| - 1]]
  {
  }

  lemma {:induction false} WithKeyAppend<T, K>(s: seq<T>, x: T, key: T -> K, k: K)
    ensures WithKey(s + [x], key, k) == WithKey(s, key, k) + (if key(x) == k then [x] else [])
    decreases |s|
  {
    if s != [] {
      assert (s + [x])[1..] == s[1..] + [x];
      WithKeyAppend(s[1..], x, key, k);
    }
  }

  lemma {:induction false} WithKeyNone<T, K>(s: seq<T>, key: T -> K, k: K)
    requires forall i :: 0 <= i < |s| ==> key(s[i]) != k
    ensures WithKey(s, key, k) == []
    decreases |s|
  {
    if s != [] {
      WithKeyNone(s[1..], key, k);
    }
  }

  lemma {:induction false} InsertStable<T, K(!new)>(x: T, s: seq<T>, key: T -> K, cmp: (K, K) -> Ordering, k: K)
    requires TotalOrder(cmp) && SortedBy(s, key, cmp)
    ensures WithKey(Insert(x, s, key, cmp), key, k) == WithKey(s, key, k) + (if key(x) == k then [x] else [])
    decreases |s|
  {
    if s == [] {
    } else if cmp(key(x), key(s[0])) == Lt {
      assert Insert(x, s, key, cmp) == [x] + s;
      if key(x) == k {
        BelowHeadNone(x, s, key, cmp, k);
      }
      WithKeyCons(x, s, key, k);
    } else {
      var r := Insert(x, s[1..], key, cmp);
      assert Insert(x, s, key, cmp) == [s[0]] + r;
      InsertStable(x, s[1..], key, cmp, k);
      WithKeyCons(s[0], r, key, k);
      WithKeyCons(s[0], s[1..], key, k);
      assert [s[0]] + s[1..] == s;
    }
  }

  lemma WithKeyCons<T, K>(x: T, s: seq<T>, key: T -> K, k: K)
    ensures WithKey([x] + s, key, k) == (if key(x) == k then [x] else []) + WithKey(s, key, k)
  {
    assert ([x] + s)[1..] == s;
  }

  /** Nothing in a sorted list has the key of an element that sorts before its head. */
  lemma BelowHeadNone<T, K(!new)>(x: T, s: seq<T>, key: T -> K, cmp: (K, K) -> Ordering, k: K)
    requires TotalOrder(cmp) && SortedBy(s, key, cmp) && s != []
    requires cmp(key(x), key(s[0])) == Lt && key(x) == k
    ensures WithKey(s, key, k) == []
  {
    forall i | 0 <= i < |s| ensures key(s[i]) != k {
      assert i == 0 || cmp(key(s[0]), key(s[i])) != Gt;
    }
    WithKeyNone(s, key, k);
  }

  /** Stability: the elements that share one exact key come out in the order they went in. */
  lemma {:induction false} SortStable<T, K(!new)>(s: seq<T>, key: T -> K, cmp: (K, K) -> Ordering, k: K)
    requires TotalOrder(cmp)
    ensures WithKey(SortBy(s, key, cmp), key, k) == WithKey(s, key, k)
    decreases |s|
  {
    if s != [] {
      var init, last := s[..|s| - 1], s[|s| - 1];
      var sorted := SortBy(init, key, cmp);
      var tail := if key(last) == k then [last] else [];
      assert SortBy(s, key, cmp) == Insert(last, sorted, key, cmp);
      SortStable(init, key, cmp, k);
      SortSorted(init, key, cmp);
      InsertStable(last, sorted, key, cmp, k);
      assert WithKey(SortBy(s, key, cmp), key, k) == WithKey(init, key, k) + tail;
      SplitLast(s);
      WithKeyAppend(init, last, key, k);
    }
  }

  lemma {:induction false} WithKeyMember<T, K>(s: seq<T>, key: T -> K, k: K, y: T)
    requires y in WithKey(s, key, k)
    ensures y in s && key(y) == k
    decreases |s|
  {
    if s != [] && y !in (if key(s[0]) == k then [s[0]] else []) {
      WithKeyMember(s[1..], key, k, y);
    }
  }

  /** A list that agrees with a non-empty one on every key class is non-empty. */
  lemma AgreeNonEmpty<T, K(!new)>(u: seq<T>, t: seq<T>, key: T -> K)
    requires forall k :: WithKey(u, key, k) == WithKey(t, key, k)
    ensures u != [] ==> t != []
  {
    if u != [] {
      assert WithKey(u, key, key(u[0])) != [];
      assert WithKey(t, key, key(u[0])) != [];
    }
  }

  /**
   * Two lists sorted by the key that agree on every key class are equal:
   * sortedness and stability fix the result of any stable sort.
   */
  lemma {:induction false} SortedStableUnique<T, K(!new)>(u: seq<T>, t: seq<T>, key: T -> K, cmp: (K, K) -> Ordering)
    requires TotalOrder(cmp) && SortedBy(u, key, cmp) && SortedBy(t, key, cmp)
    requires forall k :: WithKey(u, key, k) == WithKey(t, key, k)
    ensures u == t
    decreases |u|
  {
    AgreeNonEmpty(u, t, key);
    AgreeNonEmpty(t, u, key);
    if u != [] {
      var ku, kt := key(u[0]), key(t[0]);
      var wu, wt := WithKey(u, key, ku), WithKey(t, key, kt);
      assert wu[0] == u[0] && wt[0] == t[0];
      // u[0]'s key occurs in t, so it is not below t[0]'s; and symmetrically
      assert WithKey(t, key, ku) == wu;
      assert WithKey(u, key, kt) == wt;
      WithKeyMember(t, key, ku, wu[0]);
      WithKeyMember(u, key, kt, wt[0]);
      var iy :| 0 <= iy < |t| && t[iy] == wu[0];
      var iz :| 0 <= iz < |u| && u[iz] == wt[0];
      assert iy == 0 || cmp(kt, key(t[iy])) != Gt;
      assert iz == 0 || cmp(ku, key(u[iz])) != Gt;
      assert ku == kt;
      assert u[0] == t[0];
      forall k ensures WithKey(u[1..], key, k) == WithKey(t[1..], key, k) {
        var head := if ku == k then [u[0]] else [];
        assert WithKey(u, key, k) == head + WithKey(u[1..], key, k);
        assert WithKey(t, key, k) == head + WithKey(t[1..], key, k);
        assert WithKey(u[1..], key, k) == WithKey(u, key, k)[|head|..];
        assert WithKey(t[1..], key, k) == WithKey(t, key, k)[|head|..];
      }
      SortedStableUnique(u[1..], t[1..], key, cmp);
      assert u == [u[0]] + u[1..] && t == [t[0]] + t[1..];
    }
  }

  /** Any list sorted by the key that keeps every key class of `s` in order is `SortBy(s)`. */
  lemma StableSortIsSortBy<T, K(!new)>(s: seq<T>, t: seq<T>, key: T -> K, cmp: (K, K) -> Ordering)
    requires TotalOrder(cmp) && SortedBy(t, key, cmp)
    requires forall k :: WithKey(t, key, k) == WithKey(s, key, k)
    ensures t == SortBy(s, key, cmp)
  {
    SortSorted(s, key, cmp);
    forall k ensures WithKey(SortBy(s, key, cmp), key, k) == WithKey(t, key, k) {
      SortStable(s, key, cmp, k);
    }
    SortedStableUnique(SortBy(s, key, cmp), t, key, cmp);
  }
}

/**
 * The final ordering of process_playlists (collector.py:436): by priority,
 * then by natural name order, then by latency.
 */
module Ranking {

  import opened Wrappers
  import opened Orders
  import opened Names
  import opened Channels
  import Sorting

  /** The tuple `(priority, natural_key(clean_name), latency)`. */
  datatype SortKey = SortKey(priority: int, name: seq<KeyPart>, latency: int)

  /** The key of a channel; `Ranked` says the three dict keys it reads are present. */
  function KeyOf(c: Channel): SortKey {
    SortKey(c.priority.GetOr(0), NaturalKey(c.cleanName.GetOr("")), c.latency.GetOr(0))
  }

  /** Python's tuple comparison, element by element. */
  function CmpSortKey(x: SortKey, y: SortKey): Ordering {
    var p := CmpInt(x.priority, y.priority);
    if p != Eq then p
    else
      var n := CmpNatural(x.name, y.name);
      if n != Eq then n else CmpInt(x.latency, y.latency)
  }

  lemma CmpSortKeyTotal()
    ensures TotalOrder(CmpSortKey)
  {
    CmpNaturalTotal();
  }

  predicate AllRanked(s: seq<Channel>) {
    forall i :: 0 <= i < |s| ==> Ranked(s[i])
  }

  /** `valid_channels.sort(key=...)`; the key lookups need the three fields. */
  function SortChannels(s: seq<Channel>): seq<Channel>
    requires AllRanked(s)
  {
    Sorting.SortBy(s, KeyOf, CmpSortKey)
  }

  /**
   * The sorted list is a permutation of its input, non-decreasing by
   * `(priority, natural_key(clean_name), latency)`, and channels with an
   * identical key keep their relative order.
   */
  lemma SortChannelsCorrect(s: seq<Channel>)
    requires AllRanked(s)
    ensures multiset(SortChannels(s)) == multiset(s)
    ensures forall i, j :: 0 <= i < j < |SortChannels(s)| ==>
      CmpSortKey(KeyOf(SortChannels(s)[i]), KeyOf(SortChannels(s)[j])) != Gt
    ensures forall k :: Sorting.WithKey(SortChannels(s), KeyOf, k) == Sorting.WithKey(s, KeyOf, k)
  {
    CmpSortKeyTotal();
    Sorting.SortPermutation(s, KeyOf, CmpSortKey);
    Sorting.SortSorted(s, KeyOf, CmpSortKey);
    forall k ensures Sorting.WithKey(SortChannels(s), KeyOf, k) == Sorting.WithKey(s, KeyOf, k) {
      Sorting.SortStable(s, KeyOf, CmpSortKey, k);
    }
  }
}
