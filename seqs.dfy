/** Order-preserving filtering (Python list comprehensions with an `if`)
    and the stable sort of Python's `list.sort(key=..., reverse=...)`. */
module Seqs {

  // ---------------------------------------------------------------------------
  // Filtering
  // ---------------------------------------------------------------------------

  /** `[x for x in s if p(x)]`: the elements of `s` that satisfy `p`, each as
      often as in `s`, and no other. */
  function Filter<T(!new)>(s: seq<T>, p: T -> bool): (r: seq<T>)
    ensures |r| <= |s|
    ensures forall x :: x in r ==> p(x)
    ensures forall x {:trigger multiset(r)[x]} :: multiset(r)[x] == if p(x) then multiset(s)[x] else 0
  {
    if |s| == 0 then []
    else
      assert s == [s[0]] + s[1..];
      (if p(s[0]) then [s[0]] else []) + Filter(s[1..], p)
  }

  /** Filtering a sequence with a given first element. */
  lemma FilterCons<T(!new)>(x: T, s: seq<T>, p: T -> bool)
    ensures Filter([x] + s, p) == (if p(x) then [x] else []) + Filter(s, p)
  {
    assert ([x] + s)[0] == x;
    assert ([x] + s)[1..] == s;
  }

  /** The filter keeps relative order: it distributes over concatenation. */
  lemma {:induction false} FilterConcat<T(!new)>(a: seq<T>, b: seq<T>, p: T -> bool)
    ensures Filter(a + b, p) == Filter(a, p) + Filter(b, p)
  {
    if |a| > 0 {
      FilterConcat(a[1..], b, p);
      assert a + b == [a[0]] + (a[1..] + b);
      FilterCons(a[0], a[1..] + b, p);
      FilterCons(a[0], a[1..], p);
      assert a == [a[0]] + a[1..];
    } else {
      assert a + b == b;
    }
  }

  /** A filter that every element passes changes nothing. */
  lemma {:induction false} FilterAll<T(!new)>(s: seq<T>, p: T -> bool)
    requires forall x :: x in s ==> p(x)
    ensures Filter(s, p) == s
  {
    if |s| > 0 {
      FilterAll(s[1..], p);
      assert s == [s[0]] + s[1..];
    }
  }

  /** Filtering twice is filtering once by the conjunction. */
  lemma {:induction false} FilterFilter<T(!new)>(s: seq<T>, p: T -> bool, q: T -> bool, pq: T -> bool)
    requires forall x :: pq(x) == (p(x) && q(x))
    ensures Filter(Filter(s, p), q) == Filter(s, pq)
  {
    if |s| > 0 {
      FilterFilter(s[1..], p, q, pq);
      var head := if p(s[0]) then [s[0]] else [];
      FilterConcat(head, Filter(s[1..], p), q);
    }
  }

  /** The elements of `s` whose key is `k`, in their order in `s`. */
  ghost function WithKey<T(!new), K>(s: seq<T>, key: T -> K, k: K): seq<T> {
    Filter(s, x => key(x) == k)
  }

  // ---------------------------------------------------------------------------
  // Orders and sortedness
  // ---------------------------------------------------------------------------

  /** `lt(a, b)` says key `a` must come strictly before key `b`: an
      irreflexive, transitive and total relation. */
  ghost predicate StrictTotalOrder<K(!new)>(lt: (K, K) -> bool) {
    && (forall a :: !lt(a, a))
    && (forall a, b, c :: lt(a, b) && lt(b, c) ==> lt(a, c))
    && (forall a, b :: a == b || lt(a, b) || lt(b, a))
  }

  /** No element is preceded by one whose key should come after its own. */
  ghost predicate Sorted<T(!new), K(!new)>(s: seq<T>, key: T -> K, lt: (K, K) -> bool) {
    forall i, j :: 0 <= i < j < |s| ==> !lt(key(s[j]), key(s[i]))
  }

  /** `r` is a stable sort of `s`: sorted, and for every key the elements
      with that key appear in `r` exactly as they appear in `s`. */
  ghost predicate StablySorted<T(!new), K(!new)>(r: seq<T>, s: seq<T>, key: T -> K, lt: (K, K) -> bool) {
    && Sorted(r, key, lt)
    && (forall k :: WithKey(r, key, k) == WithKey(s, key, k))
  }

  // ---------------------------------------------------------------------------
  // Stable insertion sort
  // ---------------------------------------------------------------------------

  /** Insert `x` in front of the first element whose key does not have to
      come strictly before `x`'s key. */
  function Insert<T(!new), K(!new)>(x: T, s: seq<T>, key: T -> K, lt: (K, K) -> bool): (r: seq<T>)
    ensures multiset(r) == multiset(s) + multiset{x}
    ensures |r| == |s| + 1
  {
    if |s| == 0 then [x]
    else if lt(key(s[0]), key(x)) then
      assert s == [s[0]] + s[1..];
      [s[0]] + Insert(x, s[1..], key, lt)
    else [x] + s
  }

  /** The stable sort: sorting the tail and inserting the head in front of
      every element with an equal key keeps equal keys in input order. */
  function SortBy<T(!new), K(!new)>(s: seq<T>, key: T -> K, lt: (K, K) -> bool): (r: seq<T>)
    ensures multiset(r) == multiset(s)
    ensures |r| == |s|
  {
    if |s| == 0 then []
    else
      assert s == [s[0]] + s[1..];
      Insert(s[0], SortBy(s[1..], key, lt), key, lt)
  }

  lemma {:induction false} InsertSorted<T(!new), K(!new)>(x: T, s: seq<T>, key: T -> K, lt: (K, K) -> bool)
    requires StrictTotalOrder(lt)
    requires Sorted(s, key, lt)
    ensures Sorted(Insert(x, s, key, lt), key, lt)
  {
    if |s| > 0 {
      var r := Insert(x, s, key, lt);
      if lt(key(s[0]), key(x)) {
        var t := Insert(x, s[1..], key, lt);
        InsertSorted(x, s[1..], key, lt);
        assert r == [s[0]] + t;
        forall j | 0 < j < |r| ensures !lt(key(r[j]), key(s[0])) {
          assert r[j] == t[j - 1];
          assert r[j] in multiset(t);
          assert r[j] in multiset(s[1..]) + multiset{x};
          if r[j] == x {
            assert !lt(key(x), key(s[0]));
          } else {
            assert r[j] in s[1..];
            var m :| 0 <= m < |s[1..]| && s[1..][m] == r[j];
            assert s[m + 1] == r[j];
          }
        }
      } else {
        forall j | 0 <= j < |s| ensures !lt(key(s[j]), key(x)) {
          if j > 0 {
            assert !lt(key(s[j]), key(s[0]));
            assert key(x) == key(s[0]) || lt(key(x), key(s[0]));
          }
        }
        assert r == [x] + s;
      }
    }
  }

  /** The result of `SortBy` is sorted. */
  lemma {:induction false} SortBySorted<T(!new), K(!new)>(s: seq<T>, key: T -> K, lt: (K, K) -> bool)
    requires StrictTotalOrder(lt)
    ensures Sorted(SortBy(s, key, lt), key, lt)
  {
    if |s| > 0 {
      SortBySorted(s[1..], key, lt);
      InsertSorted(s[0], SortBy(s[1..], key, lt), key, lt);
    }
  }

  /** The elements with key `k` of a sequence with a given first element. */
  lemma WithKeyCons<T(!new), K(!new)>(x: T, s: seq<T>, key: T -> K, k: K)
    ensures WithKey([x] + s, key, k) == (if key(x) == k then [x] else []) + WithKey(s, key, k)
  {
    FilterCons(x, s, y => key(y) == k);
  }

  /** What is selected for key `k` comes from `s` and has key `k`. */
  lemma InWithKey<T(!new), K(!new)>(x: T, s: seq<T>, key: T -> K, k: K)
    requires x in WithKey(s, key, k)
    ensures x in s && key(x) == k
  {
    assert x in multiset(WithKey(s, key, k));
  }

  lemma {:induction false} InsertWithKey<T(!new), K(!new)>(x: T, s: seq<T>, key: T -> K, lt: (K, K) -> bool, k: K)
    requires StrictTotalOrder(lt)
    ensures WithKey(Insert(x, s, key, lt), key, k)
         == (if key(x) == k then [x] else []) + WithKey(s, key, k)
  {
    if |s| > 0 {
      if lt(key(s[0]), key(x)) {
        assert key(s[0]) != key(x);
        InsertWithKey(x, s[1..], key, lt, k);
        WithKeyCons(s[0], Insert(x, s[1..], key, lt), key, k);
        WithKeyCons(s[0], s[1..], key, k);
        assert s == [s[0]] + s[1..];
      } else {
        WithKeyCons(x, s, key, k);
      }
    } else {
      WithKeyCons(x, [], key, k);
      assert [x] + [] == [x];
    }
  }

  /** `SortBy` keeps the elements of each key in their input order. */
  lemma {:induction false} SortByStable<T(!new), K(!new)>(s: seq<T>, key: T -> K, lt: (K, K) -> bool, k: K)
    requires StrictTotalOrder(lt)
    ensures WithKey(SortBy(s, key, lt), key, k) == WithKey(s, key, k)
  {
    if |s| > 0 {
      SortByStable(s[1..], key, lt, k);
      InsertWithKey(s[0], SortBy(s[1..], key, lt), key, lt, k);
      WithKeyCons(s[0], s[1..], key, k);
      assert s == [s[0]] + s[1..];
    }
  }

  /** `SortBy` is a stable sort. */
  lemma SortByStablySorted<T(!new), K(!new)>(s: seq<T>, key: T -> K, lt: (K, K) -> bool)
    requires StrictTotalOrder(lt)
    ensures StablySorted(SortBy(s, key, lt), s, key, lt)
  {
    SortBySorted(s, key, lt);
    forall k ensures WithKey(SortBy(s, key, lt), key, k) == WithKey(s, key, k) {
      SortByStable(s, key, lt, k);
    }
  }

  /** A stable sort is unique: any stable sort of `s` is `SortBy(s)`. So
      `SortBy` is the sort Python's stable `list.sort` computes. */
  lemma {:induction false} StableSortUnique<T(!new), K(!new)>(r: seq<T>, s: seq<T>, key: T -> K, lt: (K, K) -> bool)
    requires StrictTotalOrder(lt)
    requires StablySorted(r, s, key, lt)
    ensures r == SortBy(s, key, lt)
  {
    SortByStablySorted(s, key, lt);
    SameKeysSame(r, SortBy(s, key, lt), key, lt);
  }

  /** In a sorted sequence no key comes strictly before the first key. */
  lemma FirstKeyLeast<T(!new), K(!new)>(a: seq<T>, key: T -> K, lt: (K, K) -> bool, x: T)
    requires StrictTotalOrder(lt)
    requires Sorted(a, key, lt) && x in a
    ensures !lt(key(x), key(a[0]))
  {
    var i :| 0 <= i < |a| && a[i] == x;
    if i > 0 { assert !lt(key(a[i]), key(a[0])); }
  }

  /** Two sorted sequences that agree on the elements of every key have the
      same first element. */
  lemma SameKeysSameHead<T(!new), K(!new)>(a: seq<T>, b: seq<T>, key: T -> K, lt: (K, K) -> bool)
    requires StrictTotalOrder(lt)
    requires Sorted(a, key, lt) && Sorted(b, key, lt)
    requires forall k :: WithKey(a, key, k) == WithKey(b, key, k)
    requires |a| > 0 && |b| > 0
    ensures a[0] == b[0]
  {
    var ka, kb := key(a[0]), key(b[0]);
    WithKeyCons(a[0], a[1..], key, ka);
    WithKeyCons(b[0], b[1..], key, kb);
    assert a == [a[0]] + a[1..] && b == [b[0]] + b[1..];
    assert b[0] in WithKey(a, key, kb);
    InWithKey(b[0], a, key, kb);
    FirstKeyLeast(a, key, lt, b[0]);
    assert a[0] in WithKey(b, key, ka);
    InWithKey(a[0], b, key, ka);
    FirstKeyLeast(b, key, lt, a[0]);
    assert ka == kb;
    WithKeyCons(b[0], b[1..], key, ka);
    assert WithKey(a, key, ka)[0] == a[0];
    assert WithKey(b, key, ka)[0] == b[0];
  }

  /** Two sorted sequences that agree on the elements of every key are equal. */
  lemma {:induction false} SameKeysSame<T(!new), K(!new)>(a: seq<T>, b: seq<T>, key: T -> K, lt: (K, K) -> bool)
    requires StrictTotalOrder(lt)
    requires Sorted(a, key, lt) && Sorted(b, key, lt)
    requires forall k :: WithKey(a, key, k) == WithKey(b, key, k)
    ensures a == b
    decreases |a|
  {
    if |a| == 0 || |b| == 0 {
      var c := if |a| == 0 then b else a;
      if |c| > 0 {
        assert c == [c[0]] + c[1..];
        WithKeyCons(c[0], c[1..], key, key(c[0]));
      }
    } else {
      SameKeysSameHead(a, b, key, lt);
      forall k ensures WithKey(a[1..], key, k) == WithKey(b[1..], key, k) {
        WithKeyCons(a[0], a[1..], key, k);
        WithKeyCons(b[0], b[1..], key, k);
        assert a == [a[0]] + a[1..] && b == [b[0]] + b[1..];
        assert WithKey(a, key, k) == WithKey(b, key, k);
        var h := if key(a[0]) == k then [a[0]] else [];
        assert WithKey(a[1..], key, k) == (h + WithKey(a[1..], key, k))[|h|..];
        assert WithKey(b[1..], key, k) == (h + WithKey(b[1..], key, k))[|h|..];
      }
      SameKeysSame(a[1..], b[1..], key, lt);
      assert a == [a[0]] + a[1..] && b == [b[0]] + b[1..];
    }
  }

  /** Stable-sorting pieces first and then their concatenation is the same as
      stable-sorting the concatenation. */
  lemma SortConcatOfSorted<T(!new), K(!new)>(a: seq<T>, b: seq<T>, key: T -> K, lt: (K, K) -> bool)
    requires StrictTotalOrder(lt)
    ensures SortBy(SortBy(a, key, lt) + SortBy(b, key, lt), key, lt) == SortBy(a + b, key, lt)
  {
    var m := SortBy(a, key, lt) + SortBy(b, key, lt);
    var r := SortBy(m, key, lt);
    SortByStablySorted(m, key, lt);
    forall k ensures WithKey(r, key, k) == WithKey(a + b, key, k) {
      var p := y => key(y) == k;
      SortByStable(a, key, lt, k);
      SortByStable(b, key, lt, k);
      FilterConcat(SortBy(a, key, lt), SortBy(b, key, lt), p);
      FilterConcat(a, b, p);
    }
    StableSortUnique(r, a + b, key, lt);
  }
}
