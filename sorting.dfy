/**
 * Stable sorting by a numeric key, and order-preserving filtering, over
 * sequences of any element type. Array.prototype.sort must be stable
 * (ECMA-262, 10th edition, section 22.1.3.27); a comparator of the form
 * key(b) - key(a) puts larger keys first.
 */
module Sorting {

  /** Keys never increase along r. */
  ghost predicate Ordered<T>(key: T -> real, r: seq<T>) {
    forall i, j :: 0 <= i < j < |r| ==> key(r[j]) <= key(r[i])
  }

  /** The elements of s whose key is k, in their order in s. */
  function WithKey<T>(key: T -> real, s: seq<T>, k: real): seq<T> {
    if s == [] then []
    else if key(s[0]) == k then [s[0]] + WithKey(key, s[1..], k)
    else WithKey(key, s[1..], k)
  }

  /** r keeps, for every key, the elements of s with that key in their order in s. */
  ghost predicate Stable<T>(key: T -> real, r: seq<T>, s: seq<T>) {
    forall k :: WithKey(key, r, k) == WithKey(key, s, k)
  }

  /** Puts x in front of the first element of t that does not go before it. */
  function Insert<T>(key: T -> real, x: T, t: seq<T>): seq<T> {
    if t == [] || key(t[0]) - key(x) <= 0.0 then [x] + t
    else [t[0]] + Insert(key, x, t[1..])
  }

  /** Insertion sort, largest key first. */
  function Sort<T>(key: T -> real, s: seq<T>): seq<T> {
    if s == [] then [] else Insert(key, s[0], Sort(key, s[1..]))
  }

  lemma {:induction false} WithKeyMembers<T>(key: T -> real, s: seq<T>, k: real, x: T)
    requires x in WithKey(key, s, k)
    ensures x in s && key(x) == k
  {
    if s != [] && (key(s[0]) != k || x != s[0]) {
      WithKeyMembers(key, s[1..], k, x);
    }
  }

  lemma {:induction false} WithKeyAppend<T>(key: T -> real, a: seq<T>, b: seq<T>, k: real)
    ensures WithKey(key, a + b, k) == WithKey(key, a, k) + WithKey(key, b, k)
  {
    if a != [] {
      assert (a + b)[0] == a[0];
      assert (a + b)[1..] == a[1..] + b;
      WithKeyAppend(key, a[1..], b, k);
    } else {
      assert a + b == b;
    }
  }

  lemma {:induction false} InsertKeepsKeyRuns<T>(key: T -> real, x: T, t: seq<T>, k: real)
    ensures WithKey(key, Insert(key, x, t), k) == WithKey(key, [x] + t, k)
  {
    if t != [] && key(t[0]) - key(x) > 0.0 {
      InsertKeepsKeyRuns(key, x, t[1..], k);
      WithKeyAppend(key, [t[0]], Insert(key, x, t[1..]), k);
      WithKeyAppend(key, [x], t[1..], k);
      WithKeyAppend(key, [x], t, k);
      WithKeyAppend(key, [t[0]], t[1..], k);
      assert [t[0]] + t[1..] == t;
    }
  }

  lemma OrderedHeadIsMax<T>(key: T -> real, r: seq<T>)
    requires Ordered(key, r) && r != []
    ensures forall y :: y in r ==> key(y) <= key(r[0])
  {
    forall y | y in r
      ensures key(y) <= key(r[0])
    {
      var i :| 0 <= i < |r| && r[i] == y;
    }
  }

  /** Every key in s is at most v. */
  ghost predicate KeysAtMost<T>(key: T -> real, s: seq<T>, v: real) {
    forall i :: 0 <= i < |s| ==> key(s[i]) <= v
  }

  lemma OrderedCons<T>(key: T -> real, a: T, r: seq<T>)
    requires Ordered(key, r) && KeysAtMost(key, r, key(a))
    ensures Ordered(key, [a] + r)
  {
    var ar := [a] + r;
    forall i, j | 0 <= i < j < |ar|
      ensures key(ar[j]) <= key(ar[i])
    {
      assert ar[j] == r[j - 1];
      if i > 0 {
        assert ar[i] == r[i - 1];
      }
    }
  }

  lemma {:induction false} InsertKeysAtMost<T>(key: T -> real, x: T, t: seq<T>, v: real)
    requires key(x) <= v && KeysAtMost(key, t, v)
    ensures KeysAtMost(key, Insert(key, x, t), v)
  {
    if t != [] && key(t[0]) - key(x) > 0.0 {
      InsertKeysAtMost(key, x, t[1..], v);
      var r := Insert(key, x, t);
      forall i | 0 <= i < |r|
        ensures key(r[i]) <= v
      {
        if i > 0 {
          assert r[i] == Insert(key, x, t[1..])[i - 1];
        }
      }
    }
  }

  lemma {:induction false} InsertOrdered<T>(key: T -> real, x: T, t: seq<T>)
    requires Ordered(key, t)
    ensures Ordered(key, Insert(key, x, t))
  {
    if t == [] || key(t[0]) - key(x) <= 0.0 {
      OrderedCons(key, x, t);
    } else {
      InsertOrdered(key, x, t[1..]);
      InsertKeysAtMost(key, x, t[1..], key(t[0]));
      OrderedCons(key, t[0], Insert(key, x, t[1..]));
    }
  }

  lemma {:induction false} InsertPermutes<T>(key: T -> real, x: T, t: seq<T>)
    ensures multiset(Insert(key, x, t)) == multiset(t) + multiset{x}
  {
    if t != [] && key(t[0]) - key(x) > 0.0 {
      InsertPermutes(key, x, t[1..]);
      assert t == [t[0]] + t[1..];
    }
  }

  /** The sorted sequence is ordered, a permutation of the input, and stable. */
  lemma {:induction false} SortCorrect<T>(key: T -> real, s: seq<T>)
    ensures Ordered(key, Sort(key, s))
    ensures multiset(Sort(key, s)) == multiset(s)
    ensures Stable(key, Sort(key, s), s)
  {
    if s != [] {
      var rest := Sort(key, s[1..]);
      SortCorrect(key, s[1..]);
      InsertOrdered(key, s[0], rest);
      InsertPermutes(key, s[0], rest);
      assert s == [s[0]] + s[1..];
      forall k
        ensures WithKey(key, Sort(key, s), k) == WithKey(key, s, k)
      {
        InsertKeepsKeyRuns(key, s[0], rest, k);
        WithKeyAppend(key, [s[0]], rest, k);
        WithKeyAppend(key, [s[0]], s[1..], k);
      }
    }
  }

  /** Two ordered sequences with the same per-key runs are equal. */
  lemma {:induction false} StableSortUnique<T>(key: T -> real, r1: seq<T>, r2: seq<T>)
    requires Ordered(key, r1) && Ordered(key, r2)
    requires Stable(key, r1, r2)
    ensures r1 == r2
    decreases |r1|
  {
    if r1 == [] && r2 == [] {
    } else if r2 == [] {
      var w := WithKey(key, r1, key(r1[0]));
      assert false;
    } else if r1 == [] {
      var w := WithKey(key, r2, key(r2[0]));
      assert false;
    } else {
      var k1, k2 := key(r1[0]), key(r2[0]);
      OrderedHeadIsMax(key, r1);
      OrderedHeadIsMax(key, r2);
      var w1, w2 := WithKey(key, r1, k1), WithKey(key, r2, k2);
      assert w1[0] == r1[0] && w2[0] == r2[0];
      assert WithKey(key, r1, k2) == w2;
      WithKeyMembers(key, r1, k2, w2[0]);
      assert WithKey(key, r2, k1) == w1;
      WithKeyMembers(key, r2, k1, w1[0]);
      assert k1 == k2;
      assert r1[0] == r2[0];
      forall k
        ensures WithKey(key, r1[1..], k) == WithKey(key, r2[1..], k)
      {
        assert WithKey(key, r1, k) == WithKey(key, r2, k);
        if k == k1 {
          assert WithKey(key, r1, k) == [r1[0]] + WithKey(key, r1[1..], k);
          assert WithKey(key, r2, k) == [r2[0]] + WithKey(key, r2[1..], k);
          assert WithKey(key, r1, k)[1..] == WithKey(key, r1[1..], k);
        }
      }
      StableSortUnique(key, r1[1..], r2[1..]);
      assert r1 == [r1[0]] + r1[1..];
      assert r2 == [r2[0]] + r2[1..];
    }
  }

  /** Any stable sort by this key gives exactly Sort. */
  lemma SortIsTheStableSort<T>(key: T -> real, s: seq<T>, r: seq<T>)
    requires Ordered(key, r) && Stable(key, r, s)
    ensures r == Sort(key, s)
  {
    SortCorrect(key, s);
    StableSortUnique(key, r, Sort(key, s));
  }

  /** Sorting an ordered sequence changes nothing. */
  lemma {:induction false} SortOrderedIsIdentity<T>(key: T -> real, r: seq<T>)
    requires Ordered(key, r)
    ensures Sort(key, r) == r
  {
    if r != [] {
      SortOrderedIsIdentity(key, r[1..]);
      assert [r[0]] + r[1..] == r;
    }
  }

  /** The elements of s that keep accepts, in their order in s. */
  function Filter<T>(keep: T -> bool, s: seq<T>): seq<T> {
    if s == [] then []
    else if keep(s[0]) then [s[0]] + Filter(keep, s[1..])
    else Filter(keep, s[1..])
  }

  /** a can be obtained from b by deleting elements. */
  ghost predicate IsSubsequence<T>(a: seq<T>, b: seq<T>)
    decreases |b|
  {
    a == [] || (b != [] && (IsSubsequence(a, b[1..]) || (a[0] == b[0] && IsSubsequence(a[1..], b[1..]))))
  }

  lemma {:induction false} FilterCons<T>(keep: T -> bool, x: T, t: seq<T>)
    ensures Filter(keep, [x] + t) == if keep(x) then [x] + Filter(keep, t) else Filter(keep, t)
  {
    assert ([x] + t)[0] == x;
    assert ([x] + t)[1..] == t;
  }

  lemma {:induction false} FilterMembers<T>(keep: T -> bool, s: seq<T>, x: T)
    requires x in Filter(keep, s)
    ensures x in s && keep(x)
  {
    if s != [] && (!keep(s[0]) || x != s[0]) {
      FilterMembers(keep, s[1..], x);
    }
  }

  /**
   * Filter keeps every accepted element as often as s holds it, no other
   * element, and the order of s.
   */
  lemma {:induction false} FilterExact<T>(keep: T -> bool, s: seq<T>)
    ensures forall x :: multiset(Filter(keep, s))[x] == if keep(x) then multiset(s)[x] else 0
    ensures IsSubsequence(Filter(keep, s), s)
  {
    if s != [] {
      FilterExact(keep, s[1..]);
      assert s == [s[0]] + s[1..];
      var rest := Filter(keep, s[1..]);
      if !keep(s[0]) && rest != [] {
        FilterMembers(keep, s[1..], rest[0]);
      }
    }
  }

  lemma {:induction false} FilterIdempotent<T>(keep: T -> bool, s: seq<T>)
    ensures Filter(keep, Filter(keep, s)) == Filter(keep, s)
  {
    if s != [] {
      FilterIdempotent(keep, s[1..]);
      if keep(s[0]) {
        FilterCons(keep, s[0], Filter(keep, s[1..]));
      }
    }
  }

  lemma {:induction false} FilterInsert<T>(key: T -> real, keep: T -> bool, x: T, t: seq<T>)
    requires Ordered(key, t)
    ensures Filter(keep, Insert(key, x, t)) ==
      if keep(x) then Insert(key, x, Filter(keep, t)) else Filter(keep, t)
  {
    if t == [] || key(t[0]) - key(x) <= 0.0 {
      FilterCons(keep, x, t);
      var ft := Filter(keep, t);
      if ft != [] {
        OrderedHeadIsMax(key, t);
        FilterMembers(keep, t, ft[0]);
      }
    } else {
      FilterInsert(key, keep, x, t[1..]);
      FilterCons(keep, t[0], Insert(key, x, t[1..]));
      assert [t[0]] + t[1..] == t;
      FilterCons(keep, t[0], t[1..]);
    }
  }

  /** Filtering the sorted sequence is sorting the filtered sequence. */
  lemma {:induction false} FilterSortCommute<T>(key: T -> real, keep: T -> bool, s: seq<T>)
    ensures Filter(keep, Sort(key, s)) == Sort(key, Filter(keep, s))
  {
    if s != [] {
      FilterSortCommute(key, keep, s[1..]);
      SortCorrect(key, s[1..]);
      FilterInsert(key, keep, s[0], Sort(key, s[1..]));
      if keep(s[0]) {
        FilterCons(keep, s[0], Filter(keep, s[1..]));
        assert ([s[0]] + Filter(keep, s[1..]))[1..] == Filter(keep, s[1..]);
      }
    }
  }
}
