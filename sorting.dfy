/**
 * Python's `sorted(xs, key=k)` as an insertion sort on an integer key.
 * A descending sort (`reverse=True`) is the ascending sort on the negated key:
 * Python keeps ties in their original order either way, so both are stable.
 */
module Sorting {

  predicate SortedBy<T>(s: seq<T>, key: T -> int)
  {
    forall i, j :: 0 <= i < j < |s| ==> key(s[i]) <= key(s[j])
  }

  /** Inserts `x` in front of the first element whose key is not smaller. */
  function InsertBy<T>(x: T, s: seq<T>, key: T -> int): (r: seq<T>)
    ensures multiset(r) == multiset(s) + multiset{x}
    ensures |r| == |s| + 1
  {
    if s == [] || key(x) <= key(s[0]) then [x] + s
    else
      assert s == [s[0]] + s[1..];
      [s[0]] + InsertBy(x, s[1..], key)
  }

  /** Inserting into a sorted sequence keeps it sorted. */
  lemma {:induction false} InsertBySorted<T>(x: T, s: seq<T>, key: T -> int)
    requires SortedBy(s, key)
    ensures SortedBy(InsertBy(x, s, key), key)
  {
    if s != [] && key(s[0]) < key(x) {
      var rest := InsertBy(x, s[1..], key);
      InsertBySorted(x, s[1..], key);
      forall b | b in rest ensures key(s[0]) <= key(b) {
        assert b in multiset(rest);
        if b != x {
          assert b in multiset(s[1..]);
          var j :| 0 <= j < |s[1..]| && s[1..][j] == b;
          assert s[j + 1] == b;
        }
      }
      ConsSorted(s[0], rest, key);
    }
  }

  lemma ConsSorted<T>(h: T, rest: seq<T>, key: T -> int)
    requires SortedBy(rest, key) && forall b :: b in rest ==> key(h) <= key(b)
    ensures SortedBy([h] + rest, key)
  {
    var r := [h] + rest;
    forall i, j | 0 <= i < j < |r| ensures key(r[i]) <= key(r[j]) {
      assert r[j] == rest[j - 1];
      if i > 0 {
        assert r[i] == rest[i - 1];
      }
    }
  }

  /** `sorted(s, key=key)`: a permutation of `s` ordered by `key`. */
  function SortBy<T>(s: seq<T>, key: T -> int): (r: seq<T>)
    ensures multiset(r) == multiset(s)
    ensures |r| == |s|
    ensures SortedBy(r, key)
  {
    if s == [] then []
    else
      assert s == [s[0]] + s[1..];
      var sorted := SortBy(s[1..], key);
      InsertBySorted(s[0], sorted, key);
      InsertBy(s[0], sorted, key)
  }

  /** The elements of `s` whose key is `k`, in their order in `s`. */
  function WithKey<T>(s: seq<T>, key: T -> int, k: int): seq<T>
  {
    if s == [] then [] else (if key(s[0]) == k then [s[0]] else []) + WithKey(s[1..], key, k)
  }

  /** `r` is `s` sorted stably by `key`: ordered, a permutation, and ties in their order in `s`. */
  ghost predicate StablySorted<T>(s: seq<T>, r: seq<T>, key: T -> int)
  {
    multiset(r) == multiset(s) && SortedBy(r, key) && forall k :: WithKey(r, key, k) == WithKey(s, key, k)
  }

  lemma WithKeyCons<T>(h: T, t: seq<T>, key: T -> int, k: int)
    ensures WithKey([h] + t, key, k) == (if key(h) == k then [h] else []) + WithKey(t, key, k)
  {
    assert ([h] + t)[0] == h && ([h] + t)[1..] == t;
  }

  /** Inserting `x` puts it in front of every element with its key, and moves no other element of that key. */
  lemma {:induction false} InsertByStable<T>(x: T, s: seq<T>, key: T -> int, k: int)
    ensures WithKey(InsertBy(x, s, key), key, k) == (if key(x) == k then [x] else []) + WithKey(s, key, k)
  {
    var hx := if key(x) == k then [x] else [];
    if s == [] || key(x) <= key(s[0]) {
      WithKeyCons(x, s, key, k);
    } else {
      var rest := InsertBy(x, s[1..], key);
      var h0 := if key(s[0]) == k then [s[0]] else [];
      var w := WithKey(s[1..], key, k);
      WithKeyCons(s[0], rest, key, k);
      InsertByStable(x, s[1..], key, k);
      assert WithKey(s, key, k) == h0 + w;
      if key(x) == k {
        assert h0 == [];
        assert h0 + (hx + w) == hx + w;
        assert h0 + w == w;
      } else {
        assert hx == [];
        assert hx + w == w;
        assert hx + (h0 + w) == h0 + w;
      }
    }
  }

  /** `SortBy` is stable: the elements of each key keep their order. */
  lemma {:induction false} SortByStable<T>(s: seq<T>, key: T -> int, k: int)
    ensures WithKey(SortBy(s, key), key, k) == WithKey(s, key, k)
  {
    if s != [] {
      SortByStable(s[1..], key, k);
      InsertByStable(s[0], SortBy(s[1..], key), key, k);
    }
  }

  /** The first element with a given key, in a sequence sorted by that key. */
  lemma SortedWithKeyHead<T>(r: seq<T>, key: T -> int)
    requires r != []
    ensures WithKey(r, key, key(r[0])) != [] && WithKey(r, key, key(r[0]))[0] == r[0]
  {
  }

  /** The first element of `WithKey(s, key, k)` is the first element of `s` with key `k`. */
  lemma {:induction false} WithKeyFirst<T>(s: seq<T>, key: T -> int, k: int)
    requires WithKey(s, key, k) != []
    ensures exists i ::
              0 <= i < |s| && s[i] == WithKey(s, key, k)[0] && key(s[i]) == k &&
              (forall j :: 0 <= j < i ==> key(s[j]) != k)
  {
    if key(s[0]) != k {
      WithKeyFirst(s[1..], key, k);
      var i :| 0 <= i < |s[1..]| && s[1..][i] == WithKey(s[1..], key, k)[0] && key(s[1..][i]) == k &&
        (forall j :: 0 <= j < i ==> key(s[1..][j]) != k);
      assert s[i + 1] == s[1..][i];
      forall j | 0 <= j < i + 1 ensures key(s[j]) != k {
        if j > 0 {
          assert s[j] == s[1..][j - 1];
        }
      }
    }
  }

  /** Two sorted sequences with the same elements and the same order within each key share their first element. */
  lemma HeadsAgree<T>(a: seq<T>, b: seq<T>, key: T -> int)
    requires SortedBy(a, key) && SortedBy(b, key) && multiset(a) == multiset(b) && a != []
    requires forall k :: WithKey(a, key, k) == WithKey(b, key, k)
    ensures b != [] && a[0] == b[0]
  {
    assert a[0] in multiset(b);
    assert b != [] && b[0] in multiset(a);
    var ia :| 0 <= ia < |b| && b[ia] == a[0];
    var ib :| 0 <= ib < |a| && a[ib] == b[0];
    assert key(a[0]) <= key(a[ib]) && key(b[0]) <= key(b[ia]);
    SortedWithKeyHead(a, key);
    SortedWithKeyHead(b, key);
    assert WithKey(a, key, key(a[0])) == WithKey(b, key, key(b[0]));
  }

  /** Dropping a common first element keeps the order within each key. */
  lemma TailsWithKey<T>(a: seq<T>, b: seq<T>, key: T -> int, k: int)
    requires a != [] && b != [] && a[0] == b[0]
    requires WithKey(a, key, k) == WithKey(b, key, k)
    ensures WithKey(a[1..], key, k) == WithKey(b[1..], key, k)
  {
    var h := if key(a[0]) == k then [a[0]] else [];
    assert WithKey(a, key, k) == h + WithKey(a[1..], key, k);
    assert WithKey(b, key, k) == h + WithKey(b[1..], key, k);
    assert WithKey(a[1..], key, k) == WithKey(a, key, k)[|h|..];
    assert WithKey(b[1..], key, k) == WithKey(b, key, k)[|h|..];
  }

  lemma SortedTail<T>(a: seq<T>, key: T -> int)
    requires SortedBy(a, key) && a != []
    ensures SortedBy(a[1..], key)
  {
    forall i, j | 0 <= i < j < |a| - 1 ensures key(a[1..][i]) <= key(a[1..][j]) {
      assert a[1..][i] == a[i + 1] && a[1..][j] == a[j + 1];
    }
  }

  lemma MultisetTail<T>(a: seq<T>, b: seq<T>)
    requires a != [] && b != [] && a[0] == b[0] && multiset(a) == multiset(b)
    ensures multiset(a[1..]) == multiset(b[1..])
  {
    assert a == [a[0]] + a[1..] && b == [b[0]] + b[1..];
    assert multiset(a[1..]) == multiset(a) - multiset{a[0]};
    assert multiset(b[1..]) == multiset(b) - multiset{b[0]};
  }

  /** Two sorted sequences with the same elements and the same order within each key are equal. */
  lemma {:induction false} StableUniqueFrom<T>(a: seq<T>, b: seq<T>, key: T -> int)
    requires SortedBy(a, key) && SortedBy(b, key) && multiset(a) == multiset(b)
    requires forall k :: WithKey(a, key, k) == WithKey(b, key, k)
    ensures a == b
    decreases |a|
  {
    if a == [] {
      assert |b| == |multiset(b)| == 0;
    } else {
      HeadsAgree(a, b, key);
      SortedTail(a, key);
      SortedTail(b, key);
      MultisetTail(a, b);
      forall k ensures WithKey(a[1..], key, k) == WithKey(b[1..], key, k) {
        TailsWithKey(a, b, key, k);
      }
      StableUniqueFrom(a[1..], b[1..], key);
      assert a == [a[0]] + a[1..] && b == [b[0]] + b[1..];
    }
  }

  /** There is only one stable sort: two stably sorted copies of the same sequence are equal. */
  lemma StableUnique<T>(s: seq<T>, a: seq<T>, b: seq<T>, key: T -> int)
    requires StablySorted(s, a, key) && StablySorted(s, b, key)
    ensures a == b
  {
    StableUniqueFrom(a, b, key);
  }

  /** `SortBy` is the stable sort, and the only one. */
  lemma SortByIsStableSort<T>(s: seq<T>, r: seq<T>, key: T -> int)
    ensures StablySorted(s, r, key) <==> r == SortBy(s, key)
  {
    forall k ensures WithKey(SortBy(s, key), key, k) == WithKey(s, key, k) {
      SortByStable(s, key, k);
    }
    if StablySorted(s, r, key) {
      StableUnique(s, r, SortBy(s, key), key);
    }
  }

  function IntKey(x: int): int
  {
    x
  }

  predicate Ascending(s: seq<int>)
  {
    forall i, j :: 0 <= i < j < |s| ==> s[i] <= s[j]
  }

  lemma AscendingIsSortedBy(s: seq<int>)
    ensures SortedBy(s, IntKey) <==> Ascending(s)
  {
    if SortedBy(s, IntKey) {
      forall i, j | 0 <= i < j < |s| ensures s[i] <= s[j] {
        assert IntKey(s[i]) <= IntKey(s[j]);
      }
    }
    if Ascending(s) {
      forall i, j | 0 <= i < j < |s| ensures IntKey(s[i]) <= IntKey(s[j]) {
        assert s[i] <= s[j];
      }
    }
  }

  lemma HeadIsMin(a: seq<int>, x: int)
    requires Ascending(a) && x in a
    ensures a[0] <= x
  {
  }

  /** Two ascending integer sequences with the same elements are equal. */
  lemma {:induction false} AscendingUnique(a: seq<int>, b: seq<int>)
    requires Ascending(a) && Ascending(b)
    requires multiset(a) == multiset(b)
    ensures a == b
    decreases |a|
  {
    assert |multiset(a)| == |a| && |multiset(b)| == |b|;
    if a != [] {
      assert a[0] in multiset(b) && b[0] in multiset(a);
      HeadIsMin(b, a[0]);
      HeadIsMin(a, b[0]);
      assert a[0] == b[0];
      assert a == [a[0]] + a[1..];
      assert b == [b[0]] + b[1..];
      assert multiset(a[1..]) == multiset(b[1..]) by {
        assert multiset(a[1..]) == multiset(a) - multiset{a[0]};
        assert multiset(b[1..]) == multiset(b) - multiset{b[0]};
      }
      AscendingUnique(a[1..], b[1..]);
    }
  }

  /** `sorted(s)` for a list of integers. */
  function SortInts(s: seq<int>): (r: seq<int>)
    ensures multiset(r) == multiset(s) && |r| == |s|
    ensures Ascending(r)
  {
    var r := SortBy(s, IntKey);
    AscendingIsSortedBy(r);
    r
  }

  /** Sorting a sequence that is already ascending leaves it unchanged. */
  lemma SortSorted(a: seq<int>)
    requires Ascending(a)
    ensures SortBy(a, IntKey) == a
  {
    AscendingIsSortedBy(SortBy(a, IntKey));
    AscendingUnique(SortBy(a, IntKey), a);
  }
}
