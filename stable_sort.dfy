/*
 * A stable sort by an integer key, the way `Array.prototype.sort` orders
 * the document viewers when the comparator is `a.key - b.key`: ascending
 * keys, and elements with equal keys left in their original order (the
 * sort is required to be stable by section 23.1.3.30 of ECMA-262, 2023
 * edition). `SortedBy` and `WithKey` are its specification, and
 * `StableSortUnique` shows that the specification leaves no freedom: any
 * stable sort of the same input gives the same sequence as `SortBy`.
 */
module StableSort {

  /** `s` is in non-decreasing key order. */
  ghost predicate SortedBy<T>(s: seq<T>, key: T -> int) {
    forall i, j :: 0 <= i < j < |s| ==> key(s[i]) <= key(s[j])
  }

  /** The elements of `s` whose key is `k`, in their order in `s`. */
  function WithKey<T>(s: seq<T>, key: T -> int, k: int): seq<T> {
    if s == [] then []
    else if key(s[0]) == k then [s[0]] + WithKey(s[1..], key, k)
    else WithKey(s[1..], key, k)
  }

  lemma {:induction false} WithKeyAppend<T>(a: seq<T>, b: seq<T>, key: T -> int, k: int)
    ensures WithKey(a + b, key, k) == WithKey(a, key, k) + WithKey(b, key, k)
  {
    if a == [] {
      assert a + b == b;
    } else {
      assert (a + b)[0] == a[0];
      assert (a + b)[1..] == a[1..] + b;
      WithKeyAppend(a[1..], b, key, k);
    }
  }

  lemma {:induction false} WithKeyAbsent<T>(s: seq<T>, key: T -> int, k: int)
    requires forall i :: 0 <= i < |s| ==> key(s[i]) != k
    ensures WithKey(s, key, k) == []
  {
    if s != [] {
      WithKeyAbsent(s[1..], key, k);
    }
  }

  lemma {:induction false} WithKeyMember<T>(s: seq<T>, key: T -> int, k: int, x: T)
    requires x in WithKey(s, key, k)
    ensures x in s && key(x) == k
  {
    if s != [] && !(key(s[0]) == k && x == s[0]) {
      WithKeyMember(s[1..], key, k, x);
    }
  }

  /** Neighbours with different keys may trade places without changing any key's elements. */
  lemma WithKeySwap<T>(a: T, b: T, rest: seq<T>, key: T -> int, k: int)
    requires key(a) != key(b)
    ensures WithKey([a, b] + rest, key, k) == WithKey([b, a] + rest, key, k)
  {
    var s, t := [a, b] + rest, [b, a] + rest;
    assert s[1..][1..] == rest && t[1..][1..] == rest;
  }

  /** `x` inserted after every element of the sorted `s` whose key is not larger. */
  function Insert<T>(x: T, s: seq<T>, key: T -> int): (r: seq<T>)
    ensures |r| == |s| + 1
    ensures multiset(r) == multiset(s) + multiset{x}
  {
    if s == [] then [x]
    else if key(x) < key(s[0]) then [x] + s
    else
      assert s == [s[0]] + s[1..];
      [s[0]] + Insert(x, s[1..], key)
  }

  lemma {:induction false} InsertSorted<T>(x: T, s: seq<T>, key: T -> int)
    requires SortedBy(s, key)
    ensures SortedBy(Insert(x, s, key), key)
  {
    if s != [] && key(x) >= key(s[0]) {
      var r, t := Insert(x, s, key), Insert(x, s[1..], key);
      InsertSorted(x, s[1..], key);
      assert r == [s[0]] + t;
      forall i, j | 0 <= i < j < |r| ensures key(r[i]) <= key(r[j]) {
        assert r[j] == t[j - 1];
        if i == 0 {
          HeadBelow(x, s, key, t[j - 1]);
        } else {
          assert r[i] == t[i - 1];
        }
      }
    }
  }

  /** The head of a sorted sequence is not above its tail or anything inserted after it. */
  lemma HeadBelow<T>(x: T, s: seq<T>, key: T -> int, y: T)
    requires SortedBy(s, key) && s != [] && key(x) >= key(s[0])
    requires y in multiset(s[1..]) + multiset{x}
    ensures key(s[0]) <= key(y)
  {
    if y != x {
      assert y in s[1..];
      var k :| 0 <= k < |s[1..]| && s[1..][k] == y;
      assert s[k + 1] == y;
    }
  }

  lemma {:induction false} InsertWithKey<T>(x: T, s: seq<T>, key: T -> int, k: int)
    requires SortedBy(s, key)
    ensures WithKey(Insert(x, s, key), key, k)
            == WithKey(s, key, k) + (if key(x) == k then [x] else [])
  {
    if s == [] {
    } else if key(x) < key(s[0]) {
      var r := Insert(x, s, key);
      assert r[0] == x && r[1..] == s;
      if key(x) == k {
        WithKeyAbsent(s, key, k);
      }
    } else {
      var r := Insert(x, s, key);
      InsertWithKey(x, s[1..], key, k);
      assert r[0] == s[0] && r[1..] == Insert(x, s[1..], key);
    }
  }

  /** Stable insertion sort: each element goes after the sorted ones before it. */
  function SortBy<T>(s: seq<T>, key: T -> int): (r: seq<T>)
    ensures |r| == |s|
    ensures SortedBy(r, key)
    ensures multiset(r) == multiset(s)
    ensures forall k :: WithKey(r, key, k) == WithKey(s, key, k)
  {
    if s == [] then []
    else
      var init, last := s[..|s| - 1], s[|s| - 1];
      var sorted := SortBy(init, key);
      assert s == init + [last];
      SortStep(init, last, sorted, key);
      Insert(last, sorted, key)
  }

  /** Inserting the next element into a stable sort of the ones before it sorts one more. */
  lemma SortStep<T>(init: seq<T>, last: T, sorted: seq<T>, key: T -> int)
    requires SortedBy(sorted, key) && multiset(sorted) == multiset(init)
    requires forall k :: WithKey(sorted, key, k) == WithKey(init, key, k)
    ensures var r, s := Insert(last, sorted, key), init + [last];
            SortedBy(r, key) && multiset(r) == multiset(s) && forall k :: WithKey(r, key, k) == WithKey(s, key, k)
  {
    InsertSorted(last, sorted, key);
    forall k ensures WithKey(Insert(last, sorted, key), key, k) == WithKey(init + [last], key, k) {
      InsertWithKey(last, sorted, key, k);
      WithKeyAppend(init, [last], key, k);
    }
  }

  /** A non-empty sequence has its first element among those of its key. */
  lemma WithKeyHead<T>(s: seq<T>, key: T -> int)
    ensures s != [] ==> WithKey(s, key, key(s[0])) != []
  {
  }

  /** Sorted and stable fixes the result: two such orderings of one input agree. */
  lemma {:induction false} StableSortUnique<T>(a: seq<T>, b: seq<T>, key: T -> int)
    requires SortedBy(a, key) && SortedBy(b, key)
    requires forall k :: WithKey(a, key, k) == WithKey(b, key, k)
    ensures a == b
  {
    WithKeyHead(a, key);
    WithKeyHead(b, key);
    if a != [] && b != [] {
      var ka, kb := key(a[0]), key(b[0]);
      assert a[0] in WithKey(b, key, ka);
      WithKeyMember(b, key, ka, a[0]);
      assert b[0] in WithKey(a, key, kb);
      WithKeyMember(a, key, kb, b[0]);
      assert ka == kb;
      assert a[0] == WithKey(a, key, ka)[0] == WithKey(b, key, ka)[0] == b[0];
      forall k ensures WithKey(a[1..], key, k) == WithKey(b[1..], key, k) {
        assert WithKey(a, key, k) == WithKey(b, key, k);
        if k == ka {
          assert WithKey(a, key, k) == [a[0]] + WithKey(a[1..], key, k);
          assert WithKey(b, key, k) == [b[0]] + WithKey(b[1..], key, k);
          assert WithKey(a[1..], key, k) == WithKey(a, key, k)[1..];
          assert WithKey(b[1..], key, k) == WithKey(b, key, k)[1..];
        } else {
          assert WithKey(a, key, k) == WithKey(a[1..], key, k);
          assert WithKey(b, key, k) == WithKey(b[1..], key, k);
        }
      }
      StableSortUnique(a[1..], b[1..], key);
      assert a == [a[0]] + a[1..];
      assert b == [b[0]] + b[1..];
    }
  }
}
