/**
 * The list idioms the tracker is built from: filtering comprehensions and Python's
 * stable `list.sort(key=...)`.
 */
module Seqs {

  predicate NoDuplicates<T(==)>(s: seq<T>) {
    forall i, j :: 0 <= i < j < |s| ==> s[i] != s[j]
  }

  // ---------------------------------------------------------------------------
  // Filtering: `[x for x in s if keep(x)]`
  // ---------------------------------------------------------------------------

  /** The elements of `s` that satisfy `keep`, each as often as in `s`, in their order in `s`. */
  function Filter<T(!new)>(s: seq<T>, keep: T -> bool): (r: seq<T>)
    ensures |r| <= |s|
    ensures forall i :: 0 <= i < |r| ==> keep(r[i])
  {
    if s == [] then []
    else (if keep(s[0]) then [s[0]] else []) + Filter(s[1..], keep)
  }

  /** A filter keeps every passing element as often as it occurs, and nothing else. */
  lemma {:induction false} FilterCounts<T(!new)>(s: seq<T>, keep: T -> bool)
    ensures forall x :: multiset(Filter(s, keep))[x] == if keep(x) then multiset(s)[x] else 0
    ensures forall x :: x in Filter(s, keep) <==> x in s && keep(x)
  {
    if s != [] {
      assert s == [s[0]] + s[1..];
      FilterCounts(s[1..], keep);
    }
  }

  /** Filtering keeps the order: it distributes over concatenation. */
  lemma {:induction false} FilterConcat<T(!new)>(a: seq<T>, b: seq<T>, keep: T -> bool)
    ensures Filter(a + b, keep) == Filter(a, keep) + Filter(b, keep)
  {
    if a == [] {
      assert a + b == b;
    } else {
      var head := if keep(a[0]) then [a[0]] else [];
      assert (a + b)[0] == a[0];
      assert (a + b)[1..] == a[1..] + b;
      FilterConcat(a[1..], b, keep);
      calc {
        Filter(a + b, keep);
        head + Filter(a[1..] + b, keep);
        head + (Filter(a[1..], keep) + Filter(b, keep));
        (head + Filter(a[1..], keep)) + Filter(b, keep);
      }
    }
  }

  /** A filter removes nothing exactly when every element passes it. */
  lemma {:induction false} FilterKeepsLength<T(!new)>(s: seq<T>, keep: T -> bool)
    ensures |Filter(s, keep)| == |s| <==> forall i :: 0 <= i < |s| ==> keep(s[i])
  {
    if s != [] {
      FilterKeepsLength(s[1..], keep);
      assert forall i :: 1 <= i < |s| ==> s[i] == s[1..][i - 1];
      assert (forall i :: 0 <= i < |s| ==> keep(s[i])) <==>
             keep(s[0]) && forall i :: 0 <= i < |s[1..]| ==> keep(s[1..][i]);
    }
  }

  /** Two filters in a row are one filter by both conditions. */
  lemma {:induction false} FilterTwice<T(!new)>(s: seq<T>, first: T -> bool, second: T -> bool)
    ensures Filter(Filter(s, first), second) == Filter(s, x => first(x) && second(x))
  {
    if s != [] {
      FilterTwice(s[1..], first, second);
      var head := if first(s[0]) then [s[0]] else [];
      FilterConcat(head, Filter(s[1..], first), second);
    }
  }

  // ---------------------------------------------------------------------------
  // Stable sorting: `s.sort(key=key)`
  // ---------------------------------------------------------------------------

  /** A filter that every element passes keeps the whole sequence. */
  lemma {:induction false} FilterAll<T(!new)>(s: seq<T>, keep: T -> bool)
    requires forall i :: 0 <= i < |s| ==> keep(s[i])
    ensures Filter(s, keep) == s
  {
    if s != [] {
      FilterAll(s[1..], keep);
    }
  }

  predicate SortedBy<T(!new)>(s: seq<T>, key: T -> int) {
    forall i, j :: 0 <= i < j < |s| ==> key(s[i]) <= key(s[j])
  }

  /** The elements of `s` whose key is `k`, in their order in `s`. */
  function WithKey<T(!new)>(s: seq<T>, key: T -> int, k: int): seq<T> {
    Filter(s, x => key(x) == k)
  }

  lemma WithKeyCons<T(!new)>(x: T, s: seq<T>, key: T -> int, k: int)
    ensures WithKey([x] + s, key, k) == (if key(x) == k then [x] else []) + WithKey(s, key, k)
  {
    assert ([x] + s)[0] == x;
    assert ([x] + s)[1..] == s;
  }

  /** The keys of an insertion one step down the list, stated for every key at once. */
  lemma InsertBehind<T(!new)>(x: T, head: T, tail: seq<T>, rest: seq<T>, key: T -> int)
    requires key(head) < key(x)
    requires forall k :: WithKey(rest, key, k) == if key(x) == k then [x] + WithKey(tail, key, k) else WithKey(tail, key, k)
    ensures forall k :: WithKey([head] + rest, key, k) ==
                        if key(x) == k then [x] + WithKey([head] + tail, key, k) else WithKey([head] + tail, key, k)
  {
    forall k
      ensures WithKey([head] + rest, key, k) ==
              if key(x) == k then [x] + WithKey([head] + tail, key, k) else WithKey([head] + tail, key, k)
    {
      WithKeyCons(head, rest, key, k);
      WithKeyCons(head, tail, key, k);
    }
  }

  lemma InsertBehindSorted<T(!new)>(x: T, head: T, tail: seq<T>, rest: seq<T>, key: T -> int)
    requires key(head) < key(x)
    requires SortedBy([head] + tail, key) && SortedBy(rest, key)
    requires multiset(rest) == multiset(tail) + multiset{x}
    ensures SortedBy([head] + rest, key)
  {
    forall y | y in rest ensures key(head) <= key(y) {
      assert y in multiset(rest);
      assert (multiset(tail) + multiset{x})[y] > 0;
      if y != x {
        assert multiset(tail)[y] > 0;
        assert y in tail;
        var j :| 0 <= j < |tail| && tail[j] == y;
        assert ([head] + tail)[0] == head && ([head] + tail)[j + 1] == y;
      }
    }
    var r := [head] + rest;
    forall i, j | 0 <= i < j < |r| ensures key(r[i]) <= key(r[j]) {
      if i == 0 {
        assert r[j] == rest[j - 1];
        assert r[j] in rest;
      } else {
        assert r[i] == rest[i - 1] && r[j] == rest[j - 1];
      }
    }
  }

  /** An element no heavier than the head of a sorted sequence can go in front of it. */
  lemma SortedCons<T(!new)>(x: T, s: seq<T>, key: T -> int)
    requires SortedBy(s, key) && (s == [] || key(x) <= key(s[0]))
    ensures SortedBy([x] + s, key)
    ensures forall k :: WithKey([x] + s, key, k) == if key(x) == k then [x] + WithKey(s, key, k) else WithKey(s, key, k)
  {
    var r := [x] + s;
    forall i, j | 0 <= i < j < |r| ensures key(r[i]) <= key(r[j]) {
      assert r[j] == s[j - 1];
      if i > 0 {
        assert r[i] == s[i - 1];
      } else if j > 1 {
        assert key(s[0]) <= key(s[j - 1]);
      }
    }
    forall k ensures WithKey(r, key, k) == if key(x) == k then [x] + WithKey(s, key, k) else WithKey(s, key, k) {
      WithKeyCons(x, s, key, k);
    }
  }

  lemma SortedTail<T(!new)>(s: seq<T>, key: T -> int)
    requires SortedBy(s, key) && s != []
    ensures SortedBy(s[1..], key)
  {
    forall i, j | 0 <= i < j < |s| - 1 ensures key(s[1..][i]) <= key(s[1..][j]) {
      assert s[1..][i] == s[i + 1] && s[1..][j] == s[j + 1];
    }
  }

  /** Puts `x` before the first element whose key is not smaller than its own. */
  function Insert<T(!new)>(x: T, s: seq<T>, key: T -> int): (r: seq<T>)
    requires SortedBy(s, key)
    ensures SortedBy(r, key)
    ensures multiset(r) == multiset(s) + multiset{x}
    ensures forall k :: WithKey(r, key, k) == if key(x) == k then [x] + WithKey(s, key, k) else WithKey(s, key, k)
  {
    if s == [] || key(x) <= key(s[0]) then
      SortedCons(x, s, key);
      [x] + s
    else
      SortedTail(s, key);
      var rest := Insert(x, s[1..], key);
      assert s == [s[0]] + s[1..];
      InsertBehindSorted(x, s[0], s[1..], rest, key);
      InsertBehind(x, s[0], s[1..], rest, key);
      [s[0]] + rest
  }

  /**
   * Python's stable sort by an integer key: the result is ordered by key, is a permutation
   * of `s`, and elements with equal keys keep their order in `s`.  A sort with
   * `reverse=True` is this sort by the negated key (it is stable as well).
   */
  function SortBy<T(!new)>(s: seq<T>, key: T -> int): (r: seq<T>)
    ensures |r| == |s|
    ensures SortedBy(r, key)
    ensures multiset(r) == multiset(s)
    ensures forall k :: WithKey(r, key, k) == WithKey(s, key, k)
  {
    if s == [] then []
    else
      assert s == [s[0]] + s[1..];
      var r := Insert(s[0], SortBy(s[1..], key), key);
      assert |r| == |multiset(r)|;
      r
  }

  /** Sorting a non-empty sequence inserts its head into its sorted tail. */
  lemma SortByCons<T(!new)>(x: T, s: seq<T>, key: T -> int)
    ensures SortBy([x] + s, key) == Insert(x, SortBy(s, key), key)
  {
    assert ([x] + s)[0] == x && ([x] + s)[1..] == s;
  }

  /** An element whose key is not above the first one's goes in front. */
  lemma InsertFront<T(!new)>(x: T, s: seq<T>, key: T -> int)
    requires SortedBy(s, key)
    requires s == [] || key(x) <= key(s[0])
    ensures Insert(x, s, key) == [x] + s
  {
  }

  /** An element whose key lies between the first two goes second. */
  lemma InsertSecond<T(!new)>(x: T, y: T, s: seq<T>, key: T -> int)
    requires SortedBy([y] + s, key)
    requires key(y) < key(x) && (s == [] || key(x) <= key(s[0]))
    ensures Insert(x, [y] + s, key) == [y, x] + s
  {
    assert ([y] + s)[0] == y && ([y] + s)[1..] == s;
    assert SortedBy(s, key) by {
      forall i, j | 0 <= i < j < |s| ensures key(s[i]) <= key(s[j]) {
        assert ([y] + s)[i + 1] == s[i] && ([y] + s)[j + 1] == s[j];
      }
    }
    InsertFront(x, s, key);
  }

  /** Two elements come out in key order; equal keys keep their order. */
  lemma SortTwo<T(!new)>(x: T, y: T, key: T -> int)
    ensures SortBy([x, y], key) == if key(y) < key(x) then [y, x] else [x, y]
  {
    assert [x, y] == [x] + [y] && [y] == [y] + [];
    SortByCons(y, [], key);
    InsertFront(y, [], key);
    SortByCons(x, [y], key);
    if key(y) < key(x) {
      InsertSecond(x, y, [], key);
    } else {
      InsertFront(x, [y], key);
    }
  }

  /** Sorting three elements inserts the first into the sorted other two. */
  lemma SortThree<T(!new)>(x: T, y: T, z: T, key: T -> int)
    ensures SortBy([x, y, z], key) == Insert(x, SortBy([y, z], key), key)
  {
    assert [x, y, z][0] == x && [x, y, z][1..] == [y, z];
  }

  /** An element whose key is above every key goes last. */
  lemma {:induction false} InsertLast<T(!new)>(x: T, s: seq<T>, key: T -> int)
    requires SortedBy(s, key)
    requires forall i :: 0 <= i < |s| ==> key(s[i]) < key(x)
    ensures Insert(x, s, key) == s + [x]
  {
    if s != [] {
      InsertLast(x, s[1..], key);
      assert s == [s[0]] + s[1..];
    }
  }

  /** Three elements whose keys rank the third, the first, then the second. */
  lemma SortThreeRotated<T(!new)>(a: T, b: T, c: T, key: T -> int)
    requires key(c) < key(a) < key(b)
    ensures SortBy([a, b, c], key) == [c, a, b]
  {
    SortThree(a, b, c, key);
    SortTwo(b, c, key);
    InsertBetweenTwo(a, c, b, key);
  }

  lemma InsertBetweenTwo<T(!new)>(a: T, c: T, b: T, key: T -> int)
    requires key(c) < key(a) <= key(b)
    ensures SortedBy([c, b], key)
    ensures Insert(a, [c, b], key) == [c, a, b]
  {
    var cb := [c] + [b];
    assert cb == [c, b];
    InsertSecond(a, c, [b], key);
    assert [c, a] + [b] == [c, a, b];
  }

  /** Three elements whose keys rank the second, the third, then the first. */
  lemma SortThreeFirstLast<T(!new)>(a: T, b: T, c: T, key: T -> int)
    requires key(b) < key(c) < key(a)
    ensures SortBy([a, b, c], key) == [b, c, a]
  {
    SortThree(a, b, c, key);
    SortTwo(b, c, key);
    InsertAfterTwo(a, b, c, key);
  }

  lemma InsertAfterTwo<T(!new)>(a: T, b: T, c: T, key: T -> int)
    requires key(b) <= key(c) < key(a)
    ensures SortedBy([b, c], key)
    ensures Insert(a, [b, c], key) == [b, c, a]
  {
    var bc := [b, c];
    assert bc[0] == b && bc[1] == c;
    InsertLast(a, bc, key);
    assert bc + [a] == [b, c, a];
  }
}
