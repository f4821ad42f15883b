/** A stable sort by an integer key: the ordering `List.sort` produces with a
    `Comparator.comparingLong` comparator. Java's list sort is stable, and a
    stable sort has exactly one possible result (`StableSortUnique`), so the
    insertion sort below stands for it. */
module StableSort {

  predicate SortedBy<T>(s: seq<T>, key: T -> int) {
    forall i, j :: 0 <= i < j < |s| ==> key(s[i]) <= key(s[j])
  }

  /** The elements of `s` whose key is `k`, in their order in `s`. A sort is
      stable exactly when it keeps every one of these subsequences. */
  function WithKey<T>(s: seq<T>, key: T -> int, k: int): seq<T>
    decreases |s|
  {
    if |s| == 0 then [] else (if key(s[0]) == k then [s[0]] else []) + WithKey(s[1..], key, k)
  }

  /** Places `x` before the first element whose key is not smaller. */
  function Insert<T>(x: T, s: seq<T>, key: T -> int): (r: seq<T>)
    requires SortedBy(s, key)
    ensures SortedBy(r, key)
    ensures multiset(r) == multiset(s) + multiset{x}
    ensures |r| == |s| + 1 && (r[0] == x || (|s| > 0 && r[0] == s[0]))
    decreases |s|
  {
    if |s| == 0 || key(x) <= key(s[0]) then
      SortedCons(x, s, key);
      [x] + s
    else
      var tail := Insert(x, s[1..], key);
      assert key(s[0]) <= key(tail[0]) by {
        if |s| > 1 { assert key(s[0]) <= key(s[1]); }
      }
      SortedCons(s[0], tail, key);
      assert s == [s[0]] + s[1..];
      [s[0]] + tail
  }

  /** A sorted sequence stays sorted when an element no larger than its head
      is put in front. */
  lemma SortedCons<T>(x: T, s: seq<T>, key: T -> int)
    requires SortedBy(s, key)
    requires |s| > 0 ==> key(x) <= key(s[0])
    ensures SortedBy([x] + s, key)
  {
    var r := [x] + s;
    forall i, j | 0 <= i < j < |r|
      ensures key(r[i]) <= key(r[j])
    {
      if i == 0 {
        assert r[j] == s[j - 1];
        if j > 1 { assert key(s[0]) <= key(s[j - 1]); }
      } else {
        assert r[i] == s[i - 1] && r[j] == s[j - 1];
      }
    }
  }

  /** Insertion sort: sorted by key, and a permutation of its input. */
  function SortBy<T>(s: seq<T>, key: T -> int): (r: seq<T>)
    ensures SortedBy(r, key)
    ensures multiset(r) == multiset(s)
    ensures |r| == |s|
    decreases |s|
  {
    if |s| == 0 then []
    else
      assert s == [s[0]] + s[1..];
      Insert(s[0], SortBy(s[1..], key), key)
  }

  lemma SortByCons<T>(s: seq<T>, key: T -> int)
    requires |s| > 0
    ensures SortBy(s, key) == Insert(s[0], SortBy(s[1..], key), key)
  {
  }

  lemma InsertBefore<T>(x: T, s: seq<T>, key: T -> int)
    requires SortedBy(s, key) && (|s| == 0 || key(x) <= key(s[0]))
    ensures Insert(x, s, key) == [x] + s
  {
  }

  lemma InsertAfter<T>(x: T, s: seq<T>, key: T -> int)
    requires SortedBy(s, key) && |s| > 0 && key(s[0]) < key(x)
    ensures Insert(x, s, key) == [s[0]] + Insert(x, s[1..], key)
  {
  }

  lemma {:induction false} InsertWithKey<T>(x: T, s: seq<T>, key: T -> int, k: int)
    requires SortedBy(s, key)
    ensures WithKey(Insert(x, s, key), key, k) == (if key(x) == k then [x] else []) + WithKey(s, key, k)
    decreases |s|
  {
    var r := Insert(x, s, key);
    WithKeyCons(r, key, k);
    if |s| == 0 || key(x) <= key(s[0]) {
      assert r[1..] == s;
    } else {
      var tail := Insert(x, s[1..], key);
      assert r[0] == s[0] && r[1..] == tail;
      InsertWithKey(x, s[1..], key, k);
      WithKeyCons(s, key, k);
      // s[0] has a smaller key than x, so at most one of them has key k
      var mine := if key(x) == k then [x] else [];
      var head := if key(s[0]) == k then [s[0]] else [];
      assert head == [] || mine == [];
      assert head + (mine + WithKey(s[1..], key, k)) == mine + (head + WithKey(s[1..], key, k));
    }
  }

  /** The sort is stable: every run of equal keys keeps its relative order. */
  lemma {:induction false} SortByStable<T>(s: seq<T>, key: T -> int, k: int)
    ensures WithKey(SortBy(s, key), key, k) == WithKey(s, key, k)
    decreases |s|
  {
    if |s| > 0 {
      SortByStable(s[1..], key, k);
      InsertWithKey(s[0], SortBy(s[1..], key), key, k);
    }
  }

  lemma {:induction false} WithKeyMember<T>(s: seq<T>, key: T -> int, k: int, x: T)
    requires x in WithKey(s, key, k)
    ensures x in s && key(x) == k
    decreases |s|
  {
    if key(s[0]) == k && x == s[0] {
    } else {
      WithKeyMember(s[1..], key, k, x);
    }
  }

  lemma FirstInItsRun<T>(s: seq<T>, key: T -> int)
    ensures |s| > 0 ==> s[0] in WithKey(s, key, key(s[0]))
  {
  }

  lemma FirstHasSmallestKey<T>(s: seq<T>, key: T -> int, x: T)
    requires SortedBy(s, key) && x in s
    ensures key(s[0]) <= key(x)
  {
    var i :| 0 <= i < |s| && s[i] == x;
    if i > 0 {
      assert key(s[0]) <= key(s[i]);
    }
  }

  /** Non-empty sorted sequences that agree on every run of equal keys
      start with the same key. */
  lemma SameFirstKey<T>(a: seq<T>, b: seq<T>, key: T -> int)
    requires |a| > 0 && |b| > 0 && SortedBy(a, key) && SortedBy(b, key)
    requires forall k :: WithKey(a, key, k) == WithKey(b, key, k)
    ensures key(a[0]) == key(b[0])
  {
    var ka, kb := key(a[0]), key(b[0]);
    FirstInItsRun(a, key);
    FirstInItsRun(b, key);
    assert WithKey(a, key, kb) == WithKey(b, key, kb);
    WithKeyMember(a, key, kb, b[0]);
    FirstHasSmallestKey(a, key, b[0]);
    assert WithKey(a, key, ka) == WithKey(b, key, ka);
    WithKeyMember(b, key, ka, a[0]);
    FirstHasSmallestKey(b, key, a[0]);
  }

  lemma WithKeyCons<T>(s: seq<T>, key: T -> int, k: int)
    requires |s| > 0
    ensures WithKey(s, key, k) == (if key(s[0]) == k then [s[0]] else []) + WithKey(s[1..], key, k)
  {
  }

  /** Removing equal first elements keeps the runs of equal keys in agreement. */
  lemma TailsAgree<T>(a: seq<T>, b: seq<T>, key: T -> int, k: int)
    requires |a| > 0 && |b| > 0 && a[0] == b[0]
    requires WithKey(a, key, k) == WithKey(b, key, k)
    ensures WithKey(a[1..], key, k) == WithKey(b[1..], key, k)
  {
    WithKeyCons(a, key, k);
    WithKeyCons(b, key, k);
    var ta, tb := WithKey(a[1..], key, k), WithKey(b[1..], key, k);
    if key(a[0]) == k {
      assert ([a[0]] + ta)[1..] == ta;
      assert ([b[0]] + tb)[1..] == tb;
    } else {
      assert [] + ta == ta;
      assert [] + tb == tb;
    }
  }

  /** Two sequences, both sorted by key, that agree on every run of equal keys
      are equal: a stable sort has only one possible result. */
  lemma {:induction false} StableSortUnique<T>(a: seq<T>, b: seq<T>, key: T -> int)
    requires SortedBy(a, key) && SortedBy(b, key)
    requires forall k :: WithKey(a, key, k) == WithKey(b, key, k)
    ensures a == b
    decreases |a|
  {
    if |a| == 0 && |b| == 0 {
    } else if |a| == 0 || |b| == 0 {
      // the first element of the non-empty one has no partner in the other
      FirstInItsRun(a, key);
      FirstInItsRun(b, key);
      assert false;
    } else {
      SameFirstKey(a, b, key);
      var k0 := key(a[0]);
      assert WithKey(a, key, k0) == WithKey(b, key, k0);
      assert WithKey(a, key, k0)[0] == a[0];
      assert WithKey(b, key, k0)[0] == b[0];
      forall k
        ensures WithKey(a[1..], key, k) == WithKey(b[1..], key, k)
      {
        TailsAgree(a, b, key, k);
      }
      StableSortUnique(a[1..], b[1..], key);
      assert a == [a[0]] + a[1..];
      assert b == [b[0]] + b[1..];
    }
  }

  // The sort run by hand on one, two and three elements. These small cases
  // exist for `SortThree`, which the three-vote replay example
  // (`Forwarding.ReplayOrderExample`) rests on.

  lemma SortOne<T>(c: T, key: T -> int)
    ensures SortBy([c], key) == [c]
  {
    SortByCons([c], key);
    assert [c][1..] == [];
    InsertBefore(c, [], key);
  }

  lemma SortTwoInOrder<T>(b: T, c: T, key: T -> int)
    requires key(b) < key(c)
    ensures SortBy([b, c], key) == [b, c]
  {
    SortOne(c, key);
    SortByCons([b, c], key);
    assert [b, c][1..] == [c];
    InsertBefore(b, [c], key);
  }

  lemma InsertAfterOne<T>(a: T, c: T, key: T -> int)
    requires key(c) < key(a)
    ensures Insert(a, [c], key) == [c, a]
  {
    InsertAfter(a, [c], key);
    assert [c][1..] == [];
    InsertBefore(a, [], key);
  }

  lemma InsertLast<T>(a: T, b: T, c: T, key: T -> int)
    requires key(b) < key(c) < key(a)
    ensures Insert(a, [b, c], key) == [b, c, a]
  {
    var bc := [b, c];
    assert SortedBy(bc, key);
    assert bc[1..] == [c];
    InsertAfterOne(a, c, key);
    InsertAfter(a, bc, key);
    assert Insert(a, bc, key) == [b] + [c, a];
  }

  /** Three elements given out of key order come out in key order. */
  lemma SortThree<T>(a: T, b: T, c: T, key: T -> int)
    requires key(b) < key(c) < key(a)
    ensures SortBy([a, b, c], key) == [b, c, a]
  {
    SortTwoInOrder(b, c, key);
    InsertLast(a, b, c, key);
    SortByCons([a, b, c], key);
    assert [a, b, c][1..] == [b, c];
  }
}
