/**
 A stable sort of a sequence by an integer key: the ordering
 `Array.prototype.sort` produces with the comparator `key(a) - key(b)`.
 ECMAScript requires that sort to be stable (section 23.1.3.30 of ECMA-262,
 2023 edition), so its result is the one arrangement that is ascending in the
 key and keeps the input order inside every group of equal keys. `Sort`
 computes it by insertion; `SortedStableUnique` shows that any other stable
 ascending sort agrees with it.
 */
module StableSort {

  /** Keys never decrease from front to back. */
  predicate Sorted<T>(key: T -> int, s: seq<T>) {
    forall i, j :: 0 <= i < j < |s| ==> key(s[i]) <= key(s[j])
  }

  /**
   The elements of `s` whose key is `k`, in their order in `s`. A sort is
   stable exactly when it keeps every one of these tie groups.
   */
  function WithKey<T(==)>(key: T -> int, s: seq<T>, k: int): (r: seq<T>)
    ensures |r| <= |s|
    ensures forall x :: x in r ==> x in s && key(x) == k
  {
    if |s| == 0 then []
    else (if key(s[0]) == k then [s[0]] else []) + WithKey(key, s[1..], k)
  }

  /**
   Places `x` after every element with a strictly smaller key and before the
   first one whose key is at least its own, so `x` lands at the head of its
   tie group.
   */
  function Insert<T(==)>(key: T -> int, x: T, s: seq<T>): (r: seq<T>)
    ensures |r| == |s| + 1
    ensures multiset(r) == multiset(s) + multiset{x}
  {
    if |s| == 0 then [x]
    else if key(x) <= key(s[0]) then [x] + s
    else
      assert s == [s[0]] + s[1..];
      [s[0]] + Insert(key, x, s[1..])
  }

  /** The head of a sorted sequence has the least key. */
  lemma SortedHeadLeast<T>(key: T -> int, s: seq<T>, y: T)
    requires Sorted(key, s) && y in s
    ensures key(s[0]) <= key(y)
  {
    var j :| 0 <= j < |s| && s[j] == y;
  }

  /** Inserting into a sorted sequence keeps it sorted. */
  lemma {:induction false} InsertSorted<T>(key: T -> int, x: T, s: seq<T>)
    requires Sorted(key, s)
    ensures Sorted(key, Insert(key, x, s))
  {
    if |s| > 0 && key(x) > key(s[0]) {
      var rest := Insert(key, x, s[1..]);
      InsertSorted(key, x, s[1..]);
      forall i | 0 <= i < |rest|
        ensures key(s[0]) <= key(rest[i])
      {
        assert rest[i] in multiset(rest);
        if rest[i] != x {
          assert rest[i] in s;
          SortedHeadLeast(key, s, rest[i]);
        }
      }
      assert Insert(key, x, s) == [s[0]] + rest;
    }
  }

  /** Insertion sort: each element is inserted, front to back, ahead of the later ones it ties with. */
  function Sort<T(==)>(key: T -> int, s: seq<T>): (r: seq<T>)
    ensures |r| == |s|
    ensures multiset(r) == multiset(s)
    ensures Sorted(key, r)
  {
    if |s| == 0 then []
    else
      assert s == [s[0]] + s[1..];
      InsertSorted(key, s[0], Sort(key, s[1..]));
      Insert(key, s[0], Sort(key, s[1..]))
  }

  /** Inserting `x` adds it at the head of its own tie group and changes no other group. */
  lemma {:induction false} WithKeyOfInsert<T>(key: T -> int, x: T, s: seq<T>, k: int)
    ensures WithKey(key, Insert(key, x, s), k)
         == (if key(x) == k then [x] else []) + WithKey(key, s, k)
  {
    if |s| == 0 {
    } else if key(x) <= key(s[0]) {
      assert ([x] + s)[1..] == s;
    } else {
      var rest := Insert(key, x, s[1..]);
      assert ([s[0]] + rest)[1..] == rest;
      WithKeyOfInsert(key, x, s[1..], k);
    }
  }

  /** Stability: elements with equal keys keep their relative input order. */
  lemma {:induction false} SortStable<T>(key: T -> int, s: seq<T>, k: int)
    ensures WithKey(key, Sort(key, s), k) == WithKey(key, s, k)
  {
    if |s| > 0 {
      SortStable(key, s[1..], k);
      WithKeyOfInsert(key, s[0], Sort(key, s[1..]), k);
    }
  }

  /** The first element of a sequence lies in its own tie group. */
  lemma HeadGroupNonEmpty<T>(key: T -> int, s: seq<T>)
    ensures |s| > 0 ==> WithKey(key, s, key(s[0])) != []
  {
  }

  /** A non-empty tie group begins with the first element of that key. */
  lemma {:induction false} WithKeyHead<T>(key: T -> int, s: seq<T>, k: int)
    requires WithKey(key, s, k) != []
    ensures exists i :: 0 <= i < |s| && key(s[i]) == k && WithKey(key, s, k)[0] == s[i]
  {
    if key(s[0]) != k {
      WithKeyHead(key, s[1..], k);
      var i :| 0 <= i < |s[1..]| && key(s[1..][i]) == k && WithKey(key, s[1..], k)[0] == s[1..][i];
      assert s[i + 1] == s[1..][i];
    }
  }

  /** Sequences with the same tie groups are both empty or both non-empty. */
  lemma SameGroupsSameEmptiness<T>(key: T -> int, a: seq<T>, b: seq<T>)
    requires forall k :: WithKey(key, a, k) == WithKey(key, b, k)
    ensures |a| == 0 <==> |b| == 0
  {
    HeadGroupNonEmpty(key, a);
    HeadGroupNonEmpty(key, b);
  }

  /**
   Two sorted, non-empty sequences with the same tie groups start with the same
   element, and their tails again have the same tie groups.
   */
  lemma SameGroupsSameHead<T>(key: T -> int, a: seq<T>, b: seq<T>)
    requires |a| > 0 && |b| > 0
    requires Sorted(key, a) && Sorted(key, b)
    requires forall k :: WithKey(key, a, k) == WithKey(key, b, k)
    ensures a[0] == b[0]
    ensures forall k :: WithKey(key, a[1..], k) == WithKey(key, b[1..], k)
  {
    var ka := key(a[0]);
    var kb := key(b[0]);
    assert WithKey(key, a, ka) == [a[0]] + WithKey(key, a[1..], ka);
    assert WithKey(key, b, kb) == [b[0]] + WithKey(key, b[1..], kb);
    WithKeyHead(key, b, ka);
    WithKeyHead(key, a, kb);
    assert kb <= ka && ka <= kb;
    forall k
      ensures WithKey(key, a[1..], k) == WithKey(key, b[1..], k)
    {
      var ga, gb := WithKey(key, a, k), WithKey(key, b, k);
      assert ga == (if key(a[0]) == k then [a[0]] else []) + WithKey(key, a[1..], k);
      assert gb == (if key(b[0]) == k then [b[0]] else []) + WithKey(key, b[1..], k);
      if key(a[0]) == k {
        assert WithKey(key, a[1..], k) == ga[1..];
        assert WithKey(key, b[1..], k) == gb[1..];
      } else {
        assert WithKey(key, a[1..], k) == ga;
        assert WithKey(key, b[1..], k) == gb;
      }
    }
  }

  /**
   A sorted arrangement is determined by its tie groups: two sequences sorted
   by the key, with the same elements in the same order in every tie group,
   are equal.
   */
  lemma {:induction false} SortedStableUnique<T>(key: T -> int, a: seq<T>, b: seq<T>)
    requires Sorted(key, a) && Sorted(key, b)
    requires forall k :: WithKey(key, a, k) == WithKey(key, b, k)
    ensures a == b
  {
    SameGroupsSameEmptiness(key, a, b);
    if |a| > 0 {
      SameGroupsSameHead(key, a, b);
      SortedStableUnique(key, a[1..], b[1..]);
      assert a == [a[0]] + a[1..];
      assert b == [b[0]] + b[1..];
    }
  }

  /** Any stable ascending arrangement of `s` is `Sort(key, s)`. */
  lemma SortIsTheStableSort<T>(key: T -> int, s: seq<T>, r: seq<T>)
    requires Sorted(key, r)
    requires forall k :: WithKey(key, r, k) == WithKey(key, s, k)
    ensures r == Sort(key, s)
  {
    forall k
      ensures WithKey(key, Sort(key, s), k) == WithKey(key, s, k)
    {
      SortStable(key, s, k);
    }
    SortedStableUnique(key, r, Sort(key, s));
  }

  /** Sorting a sequence that is already in key order gives it back unchanged. */
  lemma SortIdempotent<T>(key: T -> int, s: seq<T>)
    requires Sorted(key, s)
    ensures Sort(key, s) == s
  {
    SortIsTheStableSort(key, s, s);
  }
}
