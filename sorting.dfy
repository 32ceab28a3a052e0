/**
 * Sorting by a string key, as Python's `sorted(xs, key=...)` and `list.sort()` do: the
 * result is ordered by key and is a permutation of the input. Insertion places an element
 * after every element whose key is not greater, so equal keys keep their input order.
 */
module Sorting {
  import opened Text

  ghost predicate SortedBy<T>(s: seq<T>, key: T -> string) {
    forall i, j :: 0 <= i < j < |s| ==> AtMost(key(s[i]), key(s[j]))
  }

  /** Inserts `x` before the first element whose key is greater than its own. */
  function Insert<T>(x: T, s: seq<T>, key: T -> string): (r: seq<T>)
    ensures multiset(r) == multiset(s) + multiset{x}
    ensures |r| == |s| + 1
  {
    if s == [] then [x]
    else if Below(key(x), key(s[0])) then
      [x] + s
    else
      assert s == [s[0]] + s[1..];
      [s[0]] + Insert(x, s[1..], key)
  }

  lemma {:induction false} InsertSorted<T>(x: T, s: seq<T>, key: T -> string)
    requires SortedBy(s, key)
    ensures SortedBy(Insert(x, s, key), key)
  {
    if s == [] {
    } else if Below(key(x), key(s[0])) {
      forall j | 0 < j < |s| ensures AtMost(key(x), key(s[j])) {
        AtMostTransitive(key(x), key(s[0]), key(s[j]));
      }
    } else {
      InsertSorted(x, s[1..], key);
      var rest := Insert(x, s[1..], key);
      AtMostTotal(key(x), key(s[0]));
      forall j | 0 <= j < |rest| ensures AtMost(key(s[0]), key(rest[j])) {
        assert rest[j] in multiset(rest);
        assert rest[j] == x || rest[j] in multiset(s[1..]);
        if rest[j] != x {
          var k :| 1 <= k < |s| && s[k] == rest[j] by {
            assert rest[j] in s[1..];
          }
        }
      }
    }
  }

  function SortBy<T>(xs: seq<T>, key: T -> string): (r: seq<T>)
    ensures multiset(r) == multiset(xs)
    ensures |r| == |xs|
  {
    if xs == [] then []
    else
      assert xs == xs[..|xs| - 1] + [xs[|xs| - 1]];
      Insert(xs[|xs| - 1], SortBy(xs[..|xs| - 1], key), key)
  }

  /** The result of a sort is ordered by key. */
  lemma {:induction false} SortBySorted<T>(xs: seq<T>, key: T -> string)
    ensures SortedBy(SortBy(xs, key), key)
  {
    if xs != [] {
      SortBySorted(xs[..|xs| - 1], key);
      InsertSorted(xs[|xs| - 1], SortBy(xs[..|xs| - 1], key), key);
    }
  }

  /** The elements of `s` whose key is `k`, in the order of `s`. */
  function WithKey<T>(s: seq<T>, key: T -> string, k: string): (r: seq<T>)
    ensures |r| <= |s|
    ensures forall x :: x in r ==> x in s && key(x) == k
  {
    if s == [] then [] else (if key(s[0]) == k then [s[0]] else []) + WithKey(s[1..], key, k)
  }

  lemma {:induction false} WithKeyAppend<T>(a: seq<T>, b: seq<T>, key: T -> string, k: string)
    ensures WithKey(a + b, key, k) == WithKey(a, key, k) + WithKey(b, key, k)
  {
    if a == [] {
      assert a + b == b;
    } else {
      assert (a + b)[0] == a[0] && (a + b)[1..] == a[1..] + b;
      WithKeyAppend(a[1..], b, key, k);
    }
  }

  /** In a sorted sequence whose first key is above `k`, no element has key `k`. */
  lemma {:induction false} NoneWithKey<T>(s: seq<T>, key: T -> string, k: string)
    requires SortedBy(s, key)
    requires s != [] ==> Below(k, key(s[0]))
    ensures WithKey(s, key, k) == []
  {
    if s != [] {
      BelowIrreflexive(k);
      if |s| > 1 {
        assert AtMost(key(s[0]), key(s[1]));
        if key(s[0]) != key(s[1]) {
          BelowTransitive(k, key(s[0]), key(s[1]));
        }
      }
      NoneWithKey(s[1..], key, k);
    }
  }

  /** Insertion puts `x` after every element of its key already in place. */
  lemma {:induction false} InsertWithKey<T>(x: T, s: seq<T>, key: T -> string, k: string)
    requires SortedBy(s, key)
    ensures WithKey(Insert(x, s, key), key, k) == WithKey(s, key, k) + (if key(x) == k then [x] else [])
  {
    if s == [] {
    } else if Below(key(x), key(s[0])) {
      assert ([x] + s)[1..] == s;
      if key(x) == k {
        NoneWithKey(s, key, k);
      }
    } else {
      InsertWithKey(x, s[1..], key, k);
      var rest := Insert(x, s[1..], key);
      assert ([s[0]] + rest)[1..] == rest;
    }
  }

  /**
   * The sort is stable, as Python's `sorted` is: the elements of any one key come out in
   * the order they went in.
   */
  lemma {:induction false} SortByStable<T>(xs: seq<T>, key: T -> string, k: string)
    ensures WithKey(SortBy(xs, key), key, k) == WithKey(xs, key, k)
  {
    if xs != [] {
      var init, last := xs[..|xs| - 1], xs[|xs| - 1];
      var sorted := SortBy(init, key);
      assert SortBy(xs, key) == Insert(last, sorted, key);
      SortByStable(init, key, k);
      SortBySorted(init, key);
      InsertWithKey(last, sorted, key, k);
      assert xs == init + [last];
      WithKeyAppend(init, [last], key, k);
      assert WithKey([last], key, k) == if key(last) == k then [last] else [];
    }
  }

  /** Sorting keeps exactly the elements it was given. */
  lemma SortByMembers<T>(xs: seq<T>, key: T -> string)
    ensures forall x :: x in SortBy(xs, key) <==> x in xs
  {
    var r := SortBy(xs, key);
    assert forall x :: x in r <==> x in multiset(r);
    assert forall x :: x in xs <==> x in multiset(xs);
  }

  /** The identity key: plain `list.sort()` on strings. */
  function Self(s: string): string { s }
}
