/** A stable sort by key, standing for Python's `list.sort()` and pandas'
    `sort_values(by=...)`: each element is inserted after every element already
    placed whose key is not greater. */
module Sorting {
  import opened Grouping

  /** No element comes after one with a greater key. */
  predicate SortedBy<T, K>(xs: seq<T>, key: T -> K, lt: (K, K) -> bool) {
    forall i, j :: 0 <= i < j < |xs| ==> !lt(key(xs[j]), key(xs[i]))
  }

  function InsertBy<T, K>(x: T, xs: seq<T>, key: T -> K, lt: (K, K) -> bool): (r: seq<T>)
    ensures multiset(r) == multiset(xs) + multiset{x}
  {
    if xs == [] then [x]
    else if lt(key(x), key(xs[0])) then [x] + xs
    else
      assert xs == [xs[0]] + xs[1..];
      [xs[0]] + InsertBy(x, xs[1..], key, lt)
  }

  function SortBy<T, K>(xs: seq<T>, key: T -> K, lt: (K, K) -> bool): (r: seq<T>)
    ensures multiset(r) == multiset(xs)
  {
    if xs == [] then []
    else
      assert xs == xs[..|xs| - 1] + [xs[|xs| - 1]];
      InsertBy(xs[|xs| - 1], SortBy(xs[..|xs| - 1], key, lt), key, lt)
  }

  lemma {:induction false} InsertBySorted<T, K(!new)>(x: T, xs: seq<T>, key: T -> K, lt: (K, K) -> bool)
    requires StrictTotalOrder(lt) && SortedBy(xs, key, lt)
    ensures SortedBy(InsertBy(x, xs, key, lt), key, lt)
  {
    var r := InsertBy(x, xs, key, lt);
    if xs == [] {
    } else if lt(key(x), key(xs[0])) {
      forall i, j | 0 <= i < j < |r| ensures !lt(key(r[j]), key(r[i])) {
        if i == 0 {
          assert r[j] == xs[j - 1];
          if j > 1 { assert !lt(key(xs[j - 1]), key(xs[0])); }
        } else {
          assert r[i] == xs[i - 1] && r[j] == xs[j - 1];
        }
      }
    } else {
      var rest := InsertBy(x, xs[1..], key, lt);
      InsertBySorted(x, xs[1..], key, lt);
      assert r == [xs[0]] + rest;
      forall j | 0 <= j < |rest| ensures !lt(key(rest[j]), key(xs[0])) {
        assert rest[j] in multiset(rest);
        if rest[j] != x {
          assert rest[j] in multiset(xs[1..]);
          var m :| 0 <= m < |xs[1..]| && xs[1..][m] == rest[j];
          assert xs[m + 1] == rest[j];
        }
      }
      forall i, j | 0 <= i < j < |r| ensures !lt(key(r[j]), key(r[i])) {
        assert r[j] == rest[j - 1];
        if i > 0 { assert r[i] == rest[i - 1]; }
      }
    }
  }

  /** The result of `SortBy` is sorted by key, and (by its contract) holds the
      same elements as its input, with their multiplicities. */
  lemma {:induction false} SortBySorted<T, K(!new)>(xs: seq<T>, key: T -> K, lt: (K, K) -> bool)
    requires StrictTotalOrder(lt)
    ensures SortedBy(SortBy(xs, key, lt), key, lt)
  {
    if xs != [] {
      SortBySorted(xs[..|xs| - 1], key, lt);
      InsertBySorted(xs[|xs| - 1], SortBy(xs[..|xs| - 1], key, lt), key, lt);
    }
  }

  /** An element no smaller than every element of a list goes to its end. */
  lemma {:induction false} InsertByLast<T, K>(x: T, xs: seq<T>, key: T -> K, lt: (K, K) -> bool)
    requires forall i :: 0 <= i < |xs| ==> !lt(key(x), key(xs[i]))
    ensures InsertBy(x, xs, key, lt) == xs + [x]
  {
    if xs != [] {
      InsertByLast(x, xs[1..], key, lt);
      assert xs == [xs[0]] + xs[1..];
    }
  }

  /** Sorting a list that is already sorted leaves it as it is. */
  lemma {:induction false} SortByIdentity<T, K>(xs: seq<T>, key: T -> K, lt: (K, K) -> bool)
    requires SortedBy(xs, key, lt)
    ensures SortBy(xs, key, lt) == xs
  {
    if xs != [] {
      var init := xs[..|xs| - 1];
      assert SortedBy(init, key, lt) by {
        forall i, j | 0 <= i < j < |init| ensures !lt(key(init[j]), key(init[i])) {
          assert init[i] == xs[i] && init[j] == xs[j];
        }
      }
      SortByIdentity(init, key, lt);
      forall i | 0 <= i < |init| ensures !lt(key(xs[|xs| - 1]), key(init[i])) {
        assert init[i] == xs[i];
      }
      InsertByLast(xs[|xs| - 1], init, key, lt);
      assert init + [xs[|xs| - 1]] == xs;
    }
  }
}
