/** `DataFrame.groupby(key).sum()` over rows made of a key and a vector of integer
    counts: one output row per distinct key, the keys in ascending order, each
    row the column-wise sum of the input rows with that key. The key type and
    its order are parameters, so the same definition serves a country key, a
    (country, date) key and a date key. */
module Grouping {
  import opened Text

  datatype Keyed<K> = Keyed(key: K, vals: seq<int>)

  /** `lt` is a strict total order on K. */
  ghost predicate StrictTotalOrder<K(!new)>(lt: (K, K) -> bool) {
    && (forall a :: !lt(a, a))
    && (forall a, b, c :: lt(a, b) && lt(b, c) ==> lt(a, c))
    && (forall a, b :: a == b || lt(a, b) || lt(b, a))
  }

  /** Every row has `w` counts: the rows form a table. */
  predicate Uniform<K>(rows: seq<Keyed<K>>, w: nat) {
    forall i :: 0 <= i < |rows| ==> |rows[i].vals| == w
  }

  /** Keys strictly ascending, hence pairwise distinct. */
  predicate SortedKeys<K>(gs: seq<Keyed<K>>, lt: (K, K) -> bool) {
    forall i, j :: 0 <= i < j < |gs| ==> lt(gs[i].key, gs[j].key)
  }

  function Keys<K>(rows: seq<Keyed<K>>): set<K> {
    if rows == [] then {} else {rows[0].key} + Keys(rows[1..])
  }

  /** A key is in `Keys(rows)` exactly when some row carries it. */
  lemma {:induction false} KeysIndex<K>(rows: seq<Keyed<K>>, k: K)
    ensures k in Keys(rows) <==> exists i :: 0 <= i < |rows| && rows[i].key == k
  {
    if rows != [] {
      KeysIndex(rows[1..], k);
      if k in Keys(rows[1..]) {
        var i :| 0 <= i < |rows[1..]| && rows[1..][i].key == k;
        assert rows[i + 1].key == k;
      }
      if exists i :: 0 <= i < |rows| && rows[i].key == k {
        var i :| 0 <= i < |rows| && rows[i].key == k;
        if i > 0 { assert rows[1..][i - 1].key == k; }
      }
    }
  }

  function Zeros(w: nat): (z: seq<int>)
    ensures |z| == w && forall i :: 0 <= i < w ==> z[i] == 0
  {
    seq(w, i => 0)
  }

  function AddVals(a: seq<int>, b: seq<int>): (r: seq<int>)
    requires |a| == |b|
    ensures |r| == |a| && forall i :: 0 <= i < |a| ==> r[i] == a[i] + b[i]
  {
    seq(|a|, i requires 0 <= i < |a| => a[i] + b[i])
  }

  /** The column-wise sum of the rows whose key is `k`. */
  function KeySum<K(==)>(rows: seq<Keyed<K>>, k: K, w: nat): (r: seq<int>)
    requires Uniform(rows, w)
    ensures |r| == w
  {
    if rows == [] then Zeros(w)
    else if rows[0].key == k then AddVals(rows[0].vals, KeySum(rows[1..], k, w))
    else KeySum(rows[1..], k, w)
  }

  /** The sum of column `j` over all rows. */
  function Total<K>(rows: seq<Keyed<K>>, j: nat, w: nat): int
    requires Uniform(rows, w) && j < w
  {
    if rows == [] then 0 else rows[0].vals[j] + Total(rows[1..], j, w)
  }

  /** The counts stored for key `k`, zero when there is no such key. */
  function Lookup<K(==)>(gs: seq<Keyed<K>>, k: K, w: nat): (r: seq<int>)
    requires Uniform(gs, w)
    ensures |r| == w
  {
    if gs == [] then Zeros(w) else if gs[0].key == k then gs[0].vals else Lookup(gs[1..], k, w)
  }

  /** Adds one row to a table of groups kept in key order. */
  function Insert<K(==)>(gs: seq<Keyed<K>>, r: Keyed<K>, lt: (K, K) -> bool): (out: seq<Keyed<K>>)
    requires Uniform(gs, |r.vals|)
    ensures Uniform(out, |r.vals|)
  {
    if gs == [] then [r]
    else if gs[0].key == r.key then [Keyed(r.key, AddVals(gs[0].vals, r.vals))] + gs[1..]
    else if lt(r.key, gs[0].key) then [r] + gs
    else [gs[0]] + Insert(gs[1..], r, lt)
  }

  /** `groupby(key).sum()`. */
  function GroupSum<K(==)>(rows: seq<Keyed<K>>, lt: (K, K) -> bool, w: nat): (gs: seq<Keyed<K>>)
    requires Uniform(rows, w)
    ensures Uniform(gs, w)
  {
    if rows == [] then [] else Insert(GroupSum(rows[1..], lt, w), rows[0], lt)
  }

  // ---------------------------------------------------------------- Insert

  lemma {:induction false} InsertKeys<K>(gs: seq<Keyed<K>>, r: Keyed<K>, lt: (K, K) -> bool)
    requires Uniform(gs, |r.vals|)
    ensures Keys(Insert(gs, r, lt)) == Keys(gs) + {r.key}
  {
    var out := Insert(gs, r, lt);
    if gs == [] {
    } else if gs[0].key == r.key {
      assert out[1..] == gs[1..];
    } else if lt(r.key, gs[0].key) {
      assert out[1..] == gs;
    } else {
      assert out[1..] == Insert(gs[1..], r, lt);
      InsertKeys(gs[1..], r, lt);
    }
  }

  lemma {:induction false} InsertSorted<K(!new)>(gs: seq<Keyed<K>>, r: Keyed<K>, lt: (K, K) -> bool)
    requires StrictTotalOrder(lt)
    requires Uniform(gs, |r.vals|) && SortedKeys(gs, lt)
    ensures SortedKeys(Insert(gs, r, lt), lt)
  {
    var out := Insert(gs, r, lt);
    if gs == [] {
    } else if gs[0].key == r.key {
      assert forall i :: 0 <= i < |gs| ==> out[i].key == gs[i].key;
    } else if lt(r.key, gs[0].key) {
      assert forall i :: 0 <= i < |gs| ==> out[i + 1] == gs[i];
    } else {
      var rest := Insert(gs[1..], r, lt);
      InsertSorted(gs[1..], r, lt);
      InsertKeys(gs[1..], r, lt);
      assert lt(gs[0].key, r.key);
      forall i | 0 <= i < |rest| ensures lt(gs[0].key, rest[i].key) {
        KeysIndex(rest, rest[i].key);
        if rest[i].key != r.key {
          KeysIndex(gs[1..], rest[i].key);
          var m :| 0 <= m < |gs[1..]| && gs[1..][m].key == rest[i].key;
          assert gs[1..][m] == gs[m + 1];
        }
      }
      assert out == [gs[0]] + rest;
      forall i, j | 0 <= i < j < |out| ensures lt(out[i].key, out[j].key) {
        if i > 0 {
          assert out[i] == rest[i - 1] && out[j] == rest[j - 1];
        } else {
          assert out[j] == rest[j - 1];
        }
      }
    }
  }

  lemma {:induction false} InsertLookup<K(!new)>(gs: seq<Keyed<K>>, r: Keyed<K>, lt: (K, K) -> bool, k: K)
    requires StrictTotalOrder(lt)
    requires Uniform(gs, |r.vals|) && SortedKeys(gs, lt)
    ensures Lookup(Insert(gs, r, lt), k, |r.vals|) ==
            if k == r.key then AddVals(Lookup(gs, k, |r.vals|), r.vals) else Lookup(gs, k, |r.vals|)
  {
    var w := |r.vals|;
    var out := Insert(gs, r, lt);
    if gs == [] {
      if k == r.key {
        assert AddVals(Zeros(w), r.vals) == r.vals;
      }
    } else if gs[0].key == r.key {
      assert out[1..] == gs[1..];
    } else if lt(r.key, gs[0].key) {
      assert out[1..] == gs;
      if k == r.key {
        LookupAbsent(gs, k, lt);
        assert AddVals(Zeros(w), r.vals) == r.vals;
      }
    } else {
      assert out[1..] == Insert(gs[1..], r, lt);
      InsertLookup(gs[1..], r, lt, k);
      if k == gs[0].key {
        assert lt(gs[0].key, r.key);
      }
    }
  }

  /** A key smaller than every stored key has nothing stored. */
  lemma LookupAbsent<K(!new)>(gs: seq<Keyed<K>>, k: K, lt: (K, K) -> bool)
    requires StrictTotalOrder(lt)
    requires gs != [] && Uniform(gs, |gs[0].vals|) && SortedKeys(gs, lt) && lt(k, gs[0].key)
    ensures Lookup(gs, k, |gs[0].vals|) == Zeros(|gs[0].vals|)
    decreases |gs|
  {
    if |gs| > 1 {
      assert lt(gs[0].key, gs[1..][0].key);
      LookupAbsent(gs[1..], k, lt);
    }
  }

  lemma {:induction false} InsertTotal<K>(gs: seq<Keyed<K>>, r: Keyed<K>, lt: (K, K) -> bool, j: nat)
    requires Uniform(gs, |r.vals|) && j < |r.vals|
    ensures Total(Insert(gs, r, lt), j, |r.vals|) == Total(gs, j, |r.vals|) + r.vals[j]
  {
    var w := |r.vals|;
    var out := Insert(gs, r, lt);
    if gs == [] {
      assert out[1..] == [];
    } else if gs[0].key == r.key {
      assert out[1..] == gs[1..];
    } else if lt(r.key, gs[0].key) {
      assert out[1..] == gs;
    } else {
      assert out[1..] == Insert(gs[1..], r, lt);
      InsertTotal(gs[1..], r, lt, j);
    }
  }

  // ---------------------------------------------------------------- GroupSum

  /** What `groupby(key).sum()` promises: the keys are exactly the input keys,
      ascending and distinct, and every key carries the sum of its rows. */
  lemma {:induction false} GroupSumMeaning<K(!new)>(rows: seq<Keyed<K>>, lt: (K, K) -> bool, w: nat)
    requires StrictTotalOrder(lt) && Uniform(rows, w)
    ensures SortedKeys(GroupSum(rows, lt, w), lt)
    ensures Keys(GroupSum(rows, lt, w)) == Keys(rows)
    ensures forall k :: Lookup(GroupSum(rows, lt, w), k, w) == KeySum(rows, k, w)
  {
    if rows == [] {
      forall k ensures Lookup([], k, w) == KeySum(rows, k, w) {}
    } else {
      var rest := GroupSum(rows[1..], lt, w);
      GroupSumMeaning(rows[1..], lt, w);
      InsertSorted(rest, rows[0], lt);
      InsertKeys(rest, rows[0], lt);
      forall k ensures Lookup(GroupSum(rows, lt, w), k, w) == KeySum(rows, k, w) {
        InsertLookup(rest, rows[0], lt, k);
        if k == rows[0].key {
          var a := AddVals(KeySum(rows[1..], k, w), rows[0].vals);
          var b := AddVals(rows[0].vals, KeySum(rows[1..], k, w));
          assert a == b;
        }
      }
    }
  }

  /** Grouping neither creates nor loses counts: every column total of the
      grouped table equals that of the input (the per-date grand totals). */
  lemma {:induction false} GroupSumTotals<K>(rows: seq<Keyed<K>>, lt: (K, K) -> bool, w: nat, j: nat)
    requires Uniform(rows, w) && j < w
    ensures Total(GroupSum(rows, lt, w), j, w) == Total(rows, j, w)
  {
    if rows != [] {
      GroupSumTotals(rows[1..], lt, w, j);
      InsertTotal(GroupSum(rows[1..], lt, w), rows[0], lt, j);
    }
  }

  /** In a table with distinct keys, the row found for a key is the row that has it. */
  lemma {:induction false} LookupAt<K(!new)>(gs: seq<Keyed<K>>, lt: (K, K) -> bool, w: nat, i: nat)
    requires StrictTotalOrder(lt) && Uniform(gs, w) && SortedKeys(gs, lt) && i < |gs|
    ensures Lookup(gs, gs[i].key, w) == gs[i].vals
  {
    if i > 0 {
      assert lt(gs[0].key, gs[i].key);
      assert gs[1..][i - 1] == gs[i];
      LookupAt(gs[1..], lt, w, i - 1);
    }
  }

  // ---------------------------------------------------------------- orders used by the scripts

  /** Python's ordering of strings. */
  lemma StrLessIsOrder()
    ensures StrictTotalOrder(StrLess)
  {
    forall a: string ensures !StrLess(a, a) { StrLessIrreflexive(a); }
    forall a: string, b: string, c: string | StrLess(a, b) && StrLess(b, c) ensures StrLess(a, c) {
      StrLessTransitive(a, b, c);
    }
    forall a: string, b: string ensures a == b || StrLess(a, b) || StrLess(b, a) { StrLessTotal(a, b); }
  }

  /** Rows ordered by country, then by date. */
  predicate CountryDateLess(a: (string, int), b: (string, int)) {
    StrLess(a.0, b.0) || (a.0 == b.0 && a.1 < b.1)
  }

  lemma CountryDateIsOrder()
    ensures StrictTotalOrder(CountryDateLess)
  {
    forall a: (string, int) ensures !CountryDateLess(a, a) { StrLessIrreflexive(a.0); }
    forall a: (string, int), b: (string, int), c: (string, int) | CountryDateLess(a, b) && CountryDateLess(b, c)
      ensures CountryDateLess(a, c)
    {
      if StrLess(a.0, b.0) && StrLess(b.0, c.0) { StrLessTransitive(a.0, b.0, c.0); }
    }
    forall a: (string, int), b: (string, int) ensures a == b || CountryDateLess(a, b) || CountryDateLess(b, a) {
      StrLessTotal(a.0, b.0);
    }
  }

  /** Python's order on numbers. */
  predicate IntLess(a: int, b: int) {
    a < b
  }

  lemma IntLessIsOrder()
    ensures StrictTotalOrder(IntLess)
  {
  }
}
