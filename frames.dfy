/** The tables `tabula.read_pdf(..., pandas_options={'header': None})` returns and
    the pandas operations the PDF scripts apply to them. A table has integer
    column labels, ascending (tabula numbers its columns 0, 1, 2, ...), and rows
    of cells; `None` is a missing value (NaN). Cells are the text tabula
    extracted. */
module Frames {
  import opened Wrappers
  import opened Text
  import opened Patterns

  type Cell = Option<string>

  datatype Frame = Frame(labels: seq<int>, rows: seq<seq<Cell>>)

  predicate Increasing(xs: seq<int>) {
    forall i, j :: 0 <= i < j < |xs| ==> xs[i] < xs[j]
  }

  predicate WellFormed(f: Frame) {
    Increasing(f.labels) && forall i :: 0 <= i < |f.rows| ==> |f.rows[i]| == |f.labels|
  }

  /** The labels `a, a+1, ..., b-1`. */
  function Range(a: int, b: int): (r: seq<int>)
    ensures |r| == if a <= b then b - a else 0
    ensures forall i :: 0 <= i < |r| ==> r[i] == a + i
    decreases b - a
  {
    if a >= b then [] else [a] + Range(a + 1, b)
  }

  /** A table of `k` columns as tabula numbers them. */
  function Table(k: nat, rows: seq<seq<Cell>>): (f: Frame)
    requires forall i :: 0 <= i < |rows| ==> |rows[i]| == k
    ensures WellFormed(f)
  {
    Frame(Range(0, k), rows)
  }

  // ---------------------------------------------------------------- sequences

  /** The elements of `xs` for which `keep` holds, in their order (boolean indexing). */
  function Filter<T(!new)>(xs: seq<T>, keep: T -> bool): (r: seq<T>)
    ensures |r| <= |xs|
    ensures forall x :: x in r <==> x in xs && keep(x)
  {
    if xs == [] then [] else (if keep(xs[0]) then [xs[0]] else []) + Filter(xs[1..], keep)
  }

  /** `Filter` keeps the order of `xs` and every kept element as often as it occurs. */
  lemma {:induction false} FilterKeeps<T(!new)>(xs: seq<T>, keep: T -> bool)
    ensures Subsequence(Filter(xs, keep), xs)
    ensures forall x :: multiset(Filter(xs, keep))[x] == if keep(x) then multiset(xs)[x] else 0
  {
    if xs != [] {
      FilterKeeps(xs[1..], keep);
      FilterStep(xs, keep, Filter(xs[1..], keep));
    }
  }

  lemma FilterStep<T>(xs: seq<T>, keep: T -> bool, rest: seq<T>)
    requires xs != [] && Subsequence(rest, xs[1..])
    requires forall x :: multiset(rest)[x] == if keep(x) then multiset(xs[1..])[x] else 0
    ensures Subsequence((if keep(xs[0]) then [xs[0]] else []) + rest, xs)
    ensures forall x ::
      multiset((if keep(xs[0]) then [xs[0]] else []) + rest)[x] == if keep(x) then multiset(xs)[x] else 0
  {
    assert xs == [xs[0]] + xs[1..];
    var r := (if keep(xs[0]) then [xs[0]] else []) + rest;
    if keep(xs[0]) {
      assert r[0] == xs[0] && r[1..] == rest;
    } else {
      assert r == rest;
      if rest != [] {
        assert Subsequence(r, xs[1..]);
      }
    }
  }

  /** `r` is `xs` with some elements left out, the rest in their order. */
  predicate Subsequence<T(==)>(r: seq<T>, xs: seq<T>)
    decreases |xs|
  {
    if r == [] then true
    else if xs == [] then false
    else (r[0] == xs[0] && Subsequence(r[1..], xs[1..])) || Subsequence(r, xs[1..])
  }

  lemma {:induction false} SubsequenceTrans<T>(a: seq<T>, b: seq<T>, c: seq<T>)
    requires Subsequence(a, b) && Subsequence(b, c)
    ensures Subsequence(a, c)
    decreases |c|
  {
    if a != [] {
      if b[0] == c[0] && Subsequence(b[1..], c[1..]) {
        if a[0] == b[0] && Subsequence(a[1..], b[1..]) {
          SubsequenceTrans(a[1..], b[1..], c[1..]);
        } else {
          SubsequenceTrans(a, b[1..], c[1..]);
        }
      } else {
        SubsequenceTrans(a, b, c[1..]);
      }
    }
  }

  /** Number of positions below `n` outside `ps`. */
  function Kept(n: nat, ps: set<nat>): nat {
    if n == 0 then 0 else Kept(n - 1, ps) + (if n - 1 in ps then 0 else 1)
  }

  /** `xs` without the elements at the positions in `ps`, the rest in order. */
  function Without<T>(xs: seq<T>, ps: set<nat>): (r: seq<T>)
    ensures |r| == Kept(|xs|, ps)
  {
    if xs == [] then [] else Without(xs[..|xs| - 1], ps) + (if |xs| - 1 in ps then [] else [xs[|xs| - 1]])
  }

  /** What survives `Without` is exactly what sat at a kept position. */
  lemma {:induction false} WithoutMembers<T>(xs: seq<T>, ps: set<nat>, x: T)
    ensures x in Without(xs, ps) <==> exists i :: 0 <= i < |xs| && i !in ps && xs[i] == x
  {
    if xs != [] {
      var n := |xs| - 1;
      WithoutMembers(xs[..n], ps, x);
      if exists i :: 0 <= i < |xs| && i !in ps && xs[i] == x {
        var i :| 0 <= i < |xs| && i !in ps && xs[i] == x;
        if i < n { assert xs[..n][i] == x; }
      }
      if exists i :: 0 <= i < n && i !in ps && xs[..n][i] == x {
        var i :| 0 <= i < n && i !in ps && xs[..n][i] == x;
        assert xs[i] == x;
      }
    }
  }

  // ---------------------------------------------------------------- column operations

  /** Position of label `x`. */
  function Position(labels: seq<int>, x: int): (r: Option<nat>)
    ensures r.Some? ==> r.value < |labels| && labels[r.value] == x
    ensures r.None? ==> x !in labels
    ensures r.Some? && Increasing(labels) ==> forall i :: 0 <= i < |labels| && labels[i] == x ==> i == r.value
  {
    if labels == [] then None
    else if labels[0] == x then Some(0)
    else match Position(labels[1..], x)
      case None => None
      case Some(p) => Some(p + 1)
  }

  /** The sorted union of two ascending label lists. */
  function Union(a: seq<int>, b: seq<int>): (r: seq<int>)
    requires Increasing(a) && Increasing(b)
    ensures Increasing(r)
    ensures forall x :: x in r <==> x in a || x in b
    decreases |a| + |b|
  {
    if a == [] then b
    else if b == [] then a
    else if a[0] < b[0] then
      var rest := Union(a[1..], b);
      assert a == [a[0]] + a[1..];
      assert forall x :: x in rest ==> a[0] < x;
      PrependIncreasing(a[0], rest);
      [a[0]] + rest
    else if b[0] < a[0] then
      var rest := Union(a, b[1..]);
      assert b == [b[0]] + b[1..];
      assert forall x :: x in rest ==> b[0] < x;
      PrependIncreasing(b[0], rest);
      [b[0]] + rest
    else
      var rest := Union(a[1..], b[1..]);
      assert a == [a[0]] + a[1..] && b == [b[0]] + b[1..];
      assert forall x :: x in rest ==> a[0] < x;
      PrependIncreasing(a[0], rest);
      [a[0]] + rest
  }

  lemma PrependIncreasing(h: int, rest: seq<int>)
    requires Increasing(rest) && forall x :: x in rest ==> h < x
    ensures Increasing([h] + rest)
  {
    var r := [h] + rest;
    forall i, j | 0 <= i < j < |r| ensures r[i] < r[j] {
      assert r[j] == rest[j - 1] && rest[j - 1] in rest;
      if i > 0 { assert r[i] == rest[i - 1]; }
    }
  }

  /** A row moved onto the columns `target`: a label it lacks is a missing value. */
  function Realign(labels: seq<int>, row: seq<Cell>, target: seq<int>): (r: seq<Cell>)
    requires |row| == |labels|
    ensures |r| == |target|
  {
    seq(|target|, i requires 0 <= i < |target| =>
      match Position(labels, target[i]) case None => None case Some(p) => row[p])
  }

  /** Every cell keeps its value under its own label after realignment, and only
      the labels the row lacks are missing. */
  lemma RealignKeeps(labels: seq<int>, row: seq<Cell>, target: seq<int>, i: nat)
    requires |row| == |labels| && Increasing(labels) && i < |target|
    ensures target[i] in labels ==> Realign(labels, row, target)[i] == row[Position(labels, target[i]).value]
    ensures target[i] !in labels ==> Realign(labels, row, target)[i] == None
  {
  }

  predicate HasLabel(f: Frame, x: int) {
    x in f.labels
  }

  function AllLabels(fs: seq<Frame>): (r: seq<int>)
    requires forall t :: 0 <= t < |fs| ==> WellFormed(fs[t])
    ensures Increasing(r)
    ensures forall x :: x in r <==> exists t :: 0 <= t < |fs| && HasLabel(fs[t], x)
  {
    if fs == [] then []
    else
      var tail := fs[1..];
      assert forall t :: 0 <= t < |tail| ==> tail[t] == fs[t + 1];
      var rest := AllLabels(tail);
      assert WellFormed(fs[0]);
      Union(fs[0].labels, rest)
  }

  function ConcatRows(fs: seq<Frame>, target: seq<int>): (r: seq<seq<Cell>>)
    requires forall t :: 0 <= t < |fs| ==> WellFormed(fs[t])
    ensures forall i :: 0 <= i < |r| ==> |r[i]| == |target|
  {
    if fs == [] then []
    else
      var f := fs[0];
      assert WellFormed(f);
      assert forall t :: 0 <= t < |fs[1..]| ==> fs[1..][t] == fs[t + 1];
      seq(|f.rows|, i requires 0 <= i < |f.rows| => Realign(f.labels, f.rows[i], target))
      + ConcatRows(fs[1..], target)
  }

  function RowCount(fs: seq<Frame>): nat {
    if fs == [] then 0 else |fs[0].rows| + RowCount(fs[1..])
  }

  /** `pd.concat(tables)`: the rows of all tables one after the other, over the
      union of their column labels in ascending order. */
  function Concat(fs: seq<Frame>): (f: Frame)
    requires forall t :: 0 <= t < |fs| ==> WellFormed(fs[t])
    ensures WellFormed(f)
  {
    var target := AllLabels(fs);
    Frame(target, ConcatRows(fs, target))
  }

  /** Concatenation keeps every row of every table, in table order. */
  lemma {:induction false} ConcatRowCount(fs: seq<Frame>, target: seq<int>)
    requires forall t :: 0 <= t < |fs| ==> WellFormed(fs[t])
    ensures |ConcatRows(fs, target)| == RowCount(fs)
  {
    if fs != [] {
      assert forall t :: 0 <= t < |fs[1..]| ==> fs[1..][t] == fs[t + 1];
      ConcatRowCount(fs[1..], target);
    }
  }

  /** A single table is concatenated to itself. */
  lemma ConcatSingle(f: Frame)
    requires WellFormed(f)
    ensures Concat([f]) == f
  {
    assert AllLabels([f]) == f.labels by {
      assert AllLabels([f][1..]) == [];
      UnionEmpty(f.labels);
    }
    forall i | 0 <= i < |f.rows| ensures Realign(f.labels, f.rows[i], f.labels) == f.rows[i] {
      forall j | 0 <= j < |f.labels| ensures Realign(f.labels, f.rows[i], f.labels)[j] == f.rows[i][j] {
        assert Position(f.labels, f.labels[j]) == Some(j);
      }
    }
    assert ConcatRows([f][1..], f.labels) == [];
  }

  lemma UnionEmpty(a: seq<int>)
    requires Increasing(a)
    ensures Union(a, []) == a
  {
  }

  /** `df.drop(df.columns[positions], axis=1)`: pandas raises IndexError when a
      position lies past the last column. */
  function DropPositions(f: Frame, ps: set<nat>): (r: Result<Frame>)
    requires WellFormed(f)
    ensures r.Ok? <==> forall p :: p in ps ==> p < |f.labels|
    ensures r.Ok? ==> WellFormed(r.value) && |r.value.rows| == |f.rows|
    ensures r.Ok? ==> forall x :: x in r.value.labels <==> exists i :: 0 <= i < |f.labels| && i !in ps && f.labels[i] == x
  {
    if exists p :: p in ps && p >= |f.labels| then Err("IndexError: index out of bounds")
    else
      var labels := Without(f.labels, ps);
      forall x ensures x in labels <==> exists i :: 0 <= i < |f.labels| && i !in ps && f.labels[i] == x {
        WithoutMembers(f.labels, ps, x);
      }
      WithoutIncreasing(f.labels, ps);
      Ok(Frame(labels, seq(|f.rows|, i requires 0 <= i < |f.rows| => Without(f.rows[i], ps))))
  }

  lemma {:induction false} WithoutIncreasing(xs: seq<int>, ps: set<nat>)
    requires Increasing(xs)
    ensures Increasing(Without(xs, ps))
  {
    if xs != [] {
      var n := |xs| - 1;
      WithoutIncreasing(xs[..n], ps);
      var w := Without(xs[..n], ps);
      forall y | y in w ensures y < xs[n] {
        WithoutMembers(xs[..n], ps, y);
      }
      var r := Without(xs, ps);
      assert r == w + (if n in ps then [] else [xs[n]]);
      forall i, j | 0 <= i < j < |r| ensures r[i] < r[j] {
        if j < |w| {
        } else {
          assert r[i] == w[i] && w[i] in w;
        }
      }
    }
  }

  lemma {:induction false} KeptMonotone(n: nat, m: nat, ps: set<nat>)
    requires n <= m
    ensures Kept(n, ps) <= Kept(m, ps)
    decreases m - n
  {
    if n < m {
      KeptMonotone(n, m - 1, ps);
    }
  }

  /** Dropping positions keeps a prefix of the row onto a prefix of the result. */
  lemma {:induction false} WithoutTake<T>(xs: seq<T>, ps: set<nat>, n: nat)
    requires n <= |xs|
    ensures Kept(n, ps) <= Kept(|xs|, ps) && Without(xs[..n], ps) == Without(xs, ps)[..Kept(n, ps)]
    decreases |xs| - n
  {
    KeptMonotone(n, |xs|, ps);
    if n < |xs| {
      WithoutTake(xs, ps, n + 1);
      assert xs[..n + 1][..n] == xs[..n];
      assert Without(xs[..n + 1], ps) == Without(xs[..n], ps) + (if n in ps then [] else [xs[n]]);
    } else {
      assert xs[..n] == xs;
    }
  }

  /** A kept cell lands at the position given by the number of kept cells before it. */
  lemma WithoutAt<T>(xs: seq<T>, ps: set<nat>, i: nat)
    requires i < |xs| && i !in ps
    ensures Kept(i, ps) < |Without(xs, ps)| && Without(xs, ps)[Kept(i, ps)] == xs[i]
  {
    WithoutTake(xs, ps, i + 1);
    assert xs[..i + 1][..i] == xs[..i];
    assert Without(xs[..i + 1], ps) == Without(xs[..i], ps) + [xs[i]];
  }

  /** A column that `DropPositions` keeps lands at the number of kept columns
      before it, so the kept columns keep their labels, their cells and their
      order. */
  lemma DropPositionsKeeps(f: Frame, ps: set<nat>, p: nat)
    requires WellFormed(f) && DropPositions(f, ps).Ok? && p < |f.labels| && p !in ps
    ensures var g := DropPositions(f, ps).value;
      && Kept(p, ps) < |g.labels| && g.labels[Kept(p, ps)] == f.labels[p]
      && (forall i :: 0 <= i < |f.rows| ==> g.rows[i][Kept(p, ps)] == f.rows[i][p])
      && (forall q: nat :: p < q < |f.labels| && q !in ps ==> Kept(p, ps) < Kept(q, ps))
  {
    var g := DropPositions(f, ps).value;
    assert g.labels == Without(f.labels, ps);
    assert forall i :: 0 <= i < |f.rows| ==> g.rows[i] == Without(f.rows[i], ps);
    WithoutAt(f.labels, ps, p);
    forall i | 0 <= i < |f.rows| ensures g.rows[i][Kept(p, ps)] == f.rows[i][p] {
      WithoutAt(f.rows[i], ps, p);
    }
    forall q: nat | p < q < |f.labels| && q !in ps ensures Kept(p, ps) < Kept(q, ps) {
      KeptStrict(p, q, ps);
    }
  }

  lemma KeptStrict(p: nat, q: nat, ps: set<nat>)
    requires p < q && p !in ps
    ensures Kept(p, ps) < Kept(q, ps)
  {
    assert Kept(p + 1, ps) == Kept(p, ps) + 1;
    KeptMonotone(p + 1, q, ps);
  }

  /** One more element: `Without` of a prefix grows by that element unless its
      position is dropped. */
  lemma WithoutSnoc<T>(xs: seq<T>, ps: set<nat>, n: nat)
    requires n < |xs|
    ensures Without(xs[..n + 1], ps) == Without(xs[..n], ps) + (if n in ps then [] else [xs[n]])
  {
    assert xs[..n + 1][..n] == xs[..n];
  }

  /** `df.drop(df.columns[range(k, len(df.columns))], axis=1)`: keeps the first `k`
      columns. */
  function KeepFirst(f: Frame, k: nat): (r: Frame)
    requires WellFormed(f)
    ensures WellFormed(r) && |r.rows| == |f.rows|
    ensures |r.labels| == if k < |f.labels| then k else |f.labels|
  {
    var m := if k < |f.labels| then k else |f.labels|;
    Frame(f.labels[..m], seq(|f.rows|, i requires 0 <= i < |f.rows| => f.rows[i][..m]))
  }

  /** Keeping the first `k` columns is dropping every column position from `k` on. */
  lemma KeepFirstIsDrop(f: Frame, k: nat)
    requires WellFormed(f)
    ensures DropPositions(f, From(k, |f.labels|)) == Ok(KeepFirst(f, k))
  {
    var ps := From(k, |f.labels|);
    WithoutFrom(f.labels, ps, k, |f.labels|);
    assert f.labels[..|f.labels|] == f.labels;
    var g := KeepFirst(f, k);
    var rows := seq(|f.rows|, i requires 0 <= i < |f.rows| => Without(f.rows[i], ps));
    forall i | 0 <= i < |f.rows| ensures rows[i] == g.rows[i] {
      WithoutFrom(f.rows[i], ps, k, |f.rows[i]|);
      assert f.rows[i][..|f.rows[i]|] == f.rows[i];
    }
    assert rows == g.rows;
    assert DropPositions(f, ps) == Ok(Frame(Without(f.labels, ps), rows));
  }

  /** The positions from `k` up to, not including, `n`. */
  function From(k: nat, n: nat): (ps: set<nat>)
    ensures forall p: nat :: p in ps <==> k <= p < n
  {
    if n <= k then {} else From(k, n - 1) + {n - 1}
  }

  lemma {:induction false} WithoutFrom<T>(xs: seq<T>, ps: set<nat>, k: nat, m: nat)
    requires m <= |xs| && forall p: nat :: p < |xs| ==> (p in ps <==> k <= p)
    ensures Without(xs[..m], ps) == xs[..if k < m then k else m]
  {
    if m > 0 {
      WithoutFrom(xs, ps, k, m - 1);
      assert xs[..m][..m - 1] == xs[..m - 1];
      assert Without(xs[..m], ps) == Without(xs[..m - 1], ps) + (if m - 1 in ps then [] else [xs[m - 1]]);
      if m - 1 !in ps {
        assert xs[..m] == xs[..m - 1] + [xs[m - 1]];
      }
    }
  }

  /** `df.replace(to_replace=pattern, value=rep, regex=True)`: the substitution on
      every text cell; missing values stay missing. */
  function ReplaceCells(f: Frame, rule: Rule): (r: Frame)
    requires WellFormed(f)
    ensures WellFormed(r) && r.labels == f.labels && |r.rows| == |f.rows|
  {
    Frame(f.labels, seq(|f.rows|, i requires 0 <= i < |f.rows| =>
      seq(|f.rows[i]|, j requires 0 <= j < |f.rows[i]| =>
        match f.rows[i][j] case None => None case Some(s) => Some(Apply(rule, s)))))
  }

  predicate Complete(row: seq<Cell>) {
    forall j :: 0 <= j < |row| ==> row[j].Some?
  }

  /** `df.dropna()`: keeps the rows without a missing value. */
  function DropNa(f: Frame): (r: Frame)
    requires WellFormed(f)
    ensures WellFormed(r) && r.labels == f.labels
    ensures forall row :: row in r.rows <==> row in f.rows && Complete(row)
  {
    var rows := Filter(f.rows, Complete);
    forall i | 0 <= i < |rows| ensures |rows[i]| == |f.labels| {
      assert rows[i] in f.rows;
    }
    Frame(f.labels, rows)
  }

  /** `dropna` keeps the complete rows in their order, each as often as it occurs. */
  lemma DropNaKeeps(f: Frame)
    requires WellFormed(f)
    ensures Subsequence(DropNa(f).rows, f.rows)
    ensures forall row :: multiset(DropNa(f).rows)[row] == if Complete(row) then multiset(f.rows)[row] else 0
  {
    FilterKeeps(f.rows, Complete);
  }

  /** The cell at column position `p` is text that `pd.to_numeric` reads. */
  predicate NumericAt(row: seq<Cell>, p: nat) {
    p < |row| && row[p].Some? && IsNumeric(row[p].value)
  }

  /** `df[pd.to_numeric(df[df.columns[p]], errors='coerce').notnull()]`: keeps the
      rows whose cell in column position `p` is numeric; IndexError when there is
      no such column. */
  function KeepNumeric(f: Frame, p: nat): (r: Result<Frame>)
    requires WellFormed(f)
    ensures r.Ok? <==> p < |f.labels|
    ensures r.Ok? ==> WellFormed(r.value) && r.value.labels == f.labels
    ensures r.Ok? ==> forall row :: row in r.value.rows <==> row in f.rows && NumericAt(row, p)
  {
    if p >= |f.labels| then Err("IndexError: index out of bounds")
    else
      var rows := Filter(f.rows, (row: seq<Cell>) => NumericAt(row, p));
      forall i | 0 <= i < |rows| ensures |rows[i]| == |f.labels| {
        assert rows[i] in f.rows;
      }
      Ok(Frame(f.labels, rows))
  }

  /** The numeric filter keeps the rows numeric at `p` in their order, each as
      often as it occurs. */
  lemma KeepNumericKeeps(f: Frame, p: nat)
    requires WellFormed(f) && p < |f.labels|
    ensures Subsequence(KeepNumeric(f, p).value.rows, f.rows)
    ensures forall row ::
      multiset(KeepNumeric(f, p).value.rows)[row] == if NumericAt(row, p) then multiset(f.rows)[row] else 0
  {
    var keep := (row: seq<Cell>) => NumericAt(row, p);
    FilterKeeps(f.rows, keep);
    assert KeepNumeric(f, p).value.rows == Filter(f.rows, keep);
  }

  /** The column under label `x` (`df[x]`); KeyError when there is none. */
  function ColumnByLabel(f: Frame, x: int): (r: Result<seq<Cell>>)
    requires WellFormed(f)
    ensures r.Ok? <==> x in f.labels
    ensures r.Ok? ==> |r.value| == |f.rows|
    ensures r.Ok? ==> forall i :: 0 <= i < |f.rows| ==> r.value[i] == f.rows[i][Position(f.labels, x).value]
  {
    match Position(f.labels, x)
    case None => Err("KeyError")
    case Some(p) => Ok(seq(|f.rows|, i requires 0 <= i < |f.rows| => f.rows[i][p]))
  }
}
