/** The state logic of the two Bokeh dashboards (COVID-19.py on the JHU series,
    COVID-19_WHO.py on the WHO series): closing a map selection under "same
    country", giving each selected country a line colour, the per-date
    statistics of the selection, the radio-button decode and the play/pause
    animation. Widgets, figures and floating-point formatting are left out. */
module Dashboard {
  import opened Wrappers
  import opened Text
  import opened Grouping
  import opened Sorting

  // ---------------------------------------------------------------- the selection

  /** Strictly increasing: sorted and without duplicates. */
  predicate Increasing(xs: seq<nat>) {
    forall i, j :: 0 <= i < j < |xs| ==> xs[i] < xs[j]
  }

  /** Every selected index names a row of the map (`iloc` raises IndexError
      otherwise). The map frame is reset-indexed, so a row's index label is
      its position. */
  predicate ValidSelection(n: nat, sel: seq<nat>) {
    forall k :: 0 <= k < |sel| ==> sel[k] < n
  }

  /** The countries of the selected map rows. */
  function Chosen(countries: seq<string>, sel: seq<nat>): set<string>
    requires ValidSelection(|countries|, sel)
  {
    set k | 0 <= k < |sel| :: countries[sel[k]]
  }

  /** The map rows below `n` whose country is one of `names`, in increasing
      order. */
  function Within(countries: seq<string>, names: set<string>, n: nat): (ps: seq<nat>)
    requires n <= |countries|
    ensures Increasing(ps)
    ensures forall i :: 0 <= i < |ps| ==> ps[i] < n
    ensures forall j: nat :: j in ps <==> j < n && countries[j] in names
  {
    if n == 0 then []
    else
      var init := Within(countries, names, n - 1);
      assert forall i :: 0 <= i < |init| ==> init[i] < n - 1 by {
        forall i | 0 <= i < |init| ensures init[i] < n - 1 { assert init[i] in init; }
      }
      init + (if countries[n - 1] in names then [n - 1] else [])
  }

  /** `list(set(xs))` followed by `sort()`, for indices below `n`. */
  function InOrder(xs: seq<nat>, n: nat): (ps: seq<nat>)
    ensures Increasing(ps)
    ensures forall j: nat :: j in ps <==> j < n && j in xs
  {
    if n == 0 then []
    else
      var init := InOrder(xs, n - 1);
      assert forall i :: 0 <= i < |init| ==> init[i] < n - 1 by {
        forall i | 0 <= i < |init| ensures init[i] < n - 1 { assert init[i] in init; }
      }
      init + (if n - 1 in xs then [n - 1] else [])
  }

  lemma {:induction false} InOrderWithin(xs: seq<nat>, countries: seq<string>, names: set<string>, n: nat)
    requires n <= |countries|
    requires forall j: nat :: j < n ==> (j in xs <==> countries[j] in names)
    ensures InOrder(xs, n) == Within(countries, names, n)
  {
    if n > 0 {
      InOrderWithin(xs, countries, names, n - 1);
    }
  }

  /** `df_map['Country'][df_map['Country'] == c].index`: the rows of country `c`. */
  function RowsOf(countries: seq<string>, c: string): seq<nat> {
    Within(countries, {c}, |countries|)
  }

  /** `new_list` after `list(set(new_list))` and `sort()`: every row sharing a
      country with a selected row, once each, in increasing order. */
  function Expanded(countries: seq<string>, sel: seq<nat>): (r: seq<nat>)
    requires ValidSelection(|countries|, sel)
    ensures ValidSelection(|countries|, r)
  {
    Within(countries, Chosen(countries, sel), |countries|)
  }

  /** Lines 358-363 of COVID-19.py (270-275 of COVID-19_WHO.py): the loop gathers
      the rows of each selected row's country, then duplicates go and the list
      is sorted. An index outside the map is the IndexError the callback
      catches, reported as `None`. */
  method ExpandSelection(countries: seq<string>, sel: seq<nat>) returns (r: Option<seq<nat>>)
    ensures r.None? <==> !ValidSelection(|countries|, sel)
    ensures r.Some? ==> ValidSelection(|countries|, sel) && r.value == Expanded(countries, sel)
  {
    var acc: seq<nat> := [];
    for i := 0 to |sel|
      invariant ValidSelection(|countries|, sel[..i])
      invariant forall j: nat :: j in acc <==> j < |countries| && countries[j] in Chosen(countries, sel[..i])
    {
      if sel[i] >= |countries| {
        return None;
      }
      assert Chosen(countries, sel[..i + 1]) == Chosen(countries, sel[..i]) + {countries[sel[i]]} by {
        assert forall k :: 0 <= k < i ==> sel[..i + 1][k] == sel[..i][k];
      }
      acc := acc + RowsOf(countries, countries[sel[i]]);
    }
    assert sel[..|sel|] == sel;
    InOrderWithin(acc, countries, Chosen(countries, sel), |countries|);
    r := Some(InOrder(acc, |countries|));
  }

  /** The expanded selection is sorted and free of duplicates, holds every
      selected row, and holds exactly the rows whose country is the country of
      some selected row. */
  lemma ExpandedMeaning(countries: seq<string>, sel: seq<nat>)
    requires ValidSelection(|countries|, sel)
    ensures Increasing(Expanded(countries, sel))
    ensures ValidSelection(|countries|, Expanded(countries, sel))
    ensures forall k :: 0 <= k < |sel| ==> sel[k] in Expanded(countries, sel)
    ensures forall j: nat :: j in Expanded(countries, sel) <==>
      j < |countries| && exists k :: 0 <= k < |sel| && countries[sel[k]] == countries[j]
  {
    var r := Expanded(countries, sel);
    forall k | 0 <= k < |sel| ensures sel[k] in r {
      assert countries[sel[k]] in Chosen(countries, sel);
    }
    forall i | 0 <= i < |r| ensures r[i] < |countries| {
      assert r[i] in r;
    }
    forall j: nat | j in r ensures exists k :: 0 <= k < |sel| && countries[sel[k]] == countries[j] {
      assert countries[j] in Chosen(countries, sel);
    }
  }

  /** Expanding the expanded selection changes nothing. */
  lemma ExpandIdempotent(countries: seq<string>, sel: seq<nat>)
    requires ValidSelection(|countries|, sel)
    ensures ValidSelection(|countries|, Expanded(countries, sel))
    ensures Expanded(countries, Expanded(countries, sel)) == Expanded(countries, sel)
  {
    var r := Expanded(countries, sel);
    ExpandedMeaning(countries, sel);
    ChosenGrows(countries, sel, r);
    ChosenOfExpanded(countries, sel);
    assert Chosen(countries, r) == Chosen(countries, sel);
  }

  lemma ChosenGrows(countries: seq<string>, sel: seq<nat>, r: seq<nat>)
    requires ValidSelection(|countries|, sel) && ValidSelection(|countries|, r)
    requires forall k :: 0 <= k < |sel| ==> sel[k] in r
    ensures Chosen(countries, sel) <= Chosen(countries, r)
  {
    forall c | c in Chosen(countries, sel) ensures c in Chosen(countries, r) {
      var k :| 0 <= k < |sel| && countries[sel[k]] == c;
      assert sel[k] in r;
      var m :| 0 <= m < |r| && r[m] == sel[k];
    }
  }

  lemma ChosenOfExpanded(countries: seq<string>, sel: seq<nat>)
    requires ValidSelection(|countries|, sel)
    ensures ValidSelection(|countries|, Expanded(countries, sel))
    ensures Chosen(countries, Expanded(countries, sel)) <= Chosen(countries, sel)
  {
    var r := Expanded(countries, sel);
    forall i | 0 <= i < |r| ensures r[i] < |countries| && countries[r[i]] in Chosen(countries, sel) {
      assert r[i] in r;
    }
  }

  // ---------------------------------------------------------------- colours

  /** Category20_16, the palette of the country lines, has 16 colours. */
  const PaletteSize: nat := 16

  /** The names met along the selection where the country changes, starting
      from `prev` (line 373: "World", as if a World row came first). */
  function Changes(names: seq<string>, prev: string): seq<string>
    decreases |names|
  {
    if names == [] then []
    else if names[0] != prev then [names[0]] + Changes(names[1..], names[0])
    else Changes(names[1..], prev)
  }

  /** The changes are the selection with each run of equal names collapsed: no
      two neighbours are equal, the first differs from `prev`, nothing new is
      introduced, and every name other than `prev` is kept. */
  lemma {:induction false} ChangesShape(names: seq<string>, prev: string)
    ensures var runs := Changes(names, prev);
      && |runs| <= |names|
      && (|runs| > 0 ==> runs[0] != prev)
      && (forall k :: 0 <= k < |runs| - 1 ==> runs[k] != runs[k + 1])
      && (forall x :: x in runs ==> x in names)
      && (forall x :: x in names && x != prev ==> x in runs)
    decreases |names|
  {
    if names != [] {
      var runs := Changes(names, prev);
      var rest := names[1..];
      if names[0] != prev {
        ChangesShape(rest, names[0]);
        var tail := Changes(rest, names[0]);
        assert runs == [names[0]] + tail;
        forall k | 0 <= k < |runs| - 1 ensures runs[k] != runs[k + 1] {
          if k > 0 { assert runs[k] == tail[k - 1] && runs[k + 1] == tail[k]; }
        }
        forall x | x in runs ensures x in names {
          if x != names[0] { assert x in tail; }
        }
        forall x | x in names && x != prev ensures x in runs {
          if x != names[0] { assert x in rest; }
        }
      } else {
        ChangesShape(rest, prev);
        forall x | x in names && x != prev ensures x in runs {
          assert x in rest;
        }
      }
    }
  }

  /** Where a selected country's series comes from: COVID-19.py looks the
      country up as a column of the JHU table (a KeyError, not caught, when
      it is missing); COVID-19_WHO.py filters the WHO rows, which never fails. */
  datatype Series = JhuColumns(columns: set<string>) | WhoRows

  predicate HasSeries(series: Series, c: string) {
    match series
    case JhuColumns(columns) => c in columns
    case WhoRows => true
  }

  /** A country's line: its name and its colour's position in the palette. */
  datatype Line = Line(country: string, colour: nat)

  /** The outcome of the colour loop: the lines, or the IndexError of a
      seventeenth colour, or the KeyError of a country without a series. */
  datatype Colouring = Lines(lines: seq<Line>) | PaletteExhausted | MissingSeries(country: string)

  /** The colour loop's result on the changes `runs`, `k` colours being used. */
  function Colours(runs: seq<string>, series: Series, k: nat): Colouring
    decreases |runs|
  {
    if runs == [] then Lines([])
    else if !HasSeries(series, runs[0]) then MissingSeries(runs[0])
    else if k >= PaletteSize then PaletteExhausted
    else
      match Colours(runs[1..], series, k + 1)
      case Lines(ls) => Lines([Line(runs[0], k)] + ls)
      case other => other
  }

  /** The lines come out exactly when every changed-to country has a series
      and there are at most 16 - k of them; the m-th change then gets colour
      k + m, so the first country gets colour 0. A missing series is met
      before an exhausted palette at the same step. */
  lemma {:induction false} ColoursMeaning(runs: seq<string>, series: Series, k: nat)
    requires k <= PaletteSize
    ensures Colours(runs, series, k).Lines? <==>
      |runs| <= PaletteSize - k && forall m :: 0 <= m < |runs| ==> HasSeries(series, runs[m])
    ensures Colours(runs, series, k).Lines? ==>
      var ls := Colours(runs, series, k).lines;
      |ls| == |runs| && forall m :: 0 <= m < |runs| ==> ls[m] == Line(runs[m], k + m)
    ensures Colours(runs, series, k).MissingSeries? ==> exists m :: (0 <= m < |runs| &&
      m <= PaletteSize - k && runs[m] == Colours(runs, series, k).country && !HasSeries(series, runs[m]))
    ensures Colours(runs, series, k) == PaletteExhausted <==>
      |runs| > PaletteSize - k && forall m :: 0 <= m <= PaletteSize - k ==> HasSeries(series, runs[m])
    decreases |runs|
  {
    if runs != [] && HasSeries(series, runs[0]) && k < PaletteSize {
      ColoursMeaning(runs[1..], series, k + 1);
      var c := Colours(runs[1..], series, k + 1);
      if c.Lines? {
        var ls := Colours(runs, series, k).lines;
        assert ls == [Line(runs[0], k)] + c.lines;
        forall m | 0 <= m < |runs| ensures ls[m] == Line(runs[m], k + m) {
          if m > 0 { assert ls[m] == c.lines[m - 1]; }
        }
      }
      if c.MissingSeries? {
        var m :| 0 <= m < |runs[1..]| && m <= PaletteSize - k - 1 && runs[1..][m] == c.country
          && !HasSeries(series, runs[1..][m]);
        assert runs[m + 1] == c.country;
      }
      if |runs| > PaletteSize - k && forall m :: 0 <= m <= PaletteSize - k ==> HasSeries(series, runs[m]) {
        assert forall m :: 0 <= m <= PaletteSize - k - 1 ==> runs[1..][m] == runs[m + 1];
      }
      if forall m :: 0 <= m < |runs| ==> HasSeries(series, runs[m]) {
        assert forall m :: 0 <= m < |runs[1..]| ==> runs[1..][m] == runs[m + 1];
      }
      if Colours(runs, series, k) == PaletteExhausted {
        forall m | 0 <= m <= PaletteSize - k ensures HasSeries(series, runs[m]) {
          if m > 0 { assert runs[m] == runs[1..][m - 1]; }
        }
      }
    }
  }

  /** Passes a failure through, or puts `done` in front of the lines. */
  function After(done: seq<Line>, c: Colouring): Colouring {
    match c
    case Lines(ls) => Lines(done + ls)
    case other => other
  }

  /** The lines of changes all coloured already. */
  function Coloured(runs: seq<string>, k: nat): (ls: seq<Line>)
    ensures |ls| == |runs|
    ensures forall m :: 0 <= m < |runs| ==> ls[m] == Line(runs[m], k + m)
    decreases |runs|
  {
    if runs == [] then []
    else
      var init := runs[..|runs| - 1];
      assert forall m :: 0 <= m < |init| ==> init[m] == runs[m];
      Coloured(init, k) + [Line(runs[|runs| - 1], k + |runs| - 1)]
  }

  /** A walk that starts with colourable changes is those lines in front of
      the rest of the walk. */
  lemma {:induction false} ColoursSplit(done: seq<string>, rest: seq<string>, series: Series, k: nat)
    requires k + |done| <= PaletteSize
    requires forall m :: 0 <= m < |done| ==> HasSeries(series, done[m])
    ensures Colours(done + rest, series, k) == After(Coloured(done, k), Colours(rest, series, k + |done|))
    decreases |done|
  {
    if done != [] {
      var tail := done[1..] + rest;
      assert done + rest == [done[0]] + tail;
      ColoursCons(done[0], tail, series, k);
      ColoursSplit(done[1..], rest, series, k + 1);
      ColouredCons(done, k);
      AfterAfter([Line(done[0], k)], Coloured(done[1..], k + 1), Colours(rest, series, k + |done|));
    } else {
      assert done + rest == rest;
    }
  }

  lemma ColoursCons(x: string, xs: seq<string>, series: Series, k: nat)
    requires HasSeries(series, x) && k < PaletteSize
    ensures Colours([x] + xs, series, k) == After([Line(x, k)], Colours(xs, series, k + 1))
  {
    assert ([x] + xs)[1..] == xs;
  }

  lemma ColouredCons(runs: seq<string>, k: nat)
    requires runs != []
    ensures Coloured(runs, k) == [Line(runs[0], k)] + Coloured(runs[1..], k + 1)
  {
  }

  lemma AfterAfter(a: seq<Line>, b: seq<Line>, c: Colouring)
    ensures After(a, After(b, c)) == After(a + b, c)
  {
    if c.Lines? {
      assert a + (b + c.lines) == (a + b) + c.lines;
    }
  }

  /** One step of the walk: a change appends the new name to those met. */
  lemma ChangesStep(names: seq<string>, i: nat, prev: string, done: seq<string>)
    requires i < |names|
    requires Changes(names, "World") == done + Changes(names[i..], prev)
    ensures names[i] != prev ==>
      Changes(names, "World") == (done + [names[i]]) + Changes(names[i + 1..], names[i])
    ensures names[i] == prev ==> Changes(names, "World") == done + Changes(names[i + 1..], prev)
  {
    assert names[i..][0] == names[i];
    assert names[i..][1..] == names[i + 1..];
    if names[i] != prev {
      assert done + ([names[i]] + Changes(names[i + 1..], names[i])) ==
        (done + [names[i]]) + Changes(names[i + 1..], names[i]);
    }
  }

  lemma ColouredSnoc(done: seq<string>, x: string)
    ensures Coloured(done + [x], 0) == Coloured(done, 0) + [Line(x, |done|)]
  {
  }

  /** The loop stops at a change whose series is missing or whose colour the
      palette lacks, and the result is that of the whole walk. */
  lemma ColoursStop(done: seq<string>, x: string, more: seq<string>, series: Series)
    requires |done| <= PaletteSize
    requires forall m :: 0 <= m < |done| ==> HasSeries(series, done[m])
    requires !HasSeries(series, x) || |done| >= PaletteSize
    ensures Colours(done + [x] + more, series, 0) ==
      if !HasSeries(series, x) then MissingSeries(x) else PaletteExhausted
  {
    assert done + [x] + more == done + ([x] + more);
    ColoursSplit(done, [x] + more, series, 0);
  }

  /** The walk stops at the `i`-th name, a change that cannot be coloured. */
  lemma LoopStops(names: seq<string>, i: nat, done: seq<string>, series: Series)
    requires i < |names| && |done| <= PaletteSize
    requires Changes(names, "World") == (done + [names[i]]) + Changes(names[i + 1..], names[i])
    requires forall m :: 0 <= m < |done| ==> HasSeries(series, done[m])
    requires !HasSeries(series, names[i]) || |done| >= PaletteSize
    ensures Colours(Changes(names, "World"), series, 0) ==
      if !HasSeries(series, names[i]) then MissingSeries(names[i]) else PaletteExhausted
  {
    ColoursStop(done, names[i], Changes(names[i + 1..], names[i]), series);
  }

  /** The walk ends with every change coloured. */
  lemma LoopEnds(names: seq<string>, prev: string, done: seq<string>, series: Series)
    requires |done| <= PaletteSize
    requires Changes(names, "World") == done + Changes(names[|names|..], prev)
    requires forall m :: 0 <= m < |done| ==> HasSeries(series, done[m])
    ensures Colours(Changes(names, "World"), series, 0) == Lines(Coloured(done, 0))
  {
    assert names[|names|..] == [];
    assert done + [] == done;
    ColoursSplit(done, [], series, 0);
  }

  /** Lines 372-393 of COVID-19.py (281-296 of COVID-19_WHO.py, where every name has a series): walking the
      selection, at each change of country the country's series is looked up,
      then the next palette colour is taken and the counter moves on. */
  method ColourLoop(names: seq<string>, series: Series) returns (out: Colouring)
    ensures out == Colours(Changes(names, "World"), series, 0)
  {
    var colourIndex := 0;
    var prev := "World";
    var lines: seq<Line> := [];
    ghost var done: seq<string> := [];
    for i := 0 to |names|
      invariant colourIndex == |done| <= PaletteSize
      invariant forall m :: 0 <= m < |done| ==> HasSeries(series, done[m])
      invariant lines == Coloured(done, 0)
      invariant Changes(names, "World") == done + Changes(names[i..], prev)
    {
      ChangesStep(names, i, prev, done);
      if names[i] != prev {
        prev := names[i];
        if !HasSeries(series, prev) || colourIndex >= PaletteSize {
          LoopStops(names, i, done, series);
          if !HasSeries(series, prev) {
            return MissingSeries(prev);
          }
          return PaletteExhausted;
        }
        ColouredSnoc(done, prev);
        lines := lines + [Line(prev, colourIndex)];
        colourIndex := colourIndex + 1;
        done := done + [prev];
      }
    }
    LoopEnds(names, prev, done, series);
    out := Lines(lines);
  }

  // ---------------------------------------------------------------- update_plot

  /** What `update_plot` leaves behind: a new selection to come back with, the
      World view, one line per selected country, or a failed callback. */
  datatype Plot = Reselect(indices: seq<nat>) | WorldView | CountryLines(lines: seq<Line>) | Failed(missing: string)

  function AsInt(x: nat): int {
    x
  }

  function LineCountry(l: Line): string {
    l.country
  }

  function NamesAt(countries: seq<string>, sel: seq<nat>): (names: seq<string>)
    requires ValidSelection(|countries|, sel)
    ensures |names| == |sel|
  {
    seq(|sel|, k requires 0 <= k < |sel| => countries[sel[k]])
  }

  /** The callback as a function of the map's countries and the selection. An
      empty selection (`indices[0]`) or an index outside the map is an
      IndexError, and so is a seventeenth colour: all three show World. A
      selection that is not already closed and sorted is replaced by the closed
      one and the callback returns. The lines end up ordered by country. */
  function PlotOf(countries: seq<string>, sel: seq<nat>, series: Series): Plot {
    if sel == [] || !ValidSelection(|countries|, sel) then WorldView
    else if Expanded(countries, sel) != SortBy(sel, AsInt, IntLess) then Reselect(Expanded(countries, sel))
    else Drawn(Colours(Changes(NamesAt(countries, Expanded(countries, sel)), "World"), series, 0))
  }

  /** The plot the colour loop's outcome leads to. */
  function Drawn(c: Colouring): Plot {
    match c
    case Lines(ls) => CountryLines(SortBy(ls, LineCountry, StrLess))
    case PaletteExhausted => WorldView
    case MissingSeries(m) => Failed(m)
  }

  /** Lines 352-412 of COVID-19.py and 259-301 of COVID-19_WHO.py. */
  method UpdatePlot(countries: seq<string>, sel: seq<nat>, series: Series) returns (plot: Plot)
    ensures plot == PlotOf(countries, sel, series)
  {
    if |sel| == 0 {
      return WorldView;
    }
    var sorted := SortBy(sel, AsInt, IntLess);
    var closed := ExpandSelection(countries, sel);
    if closed.None? {
      return WorldView;
    }
    if closed.value != sorted {
      return Reselect(closed.value);
    }
    var colouring := ColourLoop(NamesAt(countries, closed.value), series);
    plot := Drawn(colouring);
  }

  /** The reselection fires the callback again, and that second firing goes on
      to draw: the closed selection is its own closure and already sorted. */
  lemma SecondFiringProceeds(countries: seq<string>, sel: seq<nat>, series: Series)
    requires PlotOf(countries, sel, series).Reselect?
    ensures PlotOf(countries, sel, series).indices == Expanded(countries, sel)
    ensures !PlotOf(countries, Expanded(countries, sel), series).Reselect?
  {
    var r := Expanded(countries, sel);
    ReselectsClosure(countries, sel, series);
    ClosedIsFixed(countries, sel);
    SettledDraws(countries, r, series);
  }

  lemma ReselectsClosure(countries: seq<string>, sel: seq<nat>, series: Series)
    requires PlotOf(countries, sel, series).Reselect?
    ensures sel != [] && ValidSelection(|countries|, sel)
    ensures PlotOf(countries, sel, series) == Reselect(Expanded(countries, sel))
  {
  }

  /** A selection that is its own sorted closure is drawn. */
  lemma SettledDraws(countries: seq<string>, sel: seq<nat>, series: Series)
    requires sel != [] && ValidSelection(|countries|, sel)
    requires Expanded(countries, sel) == SortBy(sel, AsInt, IntLess)
    ensures PlotOf(countries, sel, series) ==
      Drawn(Colours(Changes(NamesAt(countries, Expanded(countries, sel)), "World"), series, 0))
  {
  }

  /** A non-empty selection's closure is non-empty, its own closure, and
      sorted already. */
  lemma ClosedIsFixed(countries: seq<string>, sel: seq<nat>)
    requires sel != [] && ValidSelection(|countries|, sel)
    ensures var r := Expanded(countries, sel);
      r != [] && Expanded(countries, r) == r && SortBy(r, AsInt, IntLess) == r
  {
    var r := Expanded(countries, sel);
    ExpandedMeaning(countries, sel);
    assert sel[0] in r;
    ExpandIdempotent(countries, sel);
    IncreasingIsSorted(r);
  }

  lemma IncreasingIsSorted(xs: seq<nat>)
    requires Increasing(xs)
    ensures SortBy(xs, AsInt, IntLess) == xs
  {
    assert SortedBy(xs, AsInt, IntLess);
    SortByIdentity(xs, AsInt, IntLess);
  }

  /** Drawn lines are ordered by country, and the selected countries' colours
      are 0, 1, 2, ... in the order the selection meets them. */
  lemma LinesMeaning(countries: seq<string>, sel: seq<nat>, series: Series)
    requires PlotOf(countries, sel, series).CountryLines?
    ensures ValidSelection(|countries|, sel)
    ensures var ls := PlotOf(countries, sel, series).lines;
      && SortedBy(ls, LineCountry, StrLess)
      && multiset(ls) == multiset(Coloured(Changes(NamesAt(countries, Expanded(countries, sel)), "World"), 0))
  {
    DrawnLines(Changes(NamesAt(countries, Expanded(countries, sel)), "World"), series);
  }

  /** When the colour loop draws, the lines are those of the changes with
      colours 0, 1, 2, ..., reordered by country. */
  lemma DrawnLines(runs: seq<string>, series: Series)
    requires Drawn(Colours(runs, series, 0)).CountryLines?
    ensures var ls := Drawn(Colours(runs, series, 0)).lines;
      SortedBy(ls, LineCountry, StrLess) && multiset(ls) == multiset(Coloured(runs, 0))
  {
    ColoursMeaning(runs, series, 0);
    var c := Colours(runs, series, 0);
    assert c.lines == Coloured(runs, 0);
    StrLessIsOrder();
    SortBySorted(c.lines, LineCountry, StrLess);
  }

  // ---------------------------------------------------------------- statistics

  /** One row of `df_grp`: a country's figures on one date. */
  datatype GroupRow = GroupRow(country: string, date: int, population: int,
                               casesTot: int, casesNew: int, deathsTot: int, deathsNew: int)

  /** A per-1k-people figure, kept as the fraction `num / den`; the floating
      point division itself is not modelled. */
  datatype Per1k = Per1k(num: int, den: int)

  /** One line of the statistics table: the count and its per-1k figure. */
  datatype Stat = Stat(count: int, per1k: Per1k)

  /** The sum of `f` over the rows of date `show` (`df_grp[df_grp['Date'] ==
      show_dt][...].sum()`). */
  function SumOn(rows: seq<GroupRow>, show: int, f: GroupRow -> int): int {
    if rows == [] then 0
    else (if rows[0].date == show then f(rows[0]) else 0) + SumOn(rows[1..], show, f)
  }

  /** Total cases, new cases, total deaths and new deaths as `update_map`
      (COVID-19.py:322-330) and `get_stats` (COVID-19_WHO.py:110-118) compute
      them. */
  function Stats(rows: seq<GroupRow>, show: int): (st: seq<Stat>)
    ensures |st| == 4
  {
    var pop := SumOn(rows, show, (r: GroupRow) => r.population);
    var ct := SumOn(rows, show, (r: GroupRow) => r.casesTot);
    var cn := SumOn(rows, show, (r: GroupRow) => r.casesNew);
    var dt := SumOn(rows, show, (r: GroupRow) => r.deathsTot);
    var dn := SumOn(rows, show, (r: GroupRow) => r.deathsNew);
    [Stat(ct, Per1k(1000 * ct, pop)), Stat(cn, Per1k(1000 * cn, pop)),
     Stat(dt, Per1k(1000 * dt, pop)), Stat(dn, Per1k(1000 * dn, pop))]
  }

  /** The same table as `update_plot` computes it (COVID-19.py:415-423): the new
      deaths per 1k are taken from the total deaths. */
  function StatsAsWritten(rows: seq<GroupRow>, show: int): (st: seq<Stat>)
    ensures |st| == 4
  {
    var pop := SumOn(rows, show, (r: GroupRow) => r.population);
    var ct := SumOn(rows, show, (r: GroupRow) => r.casesTot);
    var cn := SumOn(rows, show, (r: GroupRow) => r.casesNew);
    var dt := SumOn(rows, show, (r: GroupRow) => r.deathsTot);
    var dn := SumOn(rows, show, (r: GroupRow) => r.deathsNew);
    [Stat(ct, Per1k(1000 * ct, pop)), Stat(cn, Per1k(1000 * cn, pop)),
     Stat(dt, Per1k(1000 * dt, pop)), Stat(dn, Per1k(1000 * dt, pop))]
  }

  /** Every per-1k figure is its own line's count per 1000 of the summed
      population. */
  lemma StatsConsistent(rows: seq<GroupRow>, show: int)
    ensures forall k :: 0 <= k < 4 ==>
      Stats(rows, show)[k].per1k == Per1k(1000 * Stats(rows, show)[k].count, SumOn(rows, show, (r: GroupRow) => r.population))
  {
  }

  lemma {:induction false} SumOnAppend(a: seq<GroupRow>, b: seq<GroupRow>, show: int, f: GroupRow -> int)
    ensures SumOn(a + b, show, f) == SumOn(a, show, f) + SumOn(b, show, f)
  {
    if a == [] {
      assert a + b == b;
    } else {
      SumOnAppend(a[1..], b, show, f);
      assert (a + b)[1..] == a[1..] + b;
    }
  }

  lemma {:induction false} SumOnOtherDates(rows: seq<GroupRow>, show: int, f: GroupRow -> int)
    requires forall k :: 0 <= k < |rows| ==> rows[k].date != show
    ensures SumOn(rows, show, f) == 0
  {
    if rows != [] {
      SumOnOtherDates(rows[1..], show, f);
    }
  }

  /** The table is a sum over the rows of the shown date: the counts of two
      groups of rows add up, and rows of other dates change nothing. */
  lemma StatsAdd(a: seq<GroupRow>, b: seq<GroupRow>, show: int)
    ensures forall k :: 0 <= k < 4 ==> Stats(a + b, show)[k].count == Stats(a, show)[k].count + Stats(b, show)[k].count
    ensures (forall k :: 0 <= k < |b| ==> b[k].date != show) ==> Stats(a + b, show) == Stats(a, show)
  {
    var pop := (r: GroupRow) => r.population;
    var ct := (r: GroupRow) => r.casesTot;
    var cn := (r: GroupRow) => r.casesNew;
    var dt := (r: GroupRow) => r.deathsTot;
    var dn := (r: GroupRow) => r.deathsNew;
    SumOnAppend(a, b, show, pop);
    SumOnAppend(a, b, show, ct);
    SumOnAppend(a, b, show, cn);
    SumOnAppend(a, b, show, dt);
    SumOnAppend(a, b, show, dn);
    if forall k :: 0 <= k < |b| ==> b[k].date != show {
      SumOnOtherDates(b, show, pop);
      SumOnOtherDates(b, show, ct);
      SumOnOtherDates(b, show, cn);
      SumOnOtherDates(b, show, dt);
      SumOnOtherDates(b, show, dn);
    }
  }

  /** As written, the first three lines agree with the corrected table and the
      fourth line's count does too; its per-1k figure is that of the total
      deaths, which differs whenever total and new deaths differ. */
  lemma StatsAsWrittenDiffers(rows: seq<GroupRow>, show: int)
    ensures StatsAsWritten(rows, show)[..3] == Stats(rows, show)[..3]
    ensures StatsAsWritten(rows, show)[3].count == Stats(rows, show)[3].count
    ensures StatsAsWritten(rows, show)[3].per1k == Stats(rows, show)[2].per1k
    ensures StatsAsWritten(rows, show) == Stats(rows, show) <==>
      SumOn(rows, show, (r: GroupRow) => r.deathsTot) == SumOn(rows, show, (r: GroupRow) => r.deathsNew)
  {
  }

  /** One country with 10 deaths in all, 2 of them new, and 1000 people: the
      table shows 2 new deaths at 10 per 1k people instead of 2. */
  lemma StatsAsWrittenCounterexample()
    ensures var rows := [GroupRow("France", 0, 1000, 50, 5, 10, 2)];
      && StatsAsWritten(rows, 0)[3] == Stat(2, Per1k(10000, 1000))
      && Stats(rows, 0)[3] == Stat(2, Per1k(2000, 1000))
  {
    var rows := [GroupRow("France", 0, 1000, 50, 5, 10, 2)];
    assert rows[1..] == [];
  }

  // ---------------------------------------------------------------- the plotted variable

  datatype Measure = Cases | Deaths
  datatype Span = Tot | New
  datatype Scale = Abs | Rel

  /** A column of `df_jhu`/`df_who`: a measure, over a span, at a scale. */
  datatype Column = Column(measure: Measure, span: Span, scale: Scale)

  /** The column's name in the frame. */
  function Label(c: Column): string {
    match c
    case Column(Cases, Tot, Abs) => "Cases_Tot_Abs"
    case Column(Cases, New, Abs) => "Cases_New_Abs"
    case Column(Cases, Tot, Rel) => "Cases_Tot_Rel"
    case Column(Cases, New, Rel) => "Cases_New_Rel"
    case Column(Deaths, Tot, Abs) => "Deaths_Tot_Abs"
    case Column(Deaths, New, Abs) => "Deaths_New_Abs"
    case Column(Deaths, Tot, Rel) => "Deaths_Tot_Rel"
    case Column(Deaths, New, Rel) => "Deaths_New_Rel"
  }

  /** `plot_var`, in source order (line 489 of COVID-19.py, 407 of COVID-19_WHO.py). */
  const PlotVar: seq<Column> := [
    Column(Cases, Tot, Abs), Column(Cases, New, Abs), Column(Cases, Tot, Rel), Column(Cases, New, Rel),
    Column(Deaths, Tot, Abs), Column(Deaths, New, Abs), Column(Deaths, Tot, Rel), Column(Deaths, New, Rel)]

  /** Base-2 reading of a string of '0' and '1'. */
  function BinaryValue(bits: string): nat
    requires forall i :: 0 <= i < |bits| ==> bits[i] == '0' || bits[i] == '1'
  {
    if bits == [] then 0
    else 2 * BinaryValue(bits[..|bits| - 1]) + (if bits[|bits| - 1] == '1' then 1 else 0)
  }

  function Bit(b: nat): char
    requires b <= 1
  {
    if b == 1 then '1' else '0'
  }

  /** Lines 434 and 546 of COVID-19.py: `int(str(cases_deaths) + str(abs_rel) +
      str(tot_new), 2)`, each radio group's `active` being 0 or 1. */
  function SelVar(cd: nat, ar: nat, tn: nat): nat
    requires cd <= 1 && ar <= 1 && tn <= 1
  {
    BinaryValue([Bit(cd), Bit(ar), Bit(tn)])
  }

  /** The decode is 4 * cases_deaths + 2 * abs_rel + tot_new, in 0..7. */
  lemma SelVarValue(cd: nat, ar: nat, tn: nat)
    requires cd <= 1 && ar <= 1 && tn <= 1
    ensures SelVar(cd, ar, tn) == 4 * cd + 2 * ar + tn < 8
  {
    var bits := [Bit(cd), Bit(ar), Bit(tn)];
    assert bits[..2][..1] == [Bit(cd)];
    assert bits[..2] == [Bit(cd), Bit(ar)];
    assert BinaryValue([Bit(cd)]) == cd by {
      assert [Bit(cd)][..0] == [];
    }
  }

  /** `plot_var` at the decode names deaths exactly when the first group says
      so, per 1k people exactly when the second does, and new counts exactly
      when the third does. */
  lemma SelVarChoosesColumn(cd: nat, ar: nat, tn: nat)
    requires cd <= 1 && ar <= 1 && tn <= 1
    ensures SelVar(cd, ar, tn) < 8
    ensures PlotVar[SelVar(cd, ar, tn)] ==
      Column(if cd == 1 then Deaths else Cases, if tn == 1 then New else Tot, if ar == 1 then Rel else Abs)
  {
    SelVarValue(cd, ar, tn);
    PlotVarColumn(4 * cd + 2 * ar + tn);
  }

  /** The eight entries of `plot_var`, read off bit by bit. */
  lemma PlotVarColumn(v: nat)
    requires v < 8
    ensures PlotVar[v] ==
      Column(if v / 4 == 1 then Deaths else Cases, if v % 2 == 1 then New else Tot, if v / 2 % 2 == 1 then Rel else Abs)
  {
  }

  /** Each of the eight settings picks a different variable, and every variable
      is picked by one setting. */
  lemma SelVarBijective(cd: nat, ar: nat, tn: nat, cd2: nat, ar2: nat, tn2: nat, v: nat)
    requires cd <= 1 && ar <= 1 && tn <= 1 && cd2 <= 1 && ar2 <= 1 && tn2 <= 1
    ensures SelVar(cd, ar, tn) == SelVar(cd2, ar2, tn2) ==> cd == cd2 && ar == ar2 && tn == tn2
    ensures v < 8 ==> SelVar(v / 4, v / 2 % 2, v % 2) == v
  {
    SelVarValue(cd, ar, tn);
    SelVarValue(cd2, ar2, tn2);
    if v < 8 {
      SelVarValue(v / 4, v / 2 % 2, v % 2);
    }
  }

  // ---------------------------------------------------------------- play / pause

  /** The date slider and the Play/Pause button (COVID-19.py:464-484,
      COVID-19_WHO.py:353-371). The button's label is '► Play' when `playing`
      is false and '❚❚ Pause' when it is true; dates are day numbers. */
  class Player {
    const first: int
    const last: int
    var value: int
    var playing: bool

    /** The slider stays within its range, and a running animation has a day
        left to show. */
    predicate Valid()
      reads this
    {
      first <= value <= last && (playing ==> value < last)
    }

    /** The slider starts on the last date (`value = last_dt`), paused. */
    constructor (first: int, last: int)
      requires first <= last
      ensures this.first == first && this.last == last
      ensures value == last && !playing
      ensures Valid()
    {
      this.first := first;
      this.last := last;
      value := last;
      playing := false;
    }

    /** `animate`: Play starts the animation, first rewinding to the first date
        when the slider stands on the last; Pause stops it. */
    method Animate()
      modifies this
      ensures playing == !old(playing)
      ensures value == if !old(playing) && old(value) == last then first else old(value)
      ensures old(Valid()) && first < last ==> Valid()
    {
      if !playing {
        if value == last {
          value := first;
        }
        playing := true;
      } else {
        playing := false;
      }
    }

    /** `animate_update`, the periodic callback while playing: one day on, and
        a pause on reaching the last date. */
    method AnimateUpdate()
      requires playing
      modifies this
      ensures value == old(value) + 1
      ensures playing == (value != last)
      ensures old(Valid()) ==> Valid()
    {
      value := value + 1;
      if value == last {
        Animate();
      }
    }
  }
}
