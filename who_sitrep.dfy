/** One WHO situation report, as the three PDF updaters read it
    (COVID-19_WHO_New.py, COVID-19_WHO_Update.py, COVID-19_WHO_Update2.py): the
    file name of the report of a day, the choice of table layout by report
    number, the extraction of (country, cases, deaths) rows from the tables
    tabula found, the renaming of countries, and the totals printed in the
    report. */
module WhoSitrep {
  import opened Wrappers
  import opened Text
  import opened Patterns
  import opened Frames

  /** The three updaters: `New` and `Update` read reports 14 on, `Update2` the
      reports from 102 on, whose tables have another shape. Only the updaters
      check the report's totals. */
  datatype Script = New | Update | Update2

  /** A row of the day's table once extracted and cleaned. */
  datatype Entry = Entry(country: string, cases: int, deaths: int)

  predicate EndsWith(s: string, x: string) {
    |x| <= |s| && s[|s| - |x|..] == x
  }

  // ---------------------------------------------------------------- file names

  /** The end of a report's file name: ".pdf" files were renamed from
      "-ncov" to "-covid-19" from report 24 on. */
  function SitrepSuffix(rep: int): string {
    if rep >= 24 then "-covid-19.pdf" else "-ncov.pdf"
  }

  /** `who_file` of the `New` and `Update` loops: the day as `%Y%m%d`
      (`stamp`), "-sitrep-", the report number, and the suffix. */
  function SitrepFile(stamp: string, rep: int): (name: string)
    ensures StartsWith(name, stamp + "-sitrep-")
    ensures EndsWith(name, "-covid-19.pdf") <==> rep >= 24
    ensures EndsWith(name, "-ncov.pdf") <==> rep < 24
  {
    var name := stamp + "-sitrep-" + IntToString(rep) + SitrepSuffix(rep);
    assert name[..|stamp + "-sitrep-"|] == stamp + "-sitrep-";
    SuffixDecides(name, rep);
    name
  }

  /** A name ending in one suffix does not end in the other. */
  lemma SuffixDecides(name: string, rep: int)
    requires EndsWith(name, SitrepSuffix(rep))
    ensures EndsWith(name, "-covid-19.pdf") <==> rep >= 24
    ensures EndsWith(name, "-ncov.pdf") <==> rep < 24
  {
    var n := |name|;
    if rep >= 24 {
      assert name[n - 9] == name[n - 13..][4] == 'i';
      assert !EndsWith(name, "-ncov.pdf") by {
        assert name[n - 9..][0] == name[n - 9];
      }
    } else {
      assert name[n - 9] == name[n - 9..][0] == '-';
      assert !EndsWith(name, "-covid-19.pdf") by {
        if 13 <= n {
          assert name[n - 13..][4] == name[n - 9];
        }
      }
    }
  }

  /** The report number can be read back from the file name. */
  lemma SitrepFileNumber(stamp: string, rep: int)
    ensures var name := SitrepFile(stamp, rep);
      ParseInt(name[|stamp| + 8..|name| - |SitrepSuffix(rep)|]) == Ok(rep)
  {
    var name := SitrepFile(stamp, rep);
    var num := IntToString(rep);
    assert name == stamp + "-sitrep-" + num + SitrepSuffix(rep);
    assert name[|stamp| + 8..|name| - |SitrepSuffix(rep)|] == num;
    IntToStringRoundTrip(rep);
  }

  /** `who_file` of `Update2`: a report before 102 stops the program. */
  function Update2File(stamp: string, rep: int): (r: Result<string>)
    ensures r.Ok? <==> rep >= 102
    ensures r.Ok? ==> StartsWith(r.value, stamp + "-covid-19-sitrep-") && EndsWith(r.value, ".pdf")
  {
    if rep >= 102 then
      var name := stamp + "-covid-19-sitrep-" + IntToString(rep) + ".pdf";
      assert name[..|stamp + "-covid-19-sitrep-"|] == stamp + "-covid-19-sitrep-";
      assert name[|name| - 4..] == ".pdf";
      Ok(name)
    else
      Err("This update code should not be used for reports below 102!")
  }

  lemma Update2FileNumber(stamp: string, rep: int)
    requires rep >= 102
    ensures var name := Update2File(stamp, rep).value;
      ParseInt(name[|stamp| + 17..|name| - 4]) == Ok(rep)
  {
    var name := Update2File(stamp, rep).value;
    var num := IntToString(rep);
    assert name == stamp + "-covid-19-sitrep-" + num + ".pdf";
    assert name[|stamp| + 17..|name| - 4] == num;
    IntToStringRoundTrip(rep);
  }

  // ---------------------------------------------------------------- layouts

  /** The table layouts the `New` and `Update` scripts know, named after the
      reports that use them. */
  datatype Layout =
    | From42    // 42 on
    | Few39     // 39 to 41: only three columns are kept
    | Report38  // 38: two of the tables are cut separately
    | Report31  // 31: the cases are run into the country name
    | From30    // 30 and 32 to 37
    | From25    // 25 to 29
    | From23    // 23 and 24
    | Report17  // 17
    | From14    // 14 to 16 and 18 to 22

  /** The `if new_rep >= 42 ... elif ...` chain. */
  function LayoutOf(rep: int): (r: Result<Layout>)
    ensures r.Err? <==> rep < 14
  {
    if rep >= 42 then Ok(From42)
    else if rep >= 39 then Ok(Few39)
    else if rep == 38 then Ok(Report38)
    else if rep == 31 then Ok(Report31)
    else if rep >= 30 then Ok(From30)
    else if rep >= 25 then Ok(From25)
    else if rep >= 23 then Ok(From23)
    else if rep == 17 then Ok(Report17)
    else if rep >= 14 then Ok(From14)
    else Err("Not programmed to extract this report")
  }

  /** The reports each layout is for, as the comments of the chain list them. */
  predicate Covers(l: Layout, rep: int) {
    match l
    case From42 => 42 <= rep
    case Few39 => 39 <= rep <= 41
    case Report38 => rep == 38
    case Report31 => rep == 31
    case From30 => rep == 30 || 32 <= rep <= 37
    case From25 => 25 <= rep <= 29
    case From23 => 23 <= rep <= 24
    case Report17 => rep == 17
    case From14 => 14 <= rep <= 16 || 18 <= rep <= 22
  }

  /** The chain picks a layout exactly for the reports that layout is listed
      for; since a function has one value, each report from 14 on gets exactly
      one layout. */
  lemma LayoutOfCovers(rep: int, l: Layout)
    ensures LayoutOf(rep) == Ok(l) <==> Covers(l, rep)
  {
  }

  /** No report is listed for two layouts, and every report from 14 on is
      listed for one. */
  lemma CoversPartition(rep: int, l: Layout, m: Layout)
    ensures Covers(l, rep) && Covers(m, rep) ==> l == m
    ensures rep >= 14 ==> Covers(LayoutOf(rep).value, rep)
  {
    LayoutOfCovers(rep, l);
    LayoutOfCovers(rep, m);
    if rep >= 14 {
      LayoutOfCovers(rep, LayoutOf(rep).value);
    }
  }

  /** `Update2` knows a single layout, that of report 42 on. */
  function Update2Layout(rep: int): (r: Result<Layout>)
    ensures r.Ok? <==> rep >= 102
    ensures r.Ok? ==> r.value == From42
  {
    if rep >= 102 then Ok(From42) else Err("Not programmed to extract this report")
  }

  // ---------------------------------------------------------------- extraction

  const ParenStrip: Rule := Rule(Enclosed('(', ')'), "")
  const BracketStrip: Rule := Rule(Enclosed('[', ']'), "")
  const NumberStrip: Rule := Rule(TrailingNumber, "")

  /** tabula's output: well-formed tables. */
  predicate Tables(tabs: seq<Frame>) {
    forall t :: 0 <= t < |tabs| ==> WellFormed(tabs[t])
  }

  /** `pd.concat(tab_who)`, columns from the eighth on dropped, then the
      bracketed notes removed from every cell; `Update2` removes only the
      square-bracketed ones here. */
  function Prepared(script: Script, tabs: seq<Frame>): (f: Frame)
    requires Tables(tabs)
    ensures WellFormed(f) && |f.labels| <= 7
    ensures |f.rows| == RowCount(tabs)
  {
    var all := Concat(tabs);
    ConcatRowCount(tabs, all.labels);
    var df := KeepFirst(all, 7);
    ReplaceCells(if script == Update2 then df else ReplaceCells(df, ParenStrip), BracketStrip)
  }

  /** What the preparation makes of one cell: the round-bracketed notes removed
      (except by `Update2`), then the square-bracketed ones. */
  function NotesStripped(script: Script, c: Cell): Cell {
    match c
    case None => None
    case Some(s) => Some(Apply(BracketStrip, if script == Update2 then s else Apply(ParenStrip, s)))
  }

  /** The prepared frame holds the first seven columns of the concatenation,
      labels and cells, each cell with its notes removed. */
  lemma PreparedMeaning(script: Script, tabs: seq<Frame>)
    requires Tables(tabs)
    ensures var all := Concat(tabs); var f := Prepared(script, tabs);
      && f.labels == all.labels[..|f.labels|]
      && |f.labels| == (if |all.labels| < 7 then |all.labels| else 7)
      && |f.rows| == |all.rows|
      && forall i, j :: 0 <= i < |f.rows| && 0 <= j < |f.labels| ==>
           f.rows[i][j] == NotesStripped(script, all.rows[i][j])
  {
  }

  /** The column positions each plain layout drops. */
  function Dropped(l: Layout): set<nat> {
    match l
    case From42 => {2, 4, 5, 6}
    case From30 => {2, 3, 4}
    case From25 => {1, 3, 4, 5}
    case From23 => {0, 3, 4}
    case Report17 => {1, 3, 4, 5}
    case From14 => {0, 3}
    case _ => {}
  }

  /** The layout's branch: `df` is the prepared frame, `tabs` the tables as
      tabula returned them (reports 38 and 31 go back to them). */
  function Extract(l: Layout, tabs: seq<Frame>, df: Frame): (r: Result<Frame>)
    requires Tables(tabs) && WellFormed(df)
    ensures r.Ok? ==> WellFormed(r.value)
  {
    match l
    case Few39 => Ok(KeepFirst(df, 3))
    case Report38 => Report38Frame(tabs)
    case Report31 => Report31Frame(tabs)
    case _ => DropPositions(df, Dropped(l))
  }

  /** The cut of reports 42 on, on a frame of seven columns: columns 2, 4, 5 and
      6 go, leaving the name, the cases and the deaths in that order. */
  lemma From42Cut(f: Frame)
    requires WellFormed(f) && |f.labels| == 7
    ensures DropPositions(f, Dropped(From42)).Ok?
    ensures var g := DropPositions(f, Dropped(From42)).value;
      && g.labels == [f.labels[0], f.labels[1], f.labels[3]]
      && |g.rows| == |f.rows|
      && forall i :: 0 <= i < |f.rows| ==> g.rows[i] == [f.rows[i][0], f.rows[i][1], f.rows[i][3]]
  {
    forall i | 0 <= i < |f.rows| ensures Without(f.rows[i], {2, 4, 5, 6}) == [f.rows[i][0], f.rows[i][1], f.rows[i][3]] {
      WithoutFrom42(f.rows[i]);
    }
    WithoutFrom42(f.labels);
  }

  lemma WithoutFrom42<T>(xs: seq<T>)
    requires |xs| == 7
    ensures Without(xs, {2, 4, 5, 6}) == [xs[0], xs[1], xs[3]]
  {
    var ps: set<nat> := {2, 4, 5, 6};
    assert xs[..0] == [];
    WithoutSnoc(xs, ps, 0);
    WithoutSnoc(xs, ps, 1);
    WithoutSnoc(xs, ps, 2);
    WithoutSnoc(xs, ps, 3);
    WithoutSnoc(xs, ps, 4);
    WithoutSnoc(xs, ps, 5);
    WithoutSnoc(xs, ps, 6);
    assert xs[..7] == xs;
  }

  /** The layout the script picks for a report. */
  function LayoutFor(script: Script, rep: int): Result<Layout> {
    if script == Update2 then Update2Layout(rep) else LayoutOf(rep)
  }

  /** From report 42 on (`Update2`: 102 on), a prepared frame of seven columns
      is cut to its name, cases and deaths columns. */
  lemma From42Extract(script: Script, rep: int, tabs: seq<Frame>)
    requires Tables(tabs) && |Prepared(script, tabs).labels| == 7
    requires if script == Update2 then rep >= 102 else rep >= 42
    ensures var f := Prepared(script, tabs);
      && LayoutFor(script, rep) == Ok(From42)
      && Extract(From42, tabs, f) == DropPositions(f, {2, 4, 5, 6})
      && Extract(From42, tabs, f).Ok?
      && Extract(From42, tabs, f).value.labels == [f.labels[0], f.labels[1], f.labels[3]]
  {
    From42Cut(Prepared(script, tabs));
  }

  /** Report 38: the third table loses columns 2 to 4 and the fourth columns 2
      to 5, then all tables are concatenated again and the bracketed notes
      removed (the first seven columns are not selected this time). */
  function Report38Frame(tabs: seq<Frame>): (r: Result<Frame>)
    requires Tables(tabs)
    ensures r.Ok? ==> WellFormed(r.value)
    ensures r.Ok? <==> |tabs| >= 4 && 4 < |tabs[2].labels| && 5 < |tabs[3].labels|
    ensures r.Ok? ==> |r.value.rows| == RowCount(tabs)
  {
    if |tabs| < 4 then Err("IndexError: list index out of range")
    else
      match DropPositions(tabs[2], {2, 3, 4})
      case Err(e) => Err(e)
      case Ok(t2) =>
        match DropPositions(tabs[3], {2, 3, 4, 5})
        case Err(e) => Err(e)
        case Ok(t3) =>
          var cut := tabs[2 := t2][3 := t3];
          Report38Rows(tabs, cut);
          ConcatRowCount(cut, Concat(cut).labels);
          Ok(ReplaceCells(ReplaceCells(Concat(cut), ParenStrip), BracketStrip))
  }

  lemma {:induction false} Report38Rows(tabs: seq<Frame>, cut: seq<Frame>)
    requires |tabs| == |cut| && forall t :: 0 <= t < |tabs| ==> |cut[t].rows| == |tabs[t].rows|
    ensures RowCount(cut) == RowCount(tabs)
  {
    if tabs != [] {
      Report38Rows(tabs[1..], cut[1..]);
    }
  }

  /** `rsplit(' ', 1)` of one cell: the text before and after its last space;
      without a space the whole text and a missing value. */
  function SplitCell(c: Cell): (r: (Cell, Cell))
    ensures c.None? ==> r == (None, None)
    ensures r.1.Some? ==> c.Some? && r.0.Some? && r.0.value + " " + r.1.value == c.value && ' ' !in r.1.value
    ensures c.Some? && r.1.None? ==> r.0 == c && ' ' !in c.value
  {
    match c
    case None => (None, None)
    case Some(s) =>
      var (a, b) := SplitLast(s, ' ');
      (Some(a), b)
  }

  /** Report 31: the second table, its round-bracketed notes removed in place,
      its first column split at the last space into country and cases, and
      its column labelled 4 as the deaths. `expand=True` makes one column of
      the split when no cell holds a space. */
  function Report31Frame(tabs: seq<Frame>): (r: Result<Frame>)
    requires Tables(tabs)
    ensures r.Ok? ==> WellFormed(r.value)
    ensures r.Ok? <==> |tabs| >= 2 && |tabs[1].labels| > 0 && 4 in tabs[1].labels
  {
    if |tabs| < 2 then Err("IndexError: list index out of range")
    else
      var t := ReplaceCells(tabs[1], ParenStrip);
      if |t.labels| == 0 then Err("IndexError: index 0 is out of bounds")
      else
        match ColumnByLabel(t, 4)
        case Err(e) => Err(e)
        case Ok(deaths) =>
          var parts := seq(|t.rows|, i requires 0 <= i < |t.rows| => SplitCell(t.rows[i][0]));
          if exists i :: 0 <= i < |parts| && parts[i].1.Some? then
            Ok(Frame([0, 1, 2], seq(|t.rows|, i requires 0 <= i < |t.rows| => [parts[i].0, parts[i].1, deaths[i]])))
          else
            Ok(Frame([0, 2], seq(|t.rows|, i requires 0 <= i < |t.rows| => [parts[i].0, deaths[i]])))
  }

  /** For report 31, where a cell was split, the country, a space and the
      cases give back the cell (after its notes were removed). */
  lemma Report31Reconstructs(tabs: seq<Frame>, i: nat)
    requires Tables(tabs) && Report31Frame(tabs).Ok?
    requires i < |Report31Frame(tabs).value.rows|
    requires Report31Frame(tabs).value.labels == [0, 1, 2]
    ensures var row := Report31Frame(tabs).value.rows[i];
      var cell := ReplaceCells(tabs[1], ParenStrip).rows[i][0];
      row[1].Some? ==> row[0].Some? && cell.Some? && row[0].value + " " + row[1].value == cell.value
  {
  }

  /** Report 31's frame, row by row: the country (and the cases, where the
      split made a second column) come from the first cell of the second table
      with its notes removed, the deaths from that table's column labelled 4;
      the split column exists exactly when some cell held a space. */
  lemma Report31Meaning(tabs: seq<Frame>)
    requires Tables(tabs) && Report31Frame(tabs).Ok?
    ensures var t := ReplaceCells(tabs[1], ParenStrip); var g := Report31Frame(tabs).value;
      && |g.rows| == |tabs[1].rows|
      && (g.labels == [0, 1, 2] <==> exists i :: 0 <= i < |t.rows| && SplitCell(t.rows[i][0]).1.Some?)
      && (g.labels == [0, 1, 2] || g.labels == [0, 2])
      && forall i :: 0 <= i < |g.rows| ==>
           && g.rows[i][0] == SplitCell(t.rows[i][0]).0
           && g.rows[i][|g.labels| - 1] == t.rows[i][Position(t.labels, 4).value]
           && (g.labels == [0, 1, 2] ==> g.rows[i][1] == SplitCell(t.rows[i][0]).1)
  {
    var t := ReplaceCells(tabs[1], ParenStrip);
    var parts := seq(|t.rows|, i requires 0 <= i < |t.rows| => SplitCell(t.rows[i][0]));
    if exists i :: 0 <= i < |t.rows| && SplitCell(t.rows[i][0]).1.Some? {
      var i :| 0 <= i < |t.rows| && SplitCell(t.rows[i][0]).1.Some?;
      assert parts[i].1.Some?;
    } else {
      assert forall i :: 0 <= i < |parts| ==> parts[i].1.None?;
    }
  }

  // ---------------------------------------------------------------- cleaning

  /** A row worth keeping: numbers in the second and third columns and no
      missing cell. */
  predicate Survives(row: seq<Cell>) {
    NumericAt(row, 1) && NumericAt(row, 2) && Complete(row)
  }

  /** Lines 131-135 of COVID-19_WHO_New.py: trailing footnote numbers removed
      from every cell, then the rows kept whose second and third columns are
      numeric and that have no missing cell. */
  function Clean(f: Frame): (r: Result<Frame>)
    requires WellFormed(f)
    ensures r.Ok? <==> |f.labels| > 2
    ensures r.Ok? ==> WellFormed(r.value) && r.value.labels == f.labels
  {
    var g := ReplaceCells(f, NumberStrip);
    match KeepNumeric(g, 1)
    case Err(e) => Err(e)
    case Ok(h) =>
      match KeepNumeric(h, 2)
      case Err(e) => Err(e)
      case Ok(k) => Ok(DropNa(k))
  }

  /** The rows that survive cleaning are exactly the footnote-stripped rows
      with numeric counts and no missing cell. */
  lemma CleanMeaning(f: Frame, row: seq<Cell>)
    requires WellFormed(f) && Clean(f).Ok?
    ensures row in Clean(f).value.rows <==> row in ReplaceCells(f, NumberStrip).rows && Survives(row)
    ensures Subsequence(Clean(f).value.rows, ReplaceCells(f, NumberStrip).rows)
    ensures multiset(Clean(f).value.rows)[row] ==
      if Survives(row) then multiset(ReplaceCells(f, NumberStrip).rows)[row] else 0
  {
    var g := ReplaceCells(f, NumberStrip);
    var h := KeepNumeric(g, 1).value;
    var k := KeepNumeric(h, 2).value;
    KeepNumericKeeps(g, 1);
    KeepNumericKeeps(h, 2);
    DropNaKeeps(k);
    SubsequenceTrans(k.rows, h.rows, g.rows);
    SubsequenceTrans(DropNa(k).rows, k.rows, g.rows);
  }

  /** The text of a cell; a missing value has none. */
  function CellText(c: Cell): string {
    match c case None => "" case Some(s) => s
  }

  /** The rows of a cleaned frame, read as entries: the first cell is the
      country, the second and third are converted with `astype(int)`, which
      fails on a number that is not an integer. */
  function Entries(f: Frame): (r: Result<seq<Entry>>)
    requires WellFormed(f) && |f.labels| > 2
    ensures r.Ok? <==> forall i :: 0 <= i < |f.rows| ==>
      IsIntLiteral(CellText(f.rows[i][1])) && IsIntLiteral(CellText(f.rows[i][2]))
    ensures r.Ok? ==> |r.value| == |f.rows| && forall i :: 0 <= i < |f.rows| ==>
      && r.value[i].country == CellText(f.rows[i][0])
      && ParseInt(CellText(f.rows[i][1])) == Ok(r.value[i].cases)
      && ParseInt(CellText(f.rows[i][2])) == Ok(r.value[i].deaths)
  {
    if forall i :: 0 <= i < |f.rows| ==> IsIntLiteral(CellText(f.rows[i][1])) && IsIntLiteral(CellText(f.rows[i][2])) then
      Ok(seq(|f.rows|, i requires 0 <= i < |f.rows| =>
        Entry(CellText(f.rows[i][0]), IntValue(CellText(f.rows[i][1])), IntValue(CellText(f.rows[i][2])))))
    else
      Err("ValueError: invalid literal for int()")
  }

  /** Everything from the prepared frame to the typed entries, before the
      countries are renamed. */
  function Extracted(script: Script, rep: int, tabs: seq<Frame>): (r: Result<seq<Entry>>)
    requires Tables(tabs)
    ensures script != Update2 && rep < 14 ==> r.Err?
    ensures script == Update2 && rep < 102 ==> r.Err?
  {
    match LayoutFor(script, rep)
    case Err(e) => Err(e)
    case Ok(l) =>
      match Extract(l, tabs, Prepared(script, tabs))
      case Err(e) => Err(e)
      case Ok(g) =>
        match Clean(g)
        case Err(e) => Err(e)
        case Ok(h) => Entries(h)
  }

  /** The entries of a report, in the order of its table: one per row that
      survives cleaning the frame the report's layout extracts, with that
      row's country and its counts read as integers. */
  lemma ExtractedMeaning(script: Script, rep: int, tabs: seq<Frame>)
    requires Tables(tabs) && Extracted(script, rep, tabs).Ok?
    ensures LayoutFor(script, rep).Ok?
    ensures var g := Extract(LayoutFor(script, rep).value, tabs, Prepared(script, tabs));
      && g.Ok? && Clean(g.value).Ok?
      && var rows := Clean(g.value).value.rows; var es := Extracted(script, rep, tabs).value;
      && Subsequence(rows, ReplaceCells(g.value, NumberStrip).rows)
      && (forall row :: row in rows <==> row in ReplaceCells(g.value, NumberStrip).rows && Survives(row))
      && |es| == |rows|
      && forall i :: 0 <= i < |es| ==>
           && es[i].country == CellText(rows[i][0])
           && ParseInt(CellText(rows[i][1])) == Ok(es[i].cases)
           && ParseInt(CellText(rows[i][2])) == Ok(es[i].deaths)
  {
    var g := Extract(LayoutFor(script, rep).value, tabs, Prepared(script, tabs)).value;
    CleanMeaning(g, []);
    forall row ensures row in Clean(g).value.rows <==> row in ReplaceCells(g, NumberStrip).rows && Survives(row) {
      CleanMeaning(g, row);
    }
  }

  /** `df_who.fillna(0)` after `dropna()`: a frame without missing values is
      left as it is, which is why a country the report lacks still gets a
      missing value in the database. */
  function FillNa(f: Frame): (r: Frame)
    requires WellFormed(f)
    ensures WellFormed(r) && r.labels == f.labels && |r.rows| == |f.rows|
  {
    Frame(f.labels, seq(|f.rows|, i requires 0 <= i < |f.rows| =>
      seq(|f.rows[i]|, j requires 0 <= j < |f.rows[i]| =>
        if f.rows[i][j].None? then Some("0") else f.rows[i][j])))
  }

  lemma FillNaAfterClean(f: Frame)
    requires WellFormed(f) && Clean(f).Ok?
    ensures FillNa(Clean(f).value) == Clean(f).value
  {
    var c := Clean(f).value;
    forall i | 0 <= i < |c.rows| ensures FillNa(c).rows[i] == c.rows[i] {
      CleanMeaning(f, c.rows[i]);
    }
  }

  // ---------------------------------------------------------------- renaming

  /** The chain of `New` (lines 144-168) and, statement for statement, of
      `Update` (lines 143-167), in pieces of a few statements: first the
      clean-up of stray characters, */
  const SitrepCleanup: seq<Rule> := [
    Rule(Literal("’"), "'"),
    Rule(Literal("\r"), " "),
    Rule(TrailingNonWord, "")
  ]

  /** then the renames, */
  const SitrepNamesA: seq<Rule> := [
    Rule(Prefix("Bahamas"), "The Bahamas"),
    Rule(Literal("Bonaire, Sint Eustatius and Saba"), "Caribbean Netherlands"),
    Rule(Literal("Brunei Darussalam"), "Brunei"),
    Rule(Prefix("Congo"), "Republic of the Congo"),
    Rule(UpTo("Ivoire"), "Ivory Coast")
  ]

  const SitrepNamesB: seq<Rule> := [
    Rule(Literal("Holy See"), "Vatican"),
    Rule(Literal("Eswatini"), "eSwatini"),
    Rule(PrefixLine("Lao"), "Laos"),
    Rule(Literal("occupied Palestinian territory"), "Palestine"),
    Rule(Around("Mariana"), "Northern Mariana Islands")
  ]

  const SitrepNamesC: seq<Rule> := [
    Rule(Literal("Republic of Korea"), "South Korea"),
    Rule(Literal("Republic of Moldova"), "Moldova"),
    Rule(Literal("Russian Federation"), "Russia"),
    Rule(Literal("Saint Barthélemy"), "Saint Barthelemy")
  ]

  const SitrepNamesD: seq<Rule> := [
    Rule(From("Serbi"), "Republic of Serbia"),
    Rule(Literal("Syrian Arab Republic"), "Syria"),
    Rule(Literal("Timor-Leste"), "East Timor")
  ]

  const SitrepHead: seq<Rule> := SitrepCleanup + SitrepNamesA + SitrepNamesB + SitrepNamesC + SitrepNamesD

  /** then the two rules for the United Kingdom, and two more renames. */
  const UnitedRule: Rule := Rule(Literal("The United"), "United")
  const KingdomRule: Rule := Rule(Prefix("Kingdom"), "United Kingdom")
  const SitrepTail: seq<Rule> := [
    Rule(Literal("Viet Nam"), "Vietnam"),
    Rule(Around("conveyance"), "Diamond Princess")
  ]

  const SitrepRules: seq<Rule> := SitrepHead + [UnitedRule, KingdomRule] + SitrepTail

  /** The chain of `Update2` (lines 117-142), run after the Congo rows are told
      apart. */
  const OfRule: Rule := Rule(PrefixLine("of"), "Venezula")
  const RepublicRule: Rule := Rule(Whole("Republic"), "Laos")
  const Update2Rules: seq<Rule> := [
    Rule(UpTo("Ivoire"), "Ivory Coast"),
    Rule(Literal("Eswatini"), "eSwatini"),
    OfRule,
    Rule(Prefix("Bahamas"), "The Bahamas"),
    Rule(Prefix("Grenadines"), "Saint Vincent and the Grenadines"),
    Rule(Prefix("Saba"), "Caribbean Netherlands"),
    Rule(Literal("Saint Barthélemy"), "Saint Barthelemy"),
    Rule(Literal("Syrian Arab Republic"), "Syria"),
    Rule(Literal("occupied Palestinian territory"), "Palestine"),
    Rule(Literal("The United Kingdom"), "United Kingdom"),
    Rule(Literal("Russian Federation"), "Russia"),
    Rule(Literal("Serbia"), "Republic of Serbia"),
    Rule(Literal("Republic of Moldova"), "Moldova"),
    Rule(Literal("Holy See"), "Vatican"),
    Rule(Literal("Timor-Leste"), "East Timor"),
    Rule(Literal("Republic of Korea"), "South Korea"),
    Rule(Literal("Viet Nam"), "Vietnam"),
    Rule(Literal("Brunei Darussalam"), "Brunei"),
    RepublicRule,
    Rule(Around("Commonwealth"), "Northern Mariana Islands"),
    Rule(Prefix("Other"), "Diamond Princess"),
    ParenStrip,
    Rule(Literal("’"), "'"),
    Rule(Literal("\r"), " "),
    Rule(TrailingNonWord, "")
  ]

  function Countries(es: seq<Entry>): (names: seq<string>)
    ensures |names| == |es| && forall i :: 0 <= i < |es| ==> names[i] == es[i].country
  {
    seq(|es|, i requires 0 <= i < |es| => es[i].country)
  }

  function WithCountries(es: seq<Entry>, names: seq<string>): (r: seq<Entry>)
    requires |names| == |es|
    ensures |r| == |es|
    ensures forall i :: 0 <= i < |es| ==> r[i] == es[i].(country := names[i])
  {
    seq(|es|, i requires 0 <= i < |es| => es[i].(country := names[i]))
  }

  /** The chain's statements run one after the other over the Country column. */
  function Renamed(rules: seq<Rule>, es: seq<Entry>): seq<Entry> {
    StepsAreCellwise(rules, Countries(es));
    WithCountries(es, ColumnSteps(rules, Countries(es)))
  }

  /** Renaming keeps every row and its counts, and rewrites each country from
      its own old name by the whole chain, in order. */
  lemma RenamedCellwise(rules: seq<Rule>, es: seq<Entry>)
    ensures |Renamed(rules, es)| == |es|
    ensures forall i :: 0 <= i < |es| ==>
      Renamed(rules, es)[i] == Entry(ApplyAll(rules, es[i].country), es[i].cases, es[i].deaths)
  {
    StepsAreCellwise(rules, Countries(es));
  }

  /** What the rules before the two about the United Kingdom see of both
      forms of its name: a last letter and the letters used. */
  predicate KingdomLike(s: string) {
    |s| > 0 && s[|s| - 1] == 'm' &&
    forall i :: 0 <= i < |s| ==> s[i] in {'T', 'h', 'e', ' ', 'U', 'n', 'i', 't', 'd', 'K', 'g', 'o', 'm'}
  }

  lemma KingdomLetters(s: string)
    requires s == "The United Kingdom" || s == "United Kingdom" || s == "Kingdom"
    ensures KingdomLike(s)
  {
  }

  /** None of the rules before the two about the United Kingdom touches such a
      name; each rule's miss is witnessed by a character it needs. */
  lemma SitrepCleanupSpares(s: string)
    requires KingdomLike(s)
    ensures ApplyAll(SitrepCleanup, s) == s
  {
    assert MissesAt(SitrepCleanup[0], s, 0);
    assert MissesAt(SitrepCleanup[1], s, 0);
    assert MissesAt(SitrepCleanup[2], s, 0);
    InertChainBy(SitrepCleanup, s, [0, 0, 0]);
  }

  lemma SitrepNamesASpares(s: string)
    requires KingdomLike(s)
    ensures ApplyAll(SitrepNamesA, s) == s
  {
    assert MissesAt(SitrepNamesA[0], s, 0);
    assert MissesAt(SitrepNamesA[1], s, 0);
    assert MissesAt(SitrepNamesA[2], s, 0);
    assert MissesAt(SitrepNamesA[3], s, 0);
    assert MissesAt(SitrepNamesA[4], s, 0);
    InertChainBy(SitrepNamesA, s, [0, 0, 0, 0, 0]);
  }

  lemma SitrepNamesBSpares(s: string)
    requires KingdomLike(s)
    ensures ApplyAll(SitrepNamesB, s) == s
  {
    assert MissesAt(SitrepNamesB[0], s, 0);
    assert MissesAt(SitrepNamesB[1], s, 0);
    assert MissesAt(SitrepNamesB[2], s, 0);
    assert MissesAt(SitrepNamesB[3], s, 1);
    assert MissesAt(SitrepNamesB[4], s, 0);
    InertChainBy(SitrepNamesB, s, [0, 0, 0, 1, 0]);
  }

  lemma SitrepNamesCSpares(s: string)
    requires KingdomLike(s)
    ensures ApplyAll(SitrepNamesC, s) == s
  {
    assert MissesAt(SitrepNamesC[0], s, 0);
    assert MissesAt(SitrepNamesC[1], s, 0);
    assert MissesAt(SitrepNamesC[2], s, 0);
    assert MissesAt(SitrepNamesC[3], s, 0);
    InertChainBy(SitrepNamesC, s, [0, 0, 0, 0]);
  }

  lemma SitrepNamesDSpares(s: string)
    requires KingdomLike(s)
    ensures ApplyAll(SitrepNamesD, s) == s
  {
    assert MissesAt(SitrepNamesD[0], s, 0);
    assert MissesAt(SitrepNamesD[1], s, 0);
    assert MissesAt(SitrepNamesD[2], s, 4);
    InertChainBy(SitrepNamesD, s, [0, 0, 4]);
  }

  lemma HeadSparesKingdom(s: string)
    requires KingdomLike(s)
    ensures ApplyAll(SitrepHead, s) == s
  {
    var ab := SitrepCleanup + SitrepNamesA;
    var abc := ab + SitrepNamesB;
    var abcd := abc + SitrepNamesC;
    ApplyAllAppend(abcd, SitrepNamesD, s);
    ApplyAllAppend(abc, SitrepNamesC, s);
    ApplyAllAppend(ab, SitrepNamesB, s);
    ApplyAllAppend(SitrepCleanup, SitrepNamesA, s);
    SitrepCleanupSpares(s);
    SitrepNamesASpares(s);
    SitrepNamesBSpares(s);
    SitrepNamesCSpares(s);
    SitrepNamesDSpares(s);
  }

  lemma TailSparesKingdom(s: string)
    requires s == "United Kingdom"
    ensures ApplyAll(SitrepTail, s) == s
  {
    KingdomLetters(s);
    assert MissesAt(SitrepTail[0], s, 0);
    assert MissesAt(SitrepTail[1], s, 0);
    InertChainBy(SitrepTail, s, [0, 0]);
  }

  /** "The United" is rewritten before `^Kingdom` runs, so the report's "The
      United Kingdom" and a "Kingdom" left over from a broken line both end as
      "United Kingdom". */
  lemma KingdomOrder()
    ensures ApplyAll(SitrepRules, "The United Kingdom") == "United Kingdom"
    ensures ApplyAll(SitrepRules, "Kingdom") == "United Kingdom"
  {
    UnitedKingdomKept("The United Kingdom", "United Kingdom");
    KingdomCompleted("Kingdom", "United Kingdom");
  }

  /** The whole chain, seen as its head, the two rules, and its tail. */
  lemma KingdomSplit(s: string)
    ensures ApplyAll(SitrepRules, s) ==
      ApplyAll(SitrepTail, Apply(KingdomRule, Apply(UnitedRule, ApplyAll(SitrepHead, s))))
  {
    var mid := [UnitedRule, KingdomRule];
    ApplyAllAppend(SitrepHead + mid, SitrepTail, s);
    ApplyAllAppend(SitrepHead, mid, s);
    var h := ApplyAll(SitrepHead, s);
    assert ApplyAll(mid, h) == Apply(KingdomRule, Apply(UnitedRule, h)) by {
      assert mid[0] == UnitedRule && mid[1..] == [KingdomRule];
      assert ApplyAll(mid, h) == ApplyAll([KingdomRule], Apply(UnitedRule, h));
      assert [KingdomRule][0] == KingdomRule && [KingdomRule][1..] == [];
    }
  }

  lemma UnitedKingdomKept(s: string, u: string)
    requires s == "The United Kingdom" && u == "United Kingdom"
    ensures ApplyAll(SitrepRules, s) == u
  {
    KingdomSplit(s);
    KingdomLetters(s);
    HeadSparesKingdom(s);
    UnitedRuleDropsThe(s, u);
    assert Apply(KingdomRule, u) == u by {
      NotStartsWith(u, "Kingdom", 0);
    }
    TailSparesKingdom(u);
  }

  lemma UnitedRuleDropsThe(s: string, u: string)
    requires s == "The United Kingdom" && u == "United Kingdom"
    ensures Apply(UnitedRule, s) == u
  {
    assert s == "The United" + " Kingdom";
    ReplaceLeading("The United", " Kingdom", "United");
    assert "United" + " Kingdom" == u;
  }

  lemma KingdomCompleted(k: string, u: string)
    requires k == "Kingdom" && u == "United Kingdom"
    ensures ApplyAll(SitrepRules, k) == u
  {
    KingdomSplit(k);
    KingdomLetters(k);
    HeadSparesKingdom(k);
    assert Apply(UnitedRule, k) == k by {
      AbsentByChar(k, "The United", 0);
      ReplaceAbsent(k, "The United", "United");
    }
    assert Apply(KingdomRule, k) == u;
    TailSparesKingdom(u);
  }

  /** `^of.*` of `Update2` rewrites exactly the names that begin with "of". */
  lemma OfRuleAnchored(s: string)
    ensures Update2Rules[2] == OfRule
    ensures StartsWith(s, "of") ==> Apply(OfRule, s) == "Venezula"
    ensures !StartsWith(s, "of") ==> Apply(OfRule, s) == s
  {
  }

  /** `^Republic$` rewrites only the name "Republic" itself. */
  lemma RepublicRuleExact(s: string)
    ensures Update2Rules[18] == RepublicRule
    ensures s == "Republic" ==> Apply(RepublicRule, s) == "Laos"
    ensures s != "Republic" ==> Apply(RepublicRule, s) == s
  {
  }

  // ---------------------------------------------------------------- the two Congos

  const CongoDrc: string := "Democratic Republic of the Congo"
  const CongoRepublic: string := "Republic of the Congo"

  /** `df_who.index[df_who['Country'] == 'Congo'].tolist()`: the positions of
      the rows named exactly "Congo", in order. */
  function CongoPositions(names: seq<string>): (ps: seq<nat>)
    ensures forall k :: 0 <= k < |ps| ==> ps[k] < |names| && names[ps[k]] == "Congo"
    ensures forall i :: 0 <= i < |names| && names[i] == "Congo" ==> i in ps
    ensures forall k, l :: 0 <= k < l < |ps| ==> ps[k] < ps[l]
  {
    if names == [] then []
    else
      var n := |names| - 1;
      var init := CongoPositions(names[..n]);
      assert forall k :: 0 <= k < |init| ==> names[init[k]] == names[..n][init[k]];
      init + (if names[n] == "Congo" then [n] else [])
  }

  /** Lines 113-115 of COVID-19_WHO_Update2.py: the report lists the two
      Congos under the same name, the Democratic Republic first. With fewer
      than two such rows, indexing the list fails. */
  function ResolveCongo(names: seq<string>): (r: Result<seq<string>>)
    ensures r.Ok? <==> |CongoPositions(names)| >= 2
  {
    var ps := CongoPositions(names);
    if |ps| < 2 then Err("IndexError: list index out of range")
    else Ok(names[ps[0] := CongoDrc][ps[1] := CongoRepublic])
  }

  /** The first "Congo" row becomes the Democratic Republic and the second
      the Republic; no other row changes. */
  lemma ResolveCongoMeaning(names: seq<string>)
    requires ResolveCongo(names).Ok?
    ensures var r := ResolveCongo(names).value;
      var ps := CongoPositions(names);
      && |r| == |names|
      && ps[0] < ps[1] && names[ps[0]] == "Congo" && names[ps[1]] == "Congo"
      && (forall k :: 0 <= k < ps[1] && k != ps[0] ==> names[k] != "Congo")
      && r[ps[0]] == CongoDrc && r[ps[1]] == CongoRepublic
      && (forall k :: 0 <= k < |names| && k != ps[0] && k != ps[1] ==> r[k] == names[k])
  {
    var ps := CongoPositions(names);
    forall k | 0 <= k < ps[1] && k != ps[0] ensures names[k] != "Congo" {
    }
  }

  /** The same two assignments on the Country column in place. When there is
      only one "Congo" row the first assignment has already happened when the
      second fails. */
  method ResolveCongoInPlace(names: array<string>) returns (ok: bool)
    modifies names
    ensures ok <==> |CongoPositions(old(names[..]))| >= 2
    ensures ok ==> names[..] == ResolveCongo(old(names[..])).value
    ensures |CongoPositions(old(names[..]))| == 0 ==> names[..] == old(names[..])
    ensures |CongoPositions(old(names[..]))| == 1 ==>
      names[..] == old(names[..])[CongoPositions(old(names[..]))[0] := CongoDrc]
  {
    var congo := CongoPositions(names[..]);
    if |congo| == 0 {
      return false;
    }
    names[congo[0]] := CongoDrc;
    if |congo| < 2 {
      return false;
    }
    names[congo[1]] := CongoRepublic;
    ok := true;
  }

  /** The day's entries with their final country names. */
  function Named(script: Script, es: seq<Entry>): (r: Result<seq<Entry>>)
    ensures script != Update2 ==> r == Ok(Renamed(SitrepRules, es))
    ensures script == Update2 ==> (r.Ok? <==> |CongoPositions(Countries(es))| >= 2)
  {
    if script != Update2 then Ok(Renamed(SitrepRules, es))
    else
      match ResolveCongo(Countries(es))
      case Err(e) => Err(e)
      case Ok(names) => Ok(Renamed(Update2Rules, WithCountries(es, names)))
  }

  // ---------------------------------------------------------------- totals

  /** A total as `pd.to_numeric` reads it; `None` is NaN, from an empty cell. */
  type Total = Option<real>

  /** A total's cell with its grouping spaces removed, then read as a number;
      text that is not a number stops the program. */
  function ParseTotal(c: Cell): (r: Result<Total>)
    ensures c.None? ==> r == Ok(None)
    ensures c.Some? ==> (r.Ok? <==> IsNumeric(ReplaceAll(c.value, " ", "")))
    ensures c.Some? && r.Ok? ==> r.value == Some(NumericValue(ReplaceAll(c.value, " ", "")))
  {
    match c
    case None => Ok(None)
    case Some(s) =>
      var t := ReplaceAll(s, " ", "");
      if IsNumeric(t) then Ok(Some(NumericValue(t))) else Err("ValueError: Unable to parse string")
  }

  /** A space-grouped total reads as the number it spells. */
  lemma GroupedTotal()
    ensures ParseTotal(Some("12 345")) == Ok(Some(12345.0))
  {
    GroupSpaceDropped();
    DigitsOfGrouped();
    IntLiteralIsNumeric("12345");
  }

  lemma GroupSpaceDropped()
    ensures ReplaceAll("12 345", " ", "") == "12345"
  {
    var s := "12 345";
    assert OccursAt(s, " ", 2);
    ReplaceAt(s, " ", "", 2);
    assert s[3..] == "345";
    AbsentByChar("345", " ", 0);
    ReplaceAbsent("345", " ", "");
  }

  lemma DigitsOfGrouped()
    ensures AllDigits("12345") && DigitsValue("12345") == 12345
  {
    var t := "12345";
    assert AllDigits(t);
    assert DigitsValue("1") == 1 by { assert "1"[..0] == ""; }
    assert DigitsValue("12") == 12 by { assert "12"[..1] == "1"; }
    assert DigitsValue("123") == 123 by { assert "123"[..2] == "12"; }
    assert DigitsValue("1234") == 1234 by { assert "1234"[..3] == "123"; }
    assert DigitsValue(t) == 12345 by { assert t[..4] == "1234"; }
  }

  /** The first entry of the list that matches, if any. */
  function FirstWhere(cells: seq<Cell>, x: string): (r: Option<nat>)
    ensures r.Some? ==> r.value < |cells| && cells[r.value] == Some(x)
    ensures r.Some? ==> forall k :: 0 <= k < r.value ==> cells[k] != Some(x)
    ensures r.None? ==> forall k :: 0 <= k < |cells| ==> cells[k] != Some(x)
  {
    if cells == [] then None
    else if cells[0] == Some(x) then Some(0)
    else match FirstWhere(cells[1..], x)
      case None => None
      case Some(k) => Some(k + 1)
  }

  /** Lines 88-89 of COVID-19_WHO_Update.py: the columns labelled 1 (cases)
      and 3 (deaths) of the first row whose column labelled 0 reads "Grand
      total". */
  function GrandTotals(f: Frame): (r: Result<(Total, Total)>)
    requires WellFormed(f)
  {
    match ColumnByLabel(f, 0)
    case Err(e) => Err(e)
    case Ok(names) =>
      match ColumnByLabel(f, 1)
      case Err(e) => Err(e)
      case Ok(cases) =>
        match FirstWhere(names, "Grand total")
        case None => Err("IndexError: index 0 is out of bounds")
        case Some(i) =>
          match ParseTotal(cases[i])
          case Err(e) => Err(e)
          case Ok(ct) =>
            match ColumnByLabel(f, 3)
            case Err(e) => Err(e)
            case Ok(deaths) =>
              match ParseTotal(deaths[i])
              case Err(e) => Err(e)
              case Ok(dt) => Ok((ct, dt))
  }

  /** The totals are those of the first "Grand total" row, and without such a
      row the program stops. */
  lemma GrandTotalsMeaning(f: Frame)
    requires WellFormed(f) && 0 in f.labels && 1 in f.labels && 3 in f.labels
    ensures var label0 := Position(f.labels, 0).value;
      GrandTotals(f).Ok? ==> exists i :: (
        && 0 <= i < |f.rows| && f.rows[i][label0] == Some("Grand total")
        && (forall k :: 0 <= k < i ==> f.rows[k][label0] != Some("Grand total"))
        && ParseTotal(f.rows[i][Position(f.labels, 1).value]) == Ok(GrandTotals(f).value.0)
        && ParseTotal(f.rows[i][Position(f.labels, 3).value]) == Ok(GrandTotals(f).value.1))
    ensures var label0 := Position(f.labels, 0).value;
      (forall i :: 0 <= i < |f.rows| ==> f.rows[i][label0] != Some("Grand total")) ==> GrandTotals(f).Err?
    ensures var label0 := Position(f.labels, 0).value;
      var label1 := Position(f.labels, 1).value; var label3 := Position(f.labels, 3).value;
      forall i ::
        (&& 0 <= i < |f.rows| && f.rows[i][label0] == Some("Grand total")
         && (forall k :: 0 <= k < i ==> f.rows[k][label0] != Some("Grand total"))
         && ParseTotal(f.rows[i][label1]).Ok? && ParseTotal(f.rows[i][label3]).Ok?)
        ==> GrandTotals(f) == Ok((ParseTotal(f.rows[i][label1]).value, ParseTotal(f.rows[i][label3]).value))
  {
    var names := ColumnByLabel(f, 0).value;
    var w := FirstWhere(names, "Grand total");
    if w.Some? {
      var i := w.value;
      assert f.rows[i][Position(f.labels, 0).value] == names[i];
    } else {
      assert GrandTotals(f).Err?;
    }
  }

  /** Lines 90-91 of COVID-19_WHO_Update2.py: the second and fourth cells of
      the last row. `str.replace` on a missing value (a float) fails, and so
      does indexing an empty frame or a short row. */
  function LastRowTotals(f: Frame): (r: Result<(Total, Total)>)
    requires WellFormed(f)
    ensures r.Ok? ==> |f.rows| > 0 && |f.labels| > 3
    ensures r.Ok? <==> (|f.rows| > 0 && |f.labels| > 3 &&
      var last := f.rows[|f.rows| - 1];
      last[1].Some? && last[3].Some? && ParseTotal(last[1]).Ok? && ParseTotal(last[3]).Ok?)
    ensures r.Ok? ==> var last := f.rows[|f.rows| - 1];
      last[1].Some? && last[3].Some? &&
      ParseTotal(last[1]) == Ok(r.value.0) && ParseTotal(last[3]) == Ok(r.value.1)
  {
    if |f.rows| == 0 || |f.labels| < 2 then Err("IndexError: single positional indexer is out-of-bounds")
    else
      var last := f.rows[|f.rows| - 1];
      if last[1].None? then Err("AttributeError: 'float' object has no attribute 'replace'")
      else
        match ParseTotal(last[1])
        case Err(e) => Err(e)
        case Ok(ct) =>
          if |f.labels| < 4 then Err("IndexError: single positional indexer is out-of-bounds")
          else if last[3].None? then Err("AttributeError: 'float' object has no attribute 'replace'")
          else
            match ParseTotal(last[3])
            case Err(e) => Err(e)
            case Ok(dt) => Ok((ct, dt))
  }

  /** The totals each updater reads from the prepared frame; `New` reads none. */
  function DayTotals(script: Script, df: Frame): (r: Result<Option<(Total, Total)>>)
    requires WellFormed(df)
    ensures script == New ==> r == Ok(None)
    ensures r.Ok? && script != New ==> r.value.Some?
  {
    match script
    case New => Ok(None)
    case Update => (match GrandTotals(df) case Err(e) => Err(e) case Ok(t) => Ok(Some(t)))
    case Update2 => (match LastRowTotals(df) case Err(e) => Err(e) case Ok(t) => Ok(Some(t)))
  }
}
