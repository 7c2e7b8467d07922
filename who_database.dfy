/** The two tables the WHO PDF updaters keep, COVID-19_WHO_Cases.csv and
    COVID-19_WHO_Deaths.csv: one row per country of Countries.csv and one
    column per report day. The update loop resumes on the day after the last
    stored column, reads each day's report, stores its counts under the day,
    and, in `Update` and `Update2`, warns when the stored counts do not add up
    to the totals the report prints. */
module WhoDatabase {
  import opened Wrappers
  import opened Frames
  import opened Dates
  import opened WhoSitrep
  import opened DayReads

  /** One day's column: a count per country of the index, `None` for a
      missing value (NaN). */
  type Column = seq<Option<int>>

  /** The counts stored under one day: a column of each table. */
  datatype DayColumn = DayColumn(day: int, cases: Column, deaths: Column)

  /** The two tables as values: the country index and the day columns, in
      the order of the CSV files. The cases and the deaths table always get
      their columns together, so they are kept as one list. */
  datatype Store = Store(countries: seq<string>, columns: seq<DayColumn>)

  /** The day of each column. */
  function Days(cols: seq<DayColumn>): (ds: seq<int>)
    ensures |ds| == |cols| && forall k :: 0 <= k < |cols| ==> ds[k] == cols[k].day
  {
    seq(|cols|, k requires 0 <= k < |cols| => cols[k].day)
  }

  /** Every column has a row per country. */
  predicate Shaped(t: Store) {
    forall k :: 0 <= k < |t.columns| ==>
      |t.columns[k].cases| == |t.countries| && |t.columns[k].deaths| == |t.countries|
  }

  predicate Distinct(xs: seq<string>) {
    forall i, j :: 0 <= i < j < |xs| ==> xs[i] != xs[j]
  }

  datatype Count = CasesCount | DeathsCount

  function CountOf(e: Entry, which: Count): int {
    match which case CasesCount => e.cases case DeathsCount => e.deaths
  }

  /** The first entry for a country. */
  function FindCountry(es: seq<Entry>, c: string): (r: Option<nat>)
    ensures r.Some? ==> r.value < |es| && es[r.value].country == c
    ensures r.None? ==> forall k :: 0 <= k < |es| ==> es[k].country != c
  {
    if es == [] then None
    else if es[0].country == c then Some(0)
    else match FindCountry(es[1..], c)
      case None => None
      case Some(k) => Some(k + 1)
  }

  /** `df_cases[new_date] = df_who['Cases']`: the report's counts lined up on
      the database's countries. pandas refuses a report that names a country
      twice. */
  function Aligned(countries: seq<string>, es: seq<Entry>, which: Count): (r: Result<Column>)
    ensures r.Ok? <==> Distinct(Countries(es))
    ensures r.Ok? ==> |r.value| == |countries|
  {
    if !Distinct(Countries(es)) then Err("ValueError: cannot reindex on an axis with duplicate labels")
    else Ok(seq(|countries|, i requires 0 <= i < |countries| =>
      match FindCountry(es, countries[i]) case None => None case Some(k) => Some(CountOf(es[k], which))))
  }

  /** A country of the database gets the report's count for it, and a
      missing value when the report does not list it: no 0 is filled in. */
  lemma AlignedMeaning(countries: seq<string>, es: seq<Entry>, which: Count, i: nat, k: nat)
    requires Aligned(countries, es, which).Ok? && i < |countries|
    ensures k < |es| && es[k].country == countries[i] ==>
      Aligned(countries, es, which).value[i] == Some(CountOf(es[k], which))
    ensures (forall m :: 0 <= m < |es| ==> es[m].country != countries[i]) ==>
      Aligned(countries, es, which).value[i] == None
  {
    if k < |es| && es[k].country == countries[i] {
      var f := FindCountry(es, countries[i]);
      assert f.Some?;
      assert Countries(es)[f.value] == Countries(es)[k];
    }
  }

  /** The tables with `day`'s columns set: a new column at the end, or the old
      column replaced when the day is already there. */
  function WithDay(t: Store, day: int, cases: Column, deaths: Column): (r: Store)
    ensures r.countries == t.countries
  {
    Store(t.countries, SetColumn(t.columns, DayColumn(day, cases, deaths)))
  }

  /** `df[day] = column`: the first column of the same day replaced, or the
      column added at the end. */
  function SetColumn(cols: seq<DayColumn>, c: DayColumn): seq<DayColumn>
    decreases |cols|
  {
    if cols == [] then [c]
    else if cols[0].day == c.day then [c] + cols[1..]
    else [cols[0]] + SetColumn(cols[1..], c)
  }

  /** The column set is the one at the day's position among the days. */
  lemma {:induction false} SetColumnAt(cols: seq<DayColumn>, c: DayColumn)
    ensures match Position(Days(cols), c.day)
      case None => SetColumn(cols, c) == cols + [c]
      case Some(p) => SetColumn(cols, c) == cols[p := c]
    decreases |cols|
  {
    if cols != [] {
      assert Days(cols)[1..] == Days(cols[1..]);
      SetColumnAt(cols[1..], c);
      if cols[0].day != c.day {
        assert cols == [cols[0]] + cols[1..];
      }
    }
  }

  /** Setting a day adds a column for a new day and keeps the days as they
      were for a stored one; columns of the right length keep the tables
      shaped. */
  lemma WithDayDays(t: Store, day: int, cases: Column, deaths: Column)
    ensures var r := WithDay(t, day, cases, deaths);
      && (day !in Days(t.columns) ==> r.columns == t.columns + [DayColumn(day, cases, deaths)])
      && (day in Days(t.columns) ==> Days(r.columns) == Days(t.columns))
      && (Shaped(t) && |cases| == |t.countries| && |deaths| == |t.countries| ==> Shaped(r))
  {
    var r := WithDay(t, day, cases, deaths);
    SetColumnAt(t.columns, DayColumn(day, cases, deaths));
    if day in Days(t.columns) {
      assert Days(r.columns) == Days(t.columns);
    }
  }

  /** After setting a day, the tables hold the new counts under that day and
      every other day's counts as they were. */
  lemma WithDayMeaning(t: Store, day: int, cases: Column, deaths: Column, k: nat)
    requires Increasing(Days(t.columns))
    ensures var r := WithDay(t, day, cases, deaths);
      && day in Days(r.columns)
      && (k < |r.columns| && r.columns[k].day == day ==> r.columns[k] == DayColumn(day, cases, deaths))
      && (k < |r.columns| && r.columns[k].day != day ==> k < |t.columns| && r.columns[k] == t.columns[k])
  {
    var r := WithDay(t, day, cases, deaths);
    SetColumnAt(t.columns, DayColumn(day, cases, deaths));
    match Position(Days(t.columns), day)
    case None =>
      assert Days(r.columns)[|r.columns| - 1] == day;
    case Some(p) =>
      assert Days(r.columns)[p] == day;
      if k < |r.columns| && k != p {
        assert Days(t.columns)[k] == t.columns[k].day;
      }
  }

  // ---------------------------------------------------------------- checking the totals

  /** `Series.sum()`, which skips missing values. */
  function ColumnSum(col: Column): int {
    if col == [] then 0
    else ColumnSum(col[..|col| - 1]) + match col[|col| - 1] case None => 0 case Some(v) => v
  }

  /** `sum != total` is false only for an equal number; NaN equals nothing. */
  predicate Matches(sum: int, total: Total) {
    total == Some(sum as real)
  }

  datatype Warning =
    | CasesMismatch(day: int, table: Total, sum: int)
    | DeathsMismatch(day: int, table: Total, sum: int)

  /** The two `print`s of lines 177-180 of COVID-19_WHO_Update.py (lines
      154-157 of `Update2`): a warning for each count whose sum over the day's
      column differs from the printed total. */
  function Checks(day: int, cases: Column, deaths: Column, totals: Option<(Total, Total)>): (ws: seq<Warning>)
    ensures totals.None? ==> ws == []
    ensures totals.Some? ==>
      (CasesMismatch(day, totals.value.0, ColumnSum(cases)) in ws <==> !Matches(ColumnSum(cases), totals.value.0))
    ensures totals.Some? ==>
      (DeathsMismatch(day, totals.value.1, ColumnSum(deaths)) in ws <==> !Matches(ColumnSum(deaths), totals.value.1))
    ensures forall w :: w in ws ==> w.day == day
  {
    match totals
    case None => []
    case Some((ct, dt)) =>
      (if Matches(ColumnSum(cases), ct) then [] else [CasesMismatch(day, ct, ColumnSum(cases))]) +
      (if Matches(ColumnSum(deaths), dt) then [] else [DeathsMismatch(day, dt, ColumnSum(deaths))])
  }

  // ---------------------------------------------------------------- one day

  /** The PDFs there are, by file name: on disk or on the WHO server. */
  predicate Available(pdfs: map<string, seq<Frame>>) {
    forall name :: name in pdfs ==> Tables(pdfs[name])
  }

  /** The file of a report: `Update2` refuses reports before 102. */
  function ReportFile(script: Script, stamp: string, rep: int): (r: Result<string>)
    ensures script != Update2 ==> r == Ok(SitrepFile(stamp, rep))
    ensures script == Update2 ==> r == Update2File(stamp, rep)
  {
    if script == Update2 then Update2File(stamp, rep) else Ok(SitrepFile(stamp, rep))
  }

  /** What an opened report gives: its named entries and, for `Update` and
      `Update2`, the totals it prints. */
  datatype Report = Report(entries: seq<Entry>, totals: Option<(Total, Total)>)

  /** The tables of report `rep` read: the totals first, then the entries of
      its layout, then the renaming. A report without any table is `None`. */
  function Opened(script: Script, rep: int, tabs: seq<Frame>): (r: Result<Option<Report>>)
    requires Tables(tabs)
    ensures |tabs| == 0 <==> r == Ok(None)
    ensures script == New && r.Ok? && r.value.Some? ==> r.value.value.totals.None?
    ensures r.Ok? && r.value.Some? ==> DayTotals(script, Prepared(script, tabs)) == Ok(r.value.value.totals)
    ensures r.Ok? && r.value.Some? ==>
      && Extracted(script, rep, tabs).Ok?
      && Named(script, Extracted(script, rep, tabs).value) == Ok(r.value.value.entries)
  {
    if |tabs| == 0 then Ok(None)
    else
      match DayTotals(script, Prepared(script, tabs))
      case Err(e) => Err(e)
      case Ok(totals) =>
        match Extracted(script, rep, tabs)
        case Err(e) => Err(e)
        case Ok(raw) =>
          match Named(script, raw)
          case Err(e) => Err(e)
          case Ok(es) => Ok(Some(Report(es, totals)))
  }

  /** What a day adds to the tables: its two columns and the warnings about
      its totals. */
  datatype DayData = DayData(cases: Column, deaths: Column, warnings: seq<Warning>)

  /** The columns hold, for each country of the tables, the counts of the
      report's entry for it, and a missing value where the report has none. */
  predicate Carries(countries: seq<string>, es: seq<Entry>, cases: Column, deaths: Column) {
    && |cases| == |countries| && |deaths| == |countries|
    && forall i :: 0 <= i < |countries| ==>
         && (forall k :: 0 <= k < |es| && es[k].country == countries[i] ==>
               cases[i] == Some(es[k].cases) && deaths[i] == Some(es[k].deaths))
         && ((forall k :: 0 <= k < |es| ==> es[k].country != countries[i]) ==>
               cases[i] == None && deaths[i] == None)
  }

  /** A report's counts lined up on the countries of the tables, and its
      totals checked against their sums. */
  function Lined(countries: seq<string>, day: int, report: Report): (r: Result<DayData>)
    ensures r.Ok? <==> Distinct(Countries(report.entries))
    ensures r.Ok? ==> |r.value.cases| == |countries| && |r.value.deaths| == |countries|
    ensures r.Ok? && report.totals.None? ==> r.value.warnings == []
  {
    match Aligned(countries, report.entries, CasesCount)
    case Err(e) => Err(e)
    case Ok(cases) =>
      var deaths := Aligned(countries, report.entries, DeathsCount).value;
      Ok(DayData(cases, deaths, Checks(day, cases, deaths, report.totals)))
  }

  /** A lined-up report carries the report's counts, and its warnings are the
      checks of those columns against the report's totals. */
  lemma LinedMeaning(countries: seq<string>, day: int, report: Report)
    requires Lined(countries, day, report).Ok?
    ensures var dd := Lined(countries, day, report).value;
      && Carries(countries, report.entries, dd.cases, dd.deaths)
      && dd.warnings == Checks(day, dd.cases, dd.deaths, report.totals)
  {
    var es := report.entries;
    forall i | 0 <= i < |countries|
      ensures (forall k :: 0 <= k < |es| && es[k].country == countries[i] ==>
                 Lined(countries, day, report).value.cases[i] == Some(es[k].cases)
                 && Lined(countries, day, report).value.deaths[i] == Some(es[k].deaths))
      ensures (forall k :: 0 <= k < |es| ==> es[k].country != countries[i]) ==>
                 Lined(countries, day, report).value.cases[i] == None
                 && Lined(countries, day, report).value.deaths[i] == None
    {
      AlignedMeaning(countries, es, CasesCount, i, 0);
      AlignedMeaning(countries, es, DeathsCount, i, 0);
      forall k | 0 <= k < |es| && es[k].country == countries[i]
        ensures Lined(countries, day, report).value.cases[i] == Some(es[k].cases)
        ensures Lined(countries, day, report).value.deaths[i] == Some(es[k].deaths)
      {
        AlignedMeaning(countries, es, CasesCount, i, k);
        AlignedMeaning(countries, es, DeathsCount, i, k);
      }
    }
  }

  /** The tables of the report of `day` read and lined up on `countries`. */
  function Loaded(script: Script, countries: seq<string>, day: int, tabs: seq<Frame>): (r: Result<Option<DayData>>)
    requires Tables(tabs)
    ensures |tabs| == 0 ==> r == Ok(None)
    ensures r.Ok? && r.value.Some? ==> |r.value.value.cases| == |countries| && |r.value.value.deaths| == |countries|
    ensures script == New && r.Ok? && r.value.Some? ==> r.value.value.warnings == []
  {
    match Opened(script, ReportOf(day), tabs)
    case Err(e) => Err(e)
    case Ok(None) => Ok(None)
    case Ok(Some(report)) =>
      match Lined(countries, day, report)
      case Err(e) => Err(e)
      case Ok(dd) => Ok(Some(dd))
  }

  /** A loaded day holds the counts of the report's named entries for each
      country of the tables, and the checks of its totals. */
  lemma LoadedMeaning(script: Script, countries: seq<string>, day: int, tabs: seq<Frame>)
    requires Tables(tabs) && Loaded(script, countries, day, tabs).Ok? && Loaded(script, countries, day, tabs).value.Some?
    ensures var o := Opened(script, ReportOf(day), tabs); var dd := Loaded(script, countries, day, tabs).value.value;
      && o.Ok? && o.value.Some?
      && Named(script, Extracted(script, ReportOf(day), tabs).value) == Ok(o.value.value.entries)
      && Carries(countries, o.value.value.entries, dd.cases, dd.deaths)
      && dd.warnings == Checks(day, dd.cases, dd.deaths, o.value.value.totals)
  {
    var o := Opened(script, ReportOf(day), tabs);
    assert o.Ok? && o.value.Some?;
    var l := Lined(countries, day, o.value.value);
    assert l.Ok? && Loaded(script, countries, day, tabs) == Ok(Some(l.value));
    LinedMeaning(countries, day, o.value.value);
  }

  /** The report of `day`, whose number is `ReportOf(day)`; `stamp` formats a
      day as `%Y%m%d`. A file that is neither on disk nor on the server stops
      the run ("Does not exist"). */
  function Reading(script: Script, countries: seq<string>, day: int, stamp: int -> string, pdfs: map<string, seq<Frame>>): (r: Result<Option<DayData>>)
    requires Available(pdfs)
    ensures ReportFile(script, stamp(day), ReportOf(day)).Err? ==> r.Err?
    ensures ReportFile(script, stamp(day), ReportOf(day)).Ok? && ReportFile(script, stamp(day), ReportOf(day)).value !in pdfs ==>
      r == Err("Does not exist")
    ensures r.Ok? && r.value.Some? ==> |r.value.value.cases| == |countries| && |r.value.value.deaths| == |countries|
    ensures script == New && r.Ok? && r.value.Some? ==> r.value.value.warnings == []
  {
    match ReportFile(script, stamp(day), ReportOf(day))
    case Err(e) => Err(e)
    case Ok(name) =>
      if name !in pdfs then Err("Does not exist")
      else Loaded(script, countries, day, pdfs[name])
  }

  /** A day read from its report file holds, for each country of the tables,
      the counts of that file's named entries. */
  lemma ReadingMeaning(script: Script, countries: seq<string>, day: int, stamp: int -> string, pdfs: map<string, seq<Frame>>)
    requires Available(pdfs) && Reading(script, countries, day, stamp, pdfs).Ok?
    requires Reading(script, countries, day, stamp, pdfs).value.Some?
    ensures var name := ReportFile(script, stamp(day), ReportOf(day));
      && name.Ok? && name.value in pdfs
      && Reading(script, countries, day, stamp, pdfs) == Loaded(script, countries, day, pdfs[name.value])
      && var o := Opened(script, ReportOf(day), pdfs[name.value]);
      && var dd := Reading(script, countries, day, stamp, pdfs).value.value;
      && o.Ok? && o.value.Some?
      && Carries(countries, o.value.value.entries, dd.cases, dd.deaths)
      && dd.warnings == Checks(day, dd.cases, dd.deaths, o.value.value.totals)
  {
    var name := ReportFile(script, stamp(day), ReportOf(day)).value;
    LoadedMeaning(script, countries, day, pdfs[name]);
  }

  /** What the loop reads on each day. Reading a report does not depend on
      the tables, so the passes of the loop can be told apart from the
      reports they read. */
  type DayReports = int -> Result<Option<DayData>>

  /** The reports of the days as `Reading` gives them. */
  function Reports(script: Script, countries: seq<string>, stamp: int -> string, pdfs: map<string, seq<Frame>>): (read: DayReports)
    requires Available(pdfs)
  {
    d => Reading(script, countries, d, stamp, pdfs)
  }

  lemma ReportsAt(script: Script, countries: seq<string>, day: int, stamp: int -> string, pdfs: map<string, seq<Frame>>)
    requires Available(pdfs)
    ensures Reports(script, countries, stamp, pdfs)(day) == Reading(script, countries, day, stamp, pdfs)
  {
  }

  datatype Step = Step(tables: Store, warnings: seq<Warning>)

  /** One pass of the `for dt` loop: a report without tables changes
      nothing, and an opened one stores its columns under the day. */
  function DayStep(t: Store, day: int, reading: Result<Option<DayData>>): (r: Result<Step>)
    ensures r.Ok? <==> reading.Ok?
    ensures r.Ok? && reading.value.None? ==> r.value == Step(t, [])
    ensures r.Ok? && reading.value.Some? ==>
      r.value.warnings == reading.value.value.warnings && r.value.tables.countries == t.countries
  {
    match reading
    case Err(e) => Err(e)
    case Ok(None) => Ok(Step(t, []))
    case Ok(Some(dd)) => Ok(Step(WithDay(t, day, dd.cases, dd.deaths), dd.warnings))
  }

  // ---------------------------------------------------------------- the loop

  datatype Outcome = Outcome(tables: Store, warnings: seq<Warning>, stopped: Option<string>)

  /** The pass on `day` after the outcome `o` of the passes before it. A pass
      that fails ends the program (`sys.exit()` or an exception): the tables
      are then not written back. */
  function Pass(o: Outcome, day: int, reading: Result<Option<DayData>>): (p: Outcome)
  {
    match DayStep(o.tables, day, reading)
    case Err(e) => Outcome(o.tables, o.warnings, Some(e))
    case Ok(step) => Outcome(step.tables, o.warnings + step.warnings, None)
  }

  /** The passes of the loop from `day` on, over the days' reports, until
      one stops the program. */
  function RunReadings(t: Store, day: int, rs: seq<Result<Option<DayData>>>): (o: Outcome)
    decreases |rs|
  {
    if rs == [] then Outcome(t, [], None)
    else
      var o := RunReadings(t, day, rs[..|rs| - 1]);
      if o.stopped.Some? then o else Pass(o, day + |rs| - 1, rs[|rs| - 1])
  }

  /** `n` passes of the loop from `day` on. */
  function Run(script: Script, t: Store, day: int, n: nat, stamp: int -> string, pdfs: map<string, seq<Frame>>): Outcome
    requires Available(pdfs)
  {
    RunReadings(t, day, Readings(Reports(script, t.countries, stamp, pdfs), day, n))
  }

  /** One more report after a run that has not stopped: its pass. */
  lemma RunSnoc(t: Store, day: int, rs: seq<Result<Option<DayData>>>, r: Result<Option<DayData>>)
    requires RunReadings(t, day, rs).stopped.None?
    ensures RunReadings(t, day, rs + [r]) == Pass(RunReadings(t, day, rs), day + |rs|, r)
  {
    var more := rs + [r];
    assert more[..|more| - 1] == rs && more[|more| - 1] == r;
    var o := RunReadings(t, day, rs);
    assert RunReadings(t, day, more) == Pass(o, day + |more| - 1, more[|more| - 1]);
  }

  /** Once the program has stopped, later reports change nothing. */
  lemma {:induction false} StoppedStays(t: Store, day: int, rs: seq<Result<Option<DayData>>>, more: seq<Result<Option<DayData>>>)
    requires RunReadings(t, day, rs).stopped.Some?
    ensures RunReadings(t, day, rs + more) == RunReadings(t, day, rs)
    decreases |more|
  {
    if more == [] {
      assert rs + more == rs;
    } else {
      var front := more[..|more| - 1];
      StoppedStays(t, day, rs, front);
      assert (rs + more)[..|rs + more| - 1] == rs + front;
    }
  }

  /** The reports read until the run stopped, or all of them, give the
      outcome of the whole run. */
  lemma PrefixIsRun(t: Store, day: int, n: nat, read: DayReports, rs: seq<Result<Option<DayData>>>)
    requires |rs| <= n && ReadsDays(rs, read, day)
    requires |rs| == n || RunReadings(t, day, rs).stopped.Some?
    ensures RunReadings(t, day, rs) == RunReadings(t, day, Readings(read, day, n))
  {
    var all := Readings(read, day, n);
    ReadsDaysListed(rs, read, day, n);
    if |rs| == n {
      assert all[..|rs|] == all;
    } else {
      assert all == rs + all[|rs|..];
      StoppedStays(t, day, rs, all[|rs|..]);
    }
  }

  /** Every report read lines its counts up on the countries of the tables:
      the run keeps every column a row per country. */
  lemma {:induction false} RunKeepsShape(t: Store, day: int, rs: seq<Result<Option<DayData>>>)
    requires Shaped(t)
    requires forall i :: 0 <= i < |rs| && rs[i].Ok? && rs[i].value.Some? ==>
      |rs[i].value.value.cases| == |t.countries| && |rs[i].value.value.deaths| == |t.countries|
    ensures Shaped(RunReadings(t, day, rs).tables) && RunReadings(t, day, rs).tables.countries == t.countries
    decreases |rs|
  {
    if rs != [] {
      var front := rs[..|rs| - 1];
      RunKeepsShape(t, day, front);
      var o := RunReadings(t, day, front);
      var last := rs[|rs| - 1];
      if o.stopped.None? && last.Ok? && last.value.Some? {
        WithDayDays(o.tables, day + |rs| - 1, last.value.value.cases, last.value.value.deaths);
      }
    }
  }

  /** Running from a day later than every stored day keeps the stored days
      and adds only days of the run, in increasing order. */
  lemma {:induction false} RunAddsDays(t: Store, day: int, rs: seq<Result<Option<DayData>>>)
    requires Increasing(Days(t.columns))
    requires forall k :: 0 <= k < |t.columns| ==> t.columns[k].day < day
    ensures var o := RunReadings(t, day, rs);
      && Increasing(Days(o.tables.columns))
      && |t.columns| <= |o.tables.columns| && o.tables.columns[..|t.columns|] == t.columns
      && (forall k :: 0 <= k < |o.tables.columns| ==> o.tables.columns[k].day < day + |rs|)
    decreases |rs|
  {
    if rs != [] {
      var front := rs[..|rs| - 1];
      RunAddsDays(t, day, front);
      var o := RunReadings(t, day, front);
      if o.stopped.None? && rs[|rs| - 1].Ok? && rs[|rs| - 1].value.Some? {
        var d := day + |rs| - 1;
        var dd := rs[|rs| - 1].value.value;
        var cols := o.tables.columns;
        assert d !in Days(cols);
        WithDayDays(o.tables, d, dd.cases, dd.deaths);
        var added := cols + [DayColumn(d, dd.cases, dd.deaths)];
        IncreasingSnoc(Days(cols), d);
        assert Days(added) == Days(cols) + [d];
        assert added[..|t.columns|] == cols[..|t.columns|];
      }
    }
  }

  lemma IncreasingSnoc(days: seq<int>, day: int)
    requires Increasing(days) && forall k :: 0 <= k < |days| ==> days[k] < day
    ensures Increasing(days + [day])
  {
  }

  /** Resuming keeps every stored day and adds the days of the run after
      them, in increasing order. */
  lemma ResumeAddsDays(script: Script, t: Store, n: nat, stamp: int -> string, pdfs: map<string, seq<Frame>>)
    requires Available(pdfs) && Increasing(Days(t.columns)) && t.columns != []
    ensures var start := t.columns[|t.columns| - 1].day + 1;
      var o := Run(script, t, start, n, stamp, pdfs);
      && Increasing(Days(o.tables.columns))
      && |t.columns| <= |o.tables.columns| && o.tables.columns[..|t.columns|] == t.columns
      && (forall k :: 0 <= k < |o.tables.columns| ==> o.tables.columns[k].day < start + n)
  {
    var start := t.columns[|t.columns| - 1].day + 1;
    forall k | 0 <= k < |t.columns| ensures t.columns[k].day < start {
      if k < |t.columns| - 1 { assert Days(t.columns)[k] < Days(t.columns)[|t.columns| - 1]; }
    }
    RunAddsDays(t, start, Readings(Reports(script, t.countries, stamp, pdfs), start, n));
  }

  /** Reports without warnings give a run without warnings. */
  lemma {:induction false} QuietRun(t: Store, day: int, rs: seq<Result<Option<DayData>>>)
    requires forall i :: 0 <= i < |rs| && rs[i].Ok? && rs[i].value.Some? ==> rs[i].value.value.warnings == []
    ensures RunReadings(t, day, rs).warnings == []
    decreases |rs|
  {
    if rs != [] {
      var front := rs[..|rs| - 1];
      QuietRun(t, day, front);
      var o := RunReadings(t, day, front);
      if o.stopped.None? {
        var r := DayStep(o.tables, day + |rs| - 1, rs[|rs| - 1]);
        if r.Ok? {
          assert o.warnings + r.value.warnings == [];
        }
      }
    }
  }

  /** `New` checks no totals, so it never warns. */
  lemma NewNeverWarns(t: Store, day: int, n: nat, stamp: int -> string, pdfs: map<string, seq<Frame>>)
    requires Available(pdfs)
    ensures Run(New, t, day, n, stamp, pdfs).warnings == []
  {
    var read := Reports(New, t.countries, stamp, pdfs);
    var rs := Readings(read, day, n);
    forall i | 0 <= i < |rs| && rs[i].Ok? && rs[i].value.Some? ensures rs[i].value.value.warnings == [] {
      assert At(rs, i) == read(day + i);
    }
    QuietRun(t, day, rs);
  }

  // ---------------------------------------------------------------- resuming

  /** The first day to read: the day after the last stored column, or
      2020-02-03 for a fresh build. A stored table without any date column
      ends in a column that `strptime` cannot read as a date. */
  function StartDay(scratch: bool, days: seq<int>): (r: Result<int>)
    ensures scratch ==> r == Ok(FreshStartDay)
    ensures !scratch ==> (r.Ok? <==> days != [])
    ensures !scratch && r.Ok? ==> r.value == days[|days| - 1] + 1
  {
    if scratch then Ok(FreshStartDay)
    else if days == [] then Err("ValueError: time data does not match format '%Y-%m-%d'")
    else Ok(days[|days| - 1] + 1)
  }

  /** `start_rep`: hard-coded for a fresh build, computed from the date when
      resuming. */
  function StartReport(scratch: bool, start: int): int {
    if scratch then FreshStartReport else ReportOf(start)
  }

  /** Both ways of starting give the report of the start day. */
  lemma StartReportAgrees(scratch: bool, days: seq<int>)
    requires StartDay(scratch, days).Ok?
    ensures StartReport(scratch, StartDay(scratch, days).value) == ReportOf(StartDay(scratch, days).value)
  {
    FreshStartAgrees();
  }

  /** The two stored tables, updated in place by the loop of the updaters. */
  class WhoStore {
    var countries: seq<string>
    var columns: seq<DayColumn>

    function Contents(): Store
      reads this
    {
      Store(countries, columns)
    }

    ghost predicate Valid()
      reads this
    {
      Shaped(Contents())
    }

    /** `df_pop.copy()`: a fresh build starts from the countries alone. */
    constructor (index: seq<string>)
      ensures Valid() && Contents() == Store(index, [])
    {
      countries := index;
      columns := [];
    }

    /** The two CSV files read back. */
    constructor Load(t: Store)
      requires Shaped(t)
      ensures Valid() && Contents() == t
    {
      countries := t.countries;
      columns := t.columns;
    }

    /** `df_cases[new_date] = ...` and `df_deaths[new_date] = ...`. */
    method SetDay(day: int, c: Column, d: Column)
      requires Valid() && |c| == |countries| && |d| == |countries|
      modifies this
      ensures Valid() && Contents() == WithDay(old(Contents()), day, c, d)
    {
      SetColumnAt(columns, DayColumn(day, c, d));
      match Position(Days(columns), day)
      case None =>
        columns := columns + [DayColumn(day, c, d)];
      case Some(p) =>
        columns := columns[p := DayColumn(day, c, d)];
    }

    /** The entries of a report's tables named, with the Congo rows of
        `Update2` told apart in place. */
    static method Name(script: Script, raw: seq<Entry>) returns (es: Result<seq<Entry>>)
      ensures es == Named(script, raw)
    {
      if script == Update2 {
        var names := new string[|raw|](i requires 0 <= i < |raw| => raw[i].country);
        assert names[..] == Countries(raw);
        var ok := ResolveCongoInPlace(names);
        if !ok {
          return Err("IndexError: list index out of range");
        }
        es := Ok(Renamed(Update2Rules, WithCountries(raw, names[..])));
      } else {
        es := Ok(Renamed(SitrepRules, raw));
      }
    }

    /** The tables of a report read: the totals, then the entries of the
        report's layout, then their names. */
    static method Open(script: Script, rep: int, tabs: seq<Frame>) returns (r: Result<Option<Report>>)
      requires Tables(tabs) && |tabs| > 0
      ensures r == Opened(script, rep, tabs)
    {
      var totals := DayTotals(script, Prepared(script, tabs));
      if totals.Err? {
        return Err(totals.reason);
      }
      var raw := Extracted(script, rep, tabs);
      if raw.Err? {
        return Err(raw.reason);
      }
      var es := Name(script, raw.value);
      if es.Err? {
        return Err(es.reason);
      }
      r := Ok(Some(Report(es.value, totals.value)));
    }

    /** One pass of the loop on a report with tables. */
    method ReadDay(script: Script, day: int, rep: int, tabs: seq<Frame>) returns (warnings: seq<Warning>, stopped: Option<string>)
      requires Valid() && Tables(tabs) && |tabs| > 0 && rep == ReportOf(day)
      modifies this
      ensures Valid()
      ensures match DayStep(old(Contents()), day, Loaded(script, old(countries), day, tabs))
        case Err(e) => stopped == Some(e) && Contents() == old(Contents())
        case Ok(step) => stopped.None? && Contents() == step.tables && warnings == step.warnings
    {
      var report := Open(script, rep, tabs);
      if report.Err? {
        return [], Some(report.reason);
      }
      var dd := Lined(countries, day, report.value.value);
      if dd.Err? {
        return [], Some(dd.reason);
      }
      SetDay(day, dd.value.cases, dd.value.deaths);
      warnings := dd.value.warnings;
      stopped := None;
    }

    /** One pass of the loop on `day`, whose report number is `rep`: `r` is
        the day's report. */
    method Visit(script: Script, day: int, rep: int, stamp: int -> string, pdfs: map<string, seq<Frame>>)
      returns (warnings: seq<Warning>, stopped: Option<string>, ghost r: Result<Option<DayData>>)
      requires Valid() && Available(pdfs) && rep == ReportOf(day)
      modifies this
      ensures Valid() && countries == old(countries) && r == Reading(script, countries, day, stamp, pdfs)
      ensures match DayStep(old(Contents()), day, r)
        case Err(e) => stopped == Some(e) && Contents() == old(Contents())
        case Ok(step) => stopped.None? && Contents() == step.tables && warnings == step.warnings
    {
      r := Reading(script, countries, day, stamp, pdfs);
      var file := ReportFile(script, stamp(day), rep);
      if file.Err? {
        return [], Some(file.reason), r;
      }
      if file.value !in pdfs {
        return [], Some("Does not exist"), r;
      }
      var tabs := pdfs[file.value];
      if |tabs| == 0 {
        return [], None, r;
      }
      warnings, stopped := ReadDay(script, day, rep, tabs);
    }

    /** The `for dt` loop: `n` passes from `startDay` on, whose report is
        `startRep`, until a pass stops the program. `rs` are the reports read. */
    method Resume(script: Script, startDay: int, startRep: int, n: nat, stamp: int -> string, pdfs: map<string, seq<Frame>>)
      returns (warnings: seq<Warning>, stopped: Option<string>, ghost rs: seq<Result<Option<DayData>>>)
      requires Valid() && Available(pdfs) && startRep == ReportOf(startDay)
      modifies this
      ensures Valid() && countries == old(countries)
      ensures ReadsDays(rs, Reports(script, countries, stamp, pdfs), startDay)
      ensures |rs| <= n && (|rs| == n || stopped.Some?)
      ensures Outcome(Contents(), warnings, stopped) == RunReadings(old(Contents()), startDay, rs)
    {
      ghost var t0 := Contents();
      ghost var read := Reports(script, countries, stamp, pdfs);
      rs := [];
      warnings := [];
      stopped := None;
      var dt := 0;
      while dt < n
        invariant 0 <= dt <= n && Valid() && |rs| == dt && countries == t0.countries
        invariant ReadsDays(rs, read, startDay)
        invariant RunReadings(t0, startDay, rs) == Outcome(Contents(), warnings, None)
        invariant stopped.None?
      {
        var day := startDay + dt;
        var rep := startRep + dt;
        assert rep == ReportOf(day);
        var ws, err, r := Visit(script, day, rep, stamp, pdfs);
        ReportsAt(script, countries, day, stamp, pdfs);
        ReadsDaysSnoc(rs, r, read, startDay);
        RunSnoc(t0, startDay, rs, r);
        rs := rs + [r];
        if err.Some? {
          stopped := err;
          return;
        }
        warnings := warnings + ws;
        dt := dt + 1;
      }
    }

    /** The updater of lines 52-174 of COVID-19_WHO_New.py (lines 49-180 of
        `Update`, 49-157 of `Update2`): from the start day to `end`, the day
        before the run, each day's report read and stored. `scratch` says that
        the tables were built from the country list. */
    method Update(script: Script, scratch: bool, end: int, stamp: int -> string, pdfs: map<string, seq<Frame>>)
      returns (warnings: seq<Warning>, stopped: Option<string>)
      requires Valid() && Available(pdfs)
      modifies this
      ensures Valid()
      ensures match StartDay(scratch, Days(old(columns)))
        case Err(e) => stopped == Some(e) && warnings == [] && Contents() == old(Contents())
        case Ok(s) =>
          Outcome(Contents(), warnings, stopped) == Run(script, old(Contents()), s, VisitCount(s, end), stamp, pdfs)
    {
      var start := StartDay(scratch, Days(columns));
      if start.Err? {
        return [], Some(start.reason);
      }
      var startDay := start.value;
      var startRep := StartReport(scratch, startDay);
      StartReportAgrees(scratch, Days(columns));
      var n := VisitCount(startDay, end);
      ghost var t0 := Contents();
      ghost var rs;
      warnings, stopped, rs := Resume(script, startDay, startRep, n, stamp, pdfs);
      PrefixIsRun(t0, startDay, n, Reports(script, t0.countries, stamp, pdfs), rs);
    }
  }
}
