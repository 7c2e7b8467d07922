/** COVID-19_RKI.py: the table of cases per German state (Bundesland), read
    off page 2 of the daily situation reports of the Robert Koch Institute and
    kept in COVID-19_RKI_DE.csv, one row per state and day. The script resumes
    on the day after the latest stored date, reads each day's table, cleans it
    and appends its rows. */
module Rki {
  import opened Wrappers
  import opened Text
  import opened Frames
  import opened Grouping
  import opened Sorting
  import opened Dates
  import opened DayReads

  /** A row of COVID-19_RKI_DE.csv. */
  datatype Row = Row(date: int, state: string, cases: int)

  // ---------------------------------------------------------------- a fresh build

  /** The sixteen states, in the order of the hard-coded tables. */
  const States: seq<string> := [
    "Baden-Württemberg", "Bayern", "Berlin", "Brandenburg", "Bremen", "Hamburg", "Hessen",
    "Mecklenburg-Vorpommern", "Niedersachsen", "Nordrhein-Westfalen", "Rheinland-Pfalz", "Saarland",
    "Sachsen", "Sachsen-Anhalt", "Schleswig-Holstein", "Thüringen"]

  /** 2020-03-03 and 2020-03-04, the two days a fresh build starts from, and
      2020-03-05, the first day it reads. */
  const SeedDay: int := 42
  const FreshStart: int := 44

  const SeedCases1: seq<int> := [28, 37, 3, 1, 2, 2, 12, 0, 2, 103, 2, 0, 1, 0, 2, 1]
  const SeedCases2: seq<int> := [50, 48, 7, 1, 3, 3, 12, 4, 7, 115, 7, 1, 1, 0, 2, 1]

  /** One hard-coded day: a row per state. */
  function SeedRowsOf(date: int, cases: seq<int>): (rows: seq<Row>)
    requires |cases| == |States|
    ensures |rows| == |States|
  {
    seq(|States|, i requires 0 <= i < |States| => Row(date, States[i], cases[i]))
  }

  /** `df_rki_de_all = [df_rki_de_303, df_rki_de_304]`. */
  function SeedRows(): (rows: seq<Row>)
    ensures |rows| == 2 * |States|
    ensures forall k :: 0 <= k < |States| ==> rows[k] == Row(SeedDay, States[k], SeedCases1[k])
    ensures forall k :: |States| <= k < |rows| ==> rows[k] == Row(SeedDay + 1, States[k - |States|], SeedCases2[k - |States|])
  {
    SeedRowsOf(SeedDay, SeedCases1) + SeedRowsOf(SeedDay + 1, SeedCases2)
  }

  // ---------------------------------------------------------------- resuming

  /** `df_rki_de_old['Date'].max()`: the latest stored date. */
  function MaxDate(rows: seq<Row>): (m: int)
    requires rows != []
    ensures forall k :: 0 <= k < |rows| ==> rows[k].date <= m
    ensures exists k :: 0 <= k < |rows| && rows[k].date == m
  {
    if |rows| == 1 then rows[0].date
    else
      var m := MaxDate(rows[..|rows| - 1]);
      assert forall k :: 0 <= k < |rows| - 1 ==> rows[..|rows| - 1][k] == rows[k];
      if rows[|rows| - 1].date > m then rows[|rows| - 1].date else m
  }

  /** The first day to read: the day after 2020-03-04 for a fresh build, the
      day after the latest stored date otherwise. A stored table without rows
      has no latest date, and `strptime` refuses the missing value. */
  function StartDay(scratch: bool, rows: seq<Row>): (r: Result<int>)
    ensures scratch ==> r == Ok(FreshStart)
    ensures !scratch ==> (r.Ok? <==> rows != [])
    ensures !scratch && r.Ok? ==> forall k :: 0 <= k < |rows| ==> rows[k].date < r.value
    ensures !scratch && r.Ok? ==> exists k :: 0 <= k < |rows| && rows[k].date == r.value - 1
  {
    if scratch then Ok(FreshStart)
    else if rows == [] then Err("TypeError: strptime() argument 1 must be str, not float")
    else Ok(MaxDate(rows) + 1)
  }

  /** The hard-coded start of a fresh build is the day the resume rule gives
      for the hard-coded rows. */
  lemma SeedStartAgrees()
    ensures StartDay(false, SeedRows()) == Ok(FreshStart)
  {
    var rows := SeedRows();
    LastDateStarts(rows, SeedDay + 1);
  }

  /** A table whose last row has the latest date resumes on the next day. */
  lemma LastDateStarts(rows: seq<Row>, d: int)
    requires rows != [] && rows[|rows| - 1].date == d
    requires forall k :: 0 <= k < |rows| ==> rows[k].date <= d
    ensures StartDay(false, rows) == Ok(d + 1)
  {
  }

  /** The report of a day: "RKI/" + date + "-de.pdf". */
  function FileName(date: string): (name: string)
    ensures |name| == |date| + 11
    ensures name[..4] == "RKI/" && name[4..4 + |date|] == date && name[4 + |date|..] == "-de.pdf"
  {
    "RKI/" + date + "-de.pdf"
  }

  /** Different dates name different files. */
  lemma FileNameInjective(a: string, b: string)
    requires FileName(a) == FileName(b)
    ensures a == b
  {
    assert a == FileName(a)[4..4 + |a|];
  }

  // ---------------------------------------------------------------- cleaning a day's table

  /** The cells of a row that become the State and the Cases column. */
  datatype Pair = Pair(state: Cell, cases: Cell)

  /** `str.split(' ', 1)` on a cell, expanded into two columns. */
  function SplitCell(s: string): (p: Pair) {
    var (a, b) := SplitFirst(s, ' ');
    Pair(Some(a), b)
  }

  /** `p` is the cell `c` split at its first space: the part before it, and
      the rest if there is a space. */
  predicate SplitOf(c: Cell, p: Pair) {
    && c.Some? && p.state.Some?
    && ' ' !in p.state.value
    && (p.cases.None? ==> p.state.value == c.value)
    && (p.cases.Some? ==> p.state.value + " " + p.cases.value == c.value)
  }

  /** A row whose first cell can be split. */
  predicate Spaced(row: seq<Cell>) {
    |row| > 0 && row[0].Some? && ' ' in row[0].value
  }

  /** The two columns renamed State and Cases. A table of one or two columns
      has its complete rows' first cell split at the first space; when no cell
      has a space the split gives a single column and the renaming fails. A
      wider table keeps its first two columns. */
  function Pairs(f: Frame): (r: Result<seq<Pair>>)
    requires WellFormed(f)
    ensures |f.labels| == 0 ==> r.Err?
    ensures |f.labels| >= 3 ==> r.Ok? && |r.value| == |f.rows|
    ensures |f.labels| >= 3 ==> forall i :: 0 <= i < |f.rows| ==> r.value[i] == Pair(f.rows[i][0], f.rows[i][1])
    ensures 0 < |f.labels| < 3 ==> (r.Ok? <==> exists row :: row in DropNa(f).rows && Spaced(row))
    ensures 0 < |f.labels| < 3 && r.Ok? ==> |r.value| == |DropNa(f).rows|
    ensures 0 < |f.labels| < 3 && r.Ok? ==> forall i :: 0 <= i < |r.value| ==> SplitOf(DropNa(f).rows[i][0], r.value[i])
  {
    if |f.labels| == 0 then Err("IndexError: index 0 is out of bounds for axis 0 with size 0")
    else if |f.labels| < 3 then
      var rows := DropNa(f).rows;
      assert forall i :: 0 <= i < |rows| ==> rows[i] in rows && |rows[i]| == |f.labels|;
      if forall i :: 0 <= i < |rows| ==> !Spaced(rows[i]) then
        Err("IndexError: index 1 is out of bounds for axis 0 with size 1")
      else
        Ok(seq(|rows|, i requires 0 <= i < |rows| => SplitCell(rows[i][0].value)))
    else
      Ok(seq(|f.rows|, i requires 0 <= i < |f.rows| => Pair(f.rows[i][0], f.rows[i][1])))
  }

  /** A row after the renaming: the state and its cases, as text. */
  datatype Line = Line(state: string, cases: string)

  /** `dropna()` after the renaming: the rows with both cells. */
  function Lines(ps: seq<Pair>): (ls: seq<Line>)
    ensures |ls| <= |ps|
    ensures forall l :: l in ls <==> Pair(Some(l.state), Some(l.cases)) in ps
  {
    if ps == [] then []
    else
      assert forall p :: p in ps <==> p == ps[0] || p in ps[1..];
      (match ps[0] case Pair(Some(s), Some(c)) => [Line(s, c)] case _ => []) + Lines(ps[1..])
  }

  /** Each line occurs as often as its complete pair. */
  lemma {:induction false} LinesCount(ps: seq<Pair>)
    ensures forall l :: multiset(Lines(ps))[l] == multiset(ps)[Pair(Some(l.state), Some(l.cases))]
  {
    if ps != [] {
      LinesCount(ps[1..]);
      var head := match ps[0] case Pair(Some(s), Some(c)) => [Line(s, c)] case _ => [];
      assert Lines(ps) == head + Lines(ps[1..]);
      assert ps == [ps[0]] + ps[1..];
      assert multiset(ps) == multiset([ps[0]]) + multiset(ps[1..]);
      forall l ensures multiset(head)[l] == multiset([ps[0]])[Pair(Some(l.state), Some(l.cases))] {
        if head != [] {
          assert head == [Line(ps[0].state.value, ps[0].cases.value)];
        }
      }
    }
  }

  /** The lines keep the order of their pairs. */
  lemma {:induction false} LinesAppend(a: seq<Pair>, b: seq<Pair>)
    ensures Lines(a + b) == Lines(a) + Lines(b)
  {
    if a != [] {
      LinesAppend(a[1..], b);
      assert (a + b)[1..] == a[1..] + b;
    } else {
      assert a + b == b;
    }
  }

  /** Not the header row and not the row of totals. */
  predicate StateRow(l: Line) {
    l.state != "Bundesland" && l.state != "Gesamt"
  }

  function StateOf(l: Line): string {
    l.state
  }

  /** The table after `dropna`, the two filters and `sort_values(by='State')`. */
  function Cleaned(f: Frame): (r: Result<seq<Line>>)
    requires WellFormed(f)
    ensures r.Ok? <==> Pairs(f).Ok?
  {
    match Pairs(f)
    case Err(e) => Err(e)
    case Ok(ps) => Ok(SortBy(Filter(Lines(ps), StateRow), StateOf, StrLess))
  }

  /** The cleaned table holds exactly the complete rows that are neither the
      header nor the totals, each as often as in the table, sorted by state. */
  lemma CleanedMeaning(f: Frame)
    requires WellFormed(f) && Cleaned(f).Ok?
    ensures var ls := Cleaned(f).value;
      var ps := Pairs(f).value;
      && multiset(ls) == multiset(Filter(Lines(ps), StateRow))
      && (forall l :: l in ls <==> Pair(Some(l.state), Some(l.cases)) in ps && StateRow(l))
      && (forall l :: multiset(ls)[l] == if StateRow(l) then multiset(ps)[Pair(Some(l.state), Some(l.cases))] else 0)
      && SortedBy(ls, StateOf, StrLess)
  {
    var ps := Pairs(f).value;
    var kept := Filter(Lines(ps), StateRow);
    FilterKeeps(Lines(ps), StateRow);
    LinesCount(ps);
    var ls := Cleaned(f).value;
    StrLessIsOrder();
    SortBySorted(kept, StateOf, StrLess);
    forall l ensures l in ls <==> l in kept {
      assert l in ls <==> l in multiset(ls);
      assert l in kept <==> l in multiset(kept);
    }
  }

  /** `x.replace('.', '')` then `astype(int)`: the thousands separators
      deleted and the rest read as an integer. */
  function ParseCases(s: string): (r: Result<int>)
    ensures r.Ok? <==> IsIntLiteral(ReplaceAll(s, ".", ""))
  {
    ParseInt(ReplaceAll(s, ".", ""))
  }

  /** A thousands separator changes nothing: "1.234" reads as 1234. */
  lemma ParseCasesDot(a: string, b: string)
    ensures ParseCases(a + "." + b) == ParseCases(a + b)
  {
    ReplaceCharConcat(a + ".", b, '.', "");
    ReplaceCharConcat(a, ".", '.', "");
    ReplaceCharConcat(a, b, '.', "");
    ReplaceWhole(".", "");
    assert ReplaceAll(a, ".", "") + "" == ReplaceAll(a, ".", "");
  }

  lemma ParseCasesExample()
    ensures ParseCases("1.234") == Ok(1234)
  {
    ParseCasesDot("1", "234");
    assert "1" + "." + "234" == "1.234";
    AbsentByChar("1234", ".", 0);
    ReplaceAbsent("1234", ".", "");
    ParseIntExample();
  }

  lemma ParseIntExample()
    ensures ParseInt("1234") == Ok(1234)
  {
    assert AllDigits("1234");
    assert DigitsValue("1234") == DigitsValue("123") * 10 + 4 by {
      assert "1234"[..3] == "123";
    }
    assert DigitsValue("123") == DigitsValue("12") * 10 + 3 by {
      assert "123"[..2] == "12";
    }
    assert DigitsValue("12") == DigitsValue("1") * 10 + 2 by {
      assert "12"[..1] == "1";
    }
    assert DigitsValue("1") == 1 by {
      assert "1"[..0] == "";
    }
  }

  /** Every line's cases read, and the day's date put in front. */
  function Dated(date: int, ls: seq<Line>): (r: Result<seq<Row>>)
    ensures r.Ok? <==> forall i :: 0 <= i < |ls| ==> ParseCases(ls[i].cases).Ok?
    ensures r.Ok? ==> |r.value| == |ls|
    ensures r.Ok? ==> forall i :: 0 <= i < |ls| ==> r.value[i] == Row(date, ls[i].state, ParseCases(ls[i].cases).value)
  {
    if ls == [] then Ok([])
    else
      match ParseCases(ls[0].cases)
      case Err(e) => Err("ValueError: " + e)
      case Ok(c) =>
        match Dated(date, ls[1..])
        case Err(e) => Err(e)
        case Ok(rest) => Ok([Row(date, ls[0].state, c)] + rest)
  }

  /** The rows a day's table adds. */
  function DayRows(date: int, f: Frame): (r: Result<seq<Row>>)
    requires WellFormed(f)
    ensures r.Ok? ==> forall k :: 0 <= k < |r.value| ==> r.value[k].date == date
  {
    match Cleaned(f)
    case Err(e) => Err(e)
    case Ok(ls) => Dated(date, ls)
  }

  /** Every row a day adds carries the day, names a state which is not the
      header nor the totals, and comes in order of state; its cases are the
      number its cell spells. */
  lemma DayRowsMeaning(date: int, f: Frame)
    requires WellFormed(f) && DayRows(date, f).Ok?
    ensures var rows := DayRows(date, f).value;
      var ls := Cleaned(f).value;
      && |rows| == |ls|
      && (forall k :: 0 <= k < |rows| ==>
            rows[k].date == date && rows[k].state == ls[k].state && Ok(rows[k].cases) == ParseCases(ls[k].cases))
      && (forall k :: 0 <= k < |rows| ==> rows[k].state != "Bundesland" && rows[k].state != "Gesamt")
      && (forall j, k :: 0 <= j < k < |rows| ==> !StrLess(rows[k].state, rows[j].state))
  {
    var ls := Cleaned(f).value;
    var rows := DayRows(date, f).value;
    CleanedMeaning(f);
    forall k | 0 <= k < |rows| ensures rows[k].state != "Bundesland" && rows[k].state != "Gesamt" {
      assert ls[k] in ls;
    }
    forall j, k | 0 <= j < k < |rows| ensures !StrLess(rows[k].state, rows[j].state) {
      assert StateOf(ls[j]) == rows[j].state && StateOf(ls[k]) == rows[k].state;
    }
  }

  // ---------------------------------------------------------------- the loop

  /** Every report's page 2 is a list of well-formed tables. */
  predicate Available(pdfs: map<string, seq<Frame>>) {
    forall name :: name in pdfs ==> forall k :: 0 <= k < |pdfs[name]| ==> WellFormed(pdfs[name][k])
  }

  /** The report of `day`, `stamp` formatting a day as `%Y-%m-%d`. A file
      that is neither on disk nor on the server stops the run ("Does not
      exist"); a page without tables adds nothing. */
  function Reading(day: int, stamp: int -> string, pdfs: map<string, seq<Frame>>): (r: Result<Option<seq<Row>>>)
    requires Available(pdfs)
    ensures FileName(stamp(day)) !in pdfs ==> r == Err("Does not exist")
    ensures FileName(stamp(day)) in pdfs && pdfs[FileName(stamp(day))] == [] ==> r == Ok(None)
    ensures r.Ok? && r.value.Some? ==> forall k :: 0 <= k < |r.value.value| ==> r.value.value[k].date == day
  {
    var name := FileName(stamp(day));
    if name !in pdfs then Err("Does not exist")
    else if |pdfs[name]| == 0 then Ok(None)
    else
      match DayRows(day, pdfs[name][0])
      case Err(e) => Err(e)
      case Ok(rows) => Ok(Some(rows))
  }

  /** The reports of the days as `Reading` gives them. */
  function Reports(stamp: int -> string, pdfs: map<string, seq<Frame>>): (read: int -> Result<Option<seq<Row>>>)
    requires Available(pdfs)
  {
    d => Reading(d, stamp, pdfs)
  }

  lemma ReportsAt(day: int, stamp: int -> string, pdfs: map<string, seq<Frame>>)
    requires Available(pdfs)
    ensures Reports(stamp, pdfs)(day) == Reading(day, stamp, pdfs)
  {
  }

  /** The rows built up, and the error that ended the program if one did:
      the table is then not written. */
  datatype Outcome = Outcome(rows: seq<Row>, stopped: Option<string>)

  /** One pass: `df_rki_de_all.append(df_rki_de_new)`. */
  function Pass(o: Outcome, reading: Result<Option<seq<Row>>>): (p: Outcome)
    ensures reading.Err? ==> p == Outcome(o.rows, Some(reading.reason))
    ensures reading == Ok(None) ==> p == Outcome(o.rows, None)
    ensures reading.Ok? && reading.value.Some? ==> p == Outcome(o.rows + reading.value.value, None)
  {
    match reading
    case Err(e) => Outcome(o.rows, Some(e))
    case Ok(None) => Outcome(o.rows, None)
    case Ok(Some(added)) => Outcome(o.rows + added, None)
  }

  /** The passes of the loop over the days' reports, until one stops the
      program. */
  function RunReadings(rows: seq<Row>, rs: seq<Result<Option<seq<Row>>>>): (o: Outcome)
    decreases |rs|
  {
    if rs == [] then Outcome(rows, None)
    else
      var o := RunReadings(rows, rs[..|rs| - 1]);
      if o.stopped.Some? then o else Pass(o, rs[|rs| - 1])
  }

  /** `n` passes of the loop from `day` on. */
  function Run(rows: seq<Row>, day: int, n: nat, stamp: int -> string, pdfs: map<string, seq<Frame>>): Outcome
    requires Available(pdfs)
  {
    RunReadings(rows, Readings(Reports(stamp, pdfs), day, n))
  }

  lemma RunSnoc(rows: seq<Row>, rs: seq<Result<Option<seq<Row>>>>, r: Result<Option<seq<Row>>>)
    requires RunReadings(rows, rs).stopped.None?
    ensures RunReadings(rows, rs + [r]) == Pass(RunReadings(rows, rs), r)
  {
    var more := rs + [r];
    assert more[..|more| - 1] == rs && more[|more| - 1] == r;
  }

  /** Once the program has stopped, later reports change nothing. */
  lemma {:induction false} StoppedStays(rows: seq<Row>, rs: seq<Result<Option<seq<Row>>>>, more: seq<Result<Option<seq<Row>>>>)
    requires RunReadings(rows, rs).stopped.Some?
    ensures RunReadings(rows, rs + more) == RunReadings(rows, rs)
    decreases |more|
  {
    if more == [] {
      assert rs + more == rs;
    } else {
      var front := more[..|more| - 1];
      StoppedStays(rows, rs, front);
      assert (rs + more)[..|rs + more| - 1] == rs + front;
    }
  }

  /** The reports read until the run stopped, or all of them, give the
      outcome of the whole run. */
  lemma PrefixIsRun(rows: seq<Row>, day: int, n: nat, read: int -> Result<Option<seq<Row>>>, rs: seq<Result<Option<seq<Row>>>>)
    requires |rs| <= n && ReadsDays(rs, read, day)
    requires |rs| == n || RunReadings(rows, rs).stopped.Some?
    ensures RunReadings(rows, rs) == RunReadings(rows, Readings(read, day, n))
  {
    var all := Readings(read, day, n);
    ReadsDaysListed(rs, read, day, n);
    if |rs| == n {
      assert all[..|rs|] == all;
    } else {
      assert all == rs + all[|rs|..];
      StoppedStays(rows, rs, all[|rs|..]);
    }
  }

  /** The rows of each report read carry the report's day. */
  predicate DatedFrom(rs: seq<Result<Option<seq<Row>>>>, day: int) {
    forall i :: 0 <= i < |rs| && At(rs, i).Ok? && At(rs, i).value.Some? ==>
      forall k :: 0 <= k < |At(rs, i).value.value| ==> At(rs, i).value.value[k].date == day + i
  }

  /** Rows in order of date. */
  predicate Chronological(rows: seq<Row>) {
    forall j, k :: 0 <= j < k < |rows| ==> rows[j].date <= rows[k].date
  }

  /** A run after every stored date keeps the stored rows in front and adds
      rows of the run's days only, so a table in order of date stays so. */
  lemma {:induction false} RunChronological(rows: seq<Row>, day: int, rs: seq<Result<Option<seq<Row>>>>)
    requires Chronological(rows) && forall k :: 0 <= k < |rows| ==> rows[k].date < day
    requires DatedFrom(rs, day)
    ensures var o := RunReadings(rows, rs);
      && |rows| <= |o.rows| && o.rows[..|rows|] == rows
      && Chronological(o.rows)
      && (forall k :: |rows| <= k < |o.rows| ==> day <= o.rows[k].date < day + |rs|)
    decreases |rs|
  {
    if rs != [] {
      var front := rs[..|rs| - 1];
      assert DatedFrom(front, day) by {
        forall i | 0 <= i < |front| ensures At(front, i) == At(rs, i) { }
      }
      RunChronological(rows, day, front);
      var o := RunReadings(rows, front);
      var last := rs[|rs| - 1];
      if o.stopped.None? && last.Ok? && last.value.Some? {
        var added := last.value.value;
        assert At(rs, |rs| - 1) == last;
        forall k | 0 <= k < |o.rows| ensures o.rows[k].date <= day + |rs| - 1 {
          if k < |rows| { assert o.rows[k] == o.rows[..|rows|][k]; }
        }
        AppendLater(o.rows, added, day + |rs| - 1);
        var all := o.rows + added;
        assert all[..|rows|] == o.rows[..|rows|];
        forall k | |rows| <= k < |all| ensures day <= all[k].date < day + |rs| {
          if k >= |o.rows| { assert all[k] == added[k - |o.rows|]; }
        }
      }
    }
  }

  /** Rows of a day no earlier than any stored date keep the table in order. */
  lemma AppendLater(stored: seq<Row>, added: seq<Row>, d: int)
    requires Chronological(stored) && forall k :: 0 <= k < |stored| ==> stored[k].date <= d
    requires forall k :: 0 <= k < |added| ==> added[k].date == d
    ensures Chronological(stored + added)
  {
    var all := stored + added;
    forall j, k | 0 <= j < k < |all| ensures all[j].date <= all[k].date {
      if k >= |stored| {
        assert all[k] == added[k - |stored|];
        if j >= |stored| { assert all[j] == added[j - |stored|]; }
      }
    }
  }

  /** The reports of the days from `day` on carry their days. */
  lemma ReportsDated(day: int, n: nat, stamp: int -> string, pdfs: map<string, seq<Frame>>)
    requires Available(pdfs)
    ensures DatedFrom(Readings(Reports(stamp, pdfs), day, n), day)
  {
    var read := Reports(stamp, pdfs);
    var rs := Readings(read, day, n);
    forall i | 0 <= i < |rs| && At(rs, i).Ok? && At(rs, i).value.Some?
      ensures forall k :: 0 <= k < |At(rs, i).value.value| ==> At(rs, i).value.value[k].date == day + i
    {
      assert At(rs, i) == read(day + i);
    }
  }

  /** Resuming a table in order of date from the day after its latest date,
      or a fresh build from its hard-coded rows, keeps the stored rows and
      the order of dates. */
  lemma UpdateChronological(scratch: bool, rows: seq<Row>, end: int, stamp: int -> string, pdfs: map<string, seq<Frame>>)
    requires Available(pdfs) && StartDay(scratch, rows).Ok? && (scratch ==> rows == SeedRows())
    requires Chronological(rows)
    ensures var s := StartDay(scratch, rows).value;
      var o := Run(rows, s, VisitCount(s, end), stamp, pdfs);
      && |rows| <= |o.rows| && o.rows[..|rows|] == rows && Chronological(o.rows)
  {
    var s := StartDay(scratch, rows).value;
    if scratch {
      SeedStartAgrees();
    }
    assert forall k :: 0 <= k < |rows| ==> rows[k].date < s;
    ReportsDated(s, VisitCount(s, end), stamp, pdfs);
    RunChronological(rows, s, Readings(Reports(stamp, pdfs), s, VisitCount(s, end)));
  }

  /** The hard-coded rows are in order of date. */
  lemma SeedChronological()
    ensures Chronological(SeedRows())
  {
    var rows := SeedRows();
    forall j, k | 0 <= j < k < |rows| ensures rows[j].date <= rows[k].date {
    }
  }

  // ---------------------------------------------------------------- the table in place

  /** `df_rki_de_all`, the list of day tables the loop appends to, as the
      rows they hold together. */
  class RkiTable {
    var rows: seq<Row>

    /** A fresh build: the two hard-coded days. */
    constructor Fresh()
      ensures rows == SeedRows()
    {
      rows := SeedRows();
    }

    /** COVID-19_RKI_DE.csv read back. */
    constructor Load(stored: seq<Row>)
      ensures rows == stored
    {
      rows := stored;
    }

    /** One pass of the loop on `day`: `r` is the day's report. */
    method Visit(day: int, stamp: int -> string, pdfs: map<string, seq<Frame>>)
      returns (stopped: Option<string>, ghost r: Result<Option<seq<Row>>>)
      requires Available(pdfs)
      modifies this
      ensures r == Reading(day, stamp, pdfs)
      ensures Outcome(rows, stopped) == Pass(Outcome(old(rows), None), r)
    {
      r := Reading(day, stamp, pdfs);
      var file := FileName(stamp(day));
      if file !in pdfs {
        return Some("Does not exist"), r;
      }
      var tabs := pdfs[file];
      if |tabs| == 0 {
        return None, r;
      }
      var added := DayRows(day, tabs[0]);
      if added.Err? {
        return Some(added.reason), r;
      }
      rows := rows + added.value;
      stopped := None;
    }

    /** The `for dt` loop: `n` passes from `start` on, until a pass stops the
        program. `rs` are the reports read. */
    method Resume(start: int, n: nat, stamp: int -> string, pdfs: map<string, seq<Frame>>)
      returns (stopped: Option<string>, ghost rs: seq<Result<Option<seq<Row>>>>)
      requires Available(pdfs)
      modifies this
      ensures ReadsDays(rs, Reports(stamp, pdfs), start)
      ensures |rs| <= n && (|rs| == n || stopped.Some?)
      ensures Outcome(rows, stopped) == RunReadings(old(rows), rs)
    {
      ghost var rows0 := rows;
      ghost var read := Reports(stamp, pdfs);
      rs := [];
      stopped := None;
      var dt := 0;
      while dt < n
        invariant 0 <= dt <= n && |rs| == dt
        invariant ReadsDays(rs, read, start)
        invariant RunReadings(rows0, rs) == Outcome(rows, None)
        invariant stopped.None?
      {
        var day := start + dt;
        var err, r := Visit(day, stamp, pdfs);
        ReportsAt(day, stamp, pdfs);
        ReadsDaysSnoc(rs, r, read, start);
        RunSnoc(rows0, rs, r);
        rs := rs + [r];
        if err.Some? {
          stopped := err;
          return;
        }
        dt := dt + 1;
      }
    }

    /** Lines 27-178 of COVID-19_RKI.py: from the start day to `end`, the day
        before the run, each day's table read and appended. `scratch` says
        that the rows are the hard-coded ones of a fresh build. The script
        decides this by whether `COVID-19_RKI_WW.csv` exists (line 27), a
        file it no longer writes (lines 184-185 are commented out); the
        caller passes the outcome. */
    method Update(scratch: bool, end: int, stamp: int -> string, pdfs: map<string, seq<Frame>>)
      returns (stopped: Option<string>)
      requires Available(pdfs)
      modifies this
      ensures match StartDay(scratch, old(rows))
        case Err(e) => stopped == Some(e) && rows == old(rows)
        case Ok(s) => Outcome(rows, stopped) == Run(old(rows), s, VisitCount(s, end), stamp, pdfs)
    {
      var start := StartDay(scratch, rows);
      if start.Err? {
        return Some(start.reason);
      }
      var n := VisitCount(start.value, end);
      ghost var rows0 := rows;
      ghost var rs;
      stopped, rs := Resume(start.value, n, stamp, pdfs);
      PrefixIsRun(rows0, start.value, n, Reports(stamp, pdfs), rs);
    }
  }
}
