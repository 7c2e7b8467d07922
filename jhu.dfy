/** The Johns Hopkins (JHU) time series as COVID-19.py prepares them: `get_jhu`
    cleans the province names, promotes a few overseas subunits to countries of
    their own, normalises the country names and sums the rows of each country;
    the script then turns the running totals into daily increments and adds a
    "World" series. */
module Jhu {
  import opened Wrappers
  import opened Text
  import opened Patterns
  import opened Grouping

  /** One row of the JHU CSV: Province/State (empty for most countries),
      Country/Region and the cumulative count for each date from 2020-01-22 on.
      The script drops Lat and Long, so they are not modelled. */
  datatype JhuRow = JhuRow(province: Option<string>, country: string, counts: seq<int>)

  /** `draw_sub_unit`: subunits drawn as countries of their own on the map. */
  const DrawSubUnit: seq<string> :=
    ["Greenland", "French Southern and Antarctic Lands", "New Caledonia", "Falkland Islands", "Puerto Rico"]

  /** The `Province/State` rewrites, in source order. */
  const ProvinceRules: seq<Rule> := [
    Rule(Literal("Bonaire, Sint Eustatius and Saba"), "Caribbean Netherlands"),
    Rule(Literal("Curacao"), "Curaçao"),
    Rule(Literal("St Martin"), "Saint Martin"),
    Rule(Enclosed('(', ')'), "")
  ]

  /** The `Country` rewrites, in source order. Escaped brackets and `\*` are
      literal characters, so only line 42 is a wildcard pattern. */
  const CountryRules: seq<Rule> := [
    Rule(Literal("Burma"), "Myanmar"),
    Rule(Literal("Bahamas"), "The Bahamas"),
    Rule(Literal("Congo (Brazzaville)"), "Republic of the Congo"),
    Rule(Literal("Congo (Kinshasa)"), "Democratic Republic of the Congo"),
    Rule(UpTo("Ivoire"), "Ivory Coast"),
    Rule(Literal("Eswatini"), "eSwatini"),
    Rule(Literal("Holy See"), "Vatican"),
    Rule(Literal("Korea, South"), "South Korea"),
    Rule(Literal("Reunion"), "Réunion"),
    Rule(Literal("Sao Tome and Principe"), "São Tomé and Príncipe"),
    Rule(Literal("Serbia"), "Republic of Serbia"),
    Rule(Literal("Taiwan*"), "Taiwan"),
    Rule(Literal("Tanzania"), "United Republic of Tanzania"),
    Rule(Literal("Timor-Leste"), "East Timor"),
    Rule(Literal("US"), "United States of America"),
    Rule(Literal("West Bank and Gaza"), "Palestine")
  ]

  /** `str.replace` leaves a missing province missing. */
  function CleanProvince(row: JhuRow): (r: JhuRow)
    ensures r.country == row.country && r.counts == row.counts
    ensures r.province.Some? <==> row.province.Some?
  {
    match row.province
    case None => row
    case Some(p) => row.(province := Some(ApplyAll(ProvinceRules, p)))
  }

  /** The condition of line 32. */
  predicate Promotes(row: JhuRow) {
    && row.province.Some?
    && row.country != "Australia" && row.country != "Canada" && row.country != "China"
    && row.province.value in DrawSubUnit
  }

  /** What the loop of lines 30-33 does to one row. */
  function PromoteRow(row: JhuRow): (r: JhuRow)
    ensures r.province == row.province && r.counts == row.counts
    ensures Promotes(row) ==> r.country == row.province.value
    ensures !Promotes(row) ==> r == row
  {
    if Promotes(row) then row.(country := row.province.value) else row
  }

  /** Lines 30-33: each row with a province listed in `draw_sub_unit` whose
      country is not Australia, Canada or China gets the province as its
      country; every other row keeps its country. */
  method PromoteSubunits(rows: array<JhuRow>)
    modifies rows
    ensures forall i :: 0 <= i < rows.Length ==> rows[i] == PromoteRow(old(rows[i]))
  {
    for i := 0 to rows.Length
      invariant forall j :: 0 <= j < i ==> rows[j] == PromoteRow(old(rows[j]))
      invariant forall j :: i <= j < rows.Length ==> rows[j] == old(rows[j])
    {
      if rows[i].province.Some? {
        var country := rows[i].country;
        if country != "Australia" && country != "Canada" && country != "China" && rows[i].province.value in DrawSubUnit {
          rows[i] := rows[i].(country := rows[i].province.value);
        }
      }
    }
  }

  /** A CSV is a table: every row holds `w` dates. */
  predicate IsTable(csv: seq<JhuRow>, w: nat) {
    forall i :: 0 <= i < |csv| ==> |csv[i].counts| == w
  }

  /** A row as it reaches `groupby`: its country key after every rewrite. */
  function Normalise(row: JhuRow): (r: Keyed<string>)
    ensures r.vals == row.counts
  {
    Keyed(RenameCountry(PromoteRow(CleanProvince(row)).country), row.counts)
  }

  /** Lines 36-51, applied to one country name. */
  function RenameCountry(name: string): string {
    ApplyAll(CountryRules, name)
  }

  function Normalised(csv: seq<JhuRow>): (rows: seq<Keyed<string>>)
    ensures |rows| == |csv|
  {
    seq(|csv|, i requires 0 <= i < |csv| => Normalise(csv[i]))
  }

  /** `df.groupby('Country').sum()`, countries in Python's string order. */
  function JhuTable(csv: seq<JhuRow>, w: nat): seq<Keyed<string>>
    requires IsTable(csv, w)
  {
    NormalisedUniform(csv, w);
    GroupSum(Normalised(csv), StrLess, w)
  }

  /** `get_jhu`, lines 25-55: the province statements, the promotion loop over
      an array of rows, the country statements run column-wise one after the
      other, and the grouping. */
  method GetJhu(csv: seq<JhuRow>, w: nat) returns (table: seq<Keyed<string>>)
    requires IsTable(csv, w)
    ensures table == JhuTable(csv, w)
  {
    var cleaned := CleanProvinces(csv);
    var promoted := PromoteAll(cleaned);
    var renamed := ColumnSteps(CountryRules, Countries(promoted));
    RenamedIsNormalised(csv, cleaned, promoted);
    NormalisedUniform(csv, w);
    table := GroupSum(Rekey(promoted, renamed), StrLess, w);
  }

  /** The promotion loop run over an array holding the rows. */
  method PromoteAll(cleaned: seq<JhuRow>) returns (promoted: seq<JhuRow>)
    ensures |promoted| == |cleaned|
    ensures forall i :: 0 <= i < |cleaned| ==> promoted[i] == PromoteRow(cleaned[i])
  {
    var rows := new JhuRow[|cleaned|](i requires 0 <= i < |cleaned| => cleaned[i]);
    assert rows[..] == cleaned;
    PromoteSubunits(rows);
    promoted := rows[..];
  }

  /** Lines 25-28, the province statements, over the whole column. */
  function CleanProvinces(csv: seq<JhuRow>): (rows: seq<JhuRow>)
    ensures |rows| == |csv|
  {
    seq(|csv|, i requires 0 <= i < |csv| => CleanProvince(csv[i]))
  }

  function Countries(rows: seq<JhuRow>): (names: seq<string>)
    ensures |names| == |rows|
    ensures forall i :: 0 <= i < |rows| ==> names[i] == rows[i].country
  {
    seq(|rows|, i requires 0 <= i < |rows| => rows[i].country)
  }

  /** The rows with their renamed countries as keys. */
  function Rekey(rows: seq<JhuRow>, names: seq<string>): (keyed: seq<Keyed<string>>)
    requires |names| == |rows|
    ensures |keyed| == |rows|
    ensures forall i :: 0 <= i < |rows| ==> keyed[i] == Keyed(names[i], rows[i].counts)
  {
    seq(|rows|, i requires 0 <= i < |rows| => Keyed(names[i], rows[i].counts))
  }

  lemma RenamedIsNormalised(csv: seq<JhuRow>, cleaned: seq<JhuRow>, promoted: seq<JhuRow>)
    requires cleaned == CleanProvinces(csv) && |promoted| == |csv|
    requires forall i :: 0 <= i < |csv| ==> promoted[i] == PromoteRow(cleaned[i])
    ensures |ColumnSteps(CountryRules, Countries(promoted))| == |promoted|
    ensures Rekey(promoted, ColumnSteps(CountryRules, Countries(promoted))) == Normalised(csv)
  {
    StepsAreCellwise(CountryRules, Countries(promoted));
    forall i | 0 <= i < |csv|
      ensures ColumnSteps(CountryRules, Countries(promoted))[i] == RenameCountry(promoted[i].country)
    {
    }
  }

  /** After `groupby('Country').sum()` the countries are unique and sorted, the
      countries are exactly the normalised names of the CSV rows, each country's
      counts are the sums of its rows, and so every date's total is kept. */
  lemma JhuTableMeaning(csv: seq<JhuRow>, w: nat)
    requires IsTable(csv, w)
    ensures SortedKeys(JhuTable(csv, w), StrLess)
    ensures Keys(JhuTable(csv, w)) == Keys(Normalised(csv))
    ensures forall k :: Lookup(JhuTable(csv, w), k, w) == KeySum(Normalised(csv), k, w)
    ensures forall j :: 0 <= j < w ==> Total(JhuTable(csv, w), j, w) == Total(Normalised(csv), j, w)
  {
    var rows := Normalised(csv);
    NormalisedUniform(csv, w);
    StrLessIsOrder();
    GroupSumMeaning(rows, StrLess, w);
    forall j | 0 <= j < w
      ensures Total(GroupSum(rows, StrLess, w), j, w) == Total(rows, j, w)
    {
      GroupSumTotals(rows, StrLess, w, j);
    }
  }

  lemma NormalisedUniform(csv: seq<JhuRow>, w: nat)
    requires IsTable(csv, w)
    ensures Uniform(Normalised(csv), w)
  {
    var rows := Normalised(csv);
    forall i | 0 <= i < |rows| ensures |rows[i].vals| == w {
      assert rows[i].vals == csv[i].counts;
    }
  }

  /** The Serbia rule of line 48 is not idempotent: it turns "Serbia" into
      "Republic of Serbia", and run again it would turn that into "Republic of
      Republic of Serbia". The chain therefore runs exactly once per name. */
  lemma SerbiaRuleNotIdempotent(s: string)
    requires s == "Republic of Serbia"
    ensures Apply(CountryRules[10], "Serbia") == s
    ensures Apply(CountryRules[10], s) == "Republic of " + s
  {
    assert CountryRules[10] == Rule(Literal("Serbia"), s);
    ReplaceWhole("Serbia", s);
    SerbiaInside(s);
  }

  lemma SerbiaInside(s: string)
    requires s == "Republic of Serbia"
    ensures ReplaceAll(s, "Serbia", s) == s[..12] + s
  {
    assert OccursAt(s, "Serbia", 12);
    ReplaceAt(s, "Serbia", s, 12);
    assert ReplaceAll(s[18..], "Serbia", s) == "";
  }

  // ---------------------------------------------------------------- daily increments

  /** The daily increments behind a series of running totals: nothing on the
      first date, then the difference between consecutive totals. */
  function Daily(tot: seq<int>): (inc: seq<int>)
    ensures |inc| == |tot|
  {
    seq(|tot|, d requires 0 <= d < |tot| => if d == 0 then 0 else tot[d] - tot[d - 1])
  }

  function Sum(xs: seq<int>): int {
    if xs == [] then 0 else Sum(xs[..|xs| - 1]) + xs[|xs| - 1]
  }

  /** Summing the increments up to a date gives that date's total less the
      first date's total. */
  lemma {:induction false} DailyTelescopes(tot: seq<int>, d: nat)
    requires d < |tot|
    ensures Sum(Daily(tot)[..d + 1]) == tot[d] - tot[0]
  {
    var inc := Daily(tot);
    if d == 0 {
      assert inc[..1] == [0];
      assert Sum([0]) == Sum([]) + 0;
    } else {
      DailyTelescopes(tot, d - 1);
      assert inc[..d + 1][..d] == inc[..d];
    }
  }

  /** Running totals rebuilt from a first total and increments. */
  function Cumulate(first: int, inc: seq<int>): (tot: seq<int>)
    ensures |tot| == |inc|
  {
    seq(|inc|, d requires 0 <= d < |inc| => first + Sum(inc[..d + 1]))
  }

  /** No information is lost: the totals come back from the first total and the
      increments. */
  lemma DailyRoundTrip(tot: seq<int>)
    requires |tot| > 0
    ensures Cumulate(tot[0], Daily(tot)) == tot
  {
    forall d | 0 <= d < |tot| ensures Cumulate(tot[0], Daily(tot))[d] == tot[d] {
      DailyTelescopes(tot, d);
    }
  }

  /** Row `r` of a table of countries by dates. */
  ghost function RowOf(a: array2<int>, r: nat): (row: seq<int>)
    requires r < a.Length0
    reads a
    ensures |row| == a.Length1
  {
    seq(a.Length1, d requires 0 <= d < a.Length1 reads a => a[r, d])
  }

  /** Lines 73-81: `df_cases_new` starts as a copy of the totals, one row per
      country and one column per date (column 0 is `first_dt`); the loop walks
      from the last date down to the second, replacing each column by its
      difference with the column before (which still holds totals), and
      finally sets the first column to 0. */
  method Differencing(a: array2<int>)
    modifies a
    ensures forall r :: 0 <= r < a.Length0 ==> RowOf(a, r) == Daily(old(RowOf(a, r)))
  {
    ghost var orig := seq(a.Length0, r requires 0 <= r < a.Length0 reads a => RowOf(a, r));
    var d := a.Length1 - 1;
    while d > 0
      invariant d < a.Length1
      invariant forall r, e :: 0 <= r < a.Length0 && 0 <= e <= d ==> a[r, e] == orig[r][e]
      invariant forall r, e :: 0 <= r < a.Length0 && d < e < a.Length1 && 0 < e ==>
        a[r, e] == orig[r][e] - orig[r][e - 1]
    {
      for r := 0 to a.Length0
        invariant forall q, e :: 0 <= q < a.Length0 && 0 <= e < d ==> a[q, e] == orig[q][e]
        invariant forall q, e :: 0 <= q < a.Length0 && d < e < a.Length1 ==>
          a[q, e] == orig[q][e] - orig[q][e - 1]
        invariant forall q :: 0 <= q < r ==> a[q, d] == orig[q][d] - orig[q][d - 1]
        invariant forall q :: r <= q < a.Length0 ==> a[q, d] == orig[q][d]
      {
        a[r, d] := a[r, d] - a[r, d - 1];
      }
      d := d - 1;
    }
    if a.Length1 > 0 {
      for r := 0 to a.Length0
        invariant forall q, e :: 0 <= q < a.Length0 && 0 < e < a.Length1 ==>
          a[q, e] == orig[q][e] - orig[q][e - 1]
        invariant forall q :: 0 <= q < r ==> a[q, 0] == 0
      {
        a[r, 0] := 0;
      }
    }
    forall r | 0 <= r < a.Length0 ensures RowOf(a, r) == Daily(orig[r]) {
      assert forall e :: 0 <= e < a.Length1 ==> RowOf(a, r)[e] == Daily(orig[r])[e];
    }
  }

  /** `update_map`, lines 316-319: the day before the shown one, or the shown
      day itself when it is the first date. */
  function PrevDay(show: int, first: int): (prev: int)
    ensures first <= show ==> first <= prev <= show
  {
    if show > first then show - 1 else show
  }

  /** The map's "New" figure, the shown total less the previous day's
      (lines 337-338), is the daily increment stored by the differencing loop,
      hence 0 on the first date. */
  lemma ShownNewIsDaily(tot: seq<int>, show: nat)
    requires show < |tot|
    ensures tot[show] - tot[PrevDay(show, 0)] == Daily(tot)[show]
    ensures show == 0 ==> tot[show] - tot[PrevDay(show, 0)] == 0
  {
  }

  // ---------------------------------------------------------------- the World series

  /** Lines 136, 142, 148 and 154, as written: after the transposition a row
      holds the date followed by one column per country, and `row[1:-1]` stops
      one column short, so the alphabetically last country is left out. */
  function WorldAsWritten(table: seq<Keyed<string>>, j: nat, w: nat): int
    requires Uniform(table, w) && j < w
  {
    if table == [] then 0 else Total(table[..|table| - 1], j, w)
  }

  /** The World figure for a date: every country's count on that date. */
  function World(table: seq<Keyed<string>>, j: nat, w: nat): int
    requires Uniform(table, w) && j < w
  {
    Total(table, j, w)
  }

  lemma {:induction false} TotalLast(table: seq<Keyed<string>>, j: nat, w: nat)
    requires Uniform(table, w) && j < w && |table| > 0
    ensures Total(table, j, w) == Total(table[..|table| - 1], j, w) + table[|table| - 1].vals[j]
  {
    if |table| > 1 {
      TotalLast(table[1..], j, w);
      assert table[1..][..|table| - 2] == table[..|table| - 1][1..];
    }
  }

  /** As written, World is short by exactly the last country's count. */
  lemma WorldAsWrittenOmitsLast(table: seq<Keyed<string>>, j: nat, w: nat)
    requires Uniform(table, w) && j < w && |table| > 0
    ensures WorldAsWritten(table, j, w) == World(table, j, w) - table[|table| - 1].vals[j]
  {
    TotalLast(table, j, w);
  }

  /** Two countries reporting 1 and 2 cases: the World series as written shows
      1 where 3 is meant. */
  lemma WorldAsWrittenCounterexample()
    ensures var t := [Keyed("France", [1]), Keyed("Germany", [2])];
      WorldAsWritten(t, 0, 1) == 1 && World(t, 0, 1) == 3
  {
    var t := [Keyed("France", [1]), Keyed("Germany", [2])];
    assert t[..1] == [Keyed("France", [1])];
    assert t[1..] == [Keyed("Germany", [2])];
    assert t[..1][1..] == [];
    assert Total(t[..1], 0, 1) == 1 + Total(t[..1][1..], 0, 1);
    assert t[1..][1..] == [];
    assert Total(t[1..], 0, 1) == 2 + Total(t[1..][1..], 0, 1);
  }

  /** The corrected World figure for a date is the total of every row of the
      CSV on that date, whatever the renaming and grouping did. */
  lemma WorldIsAllRows(csv: seq<JhuRow>, w: nat, j: nat)
    requires IsTable(csv, w) && j < w
    ensures World(JhuTable(csv, w), j, w) == Total(Normalised(csv), j, w)
  {
    GroupSumTotals(Normalised(csv), StrLess, w, j);
  }
}
