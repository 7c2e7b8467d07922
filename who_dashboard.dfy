/** The data behind the WHO dashboard, COVID-19_WHO.py: `get_who` reads the
    WHO daily CSV, normalises the country names, merges the small subunits
    into their parent countries and sums per (country, date); `get_geo` reads
    the Natural Earth countries and joins the populations; `get_map` joins one
    date's counts to the shapes; `df_all` holds the world totals; `change_res`
    reloads everything at the other map resolution. Geometry, JSON and the
    per-1k ratios are left out. */
module WhoDashboard {
  import opened Wrappers
  import opened Text
  import opened Patterns
  import opened Grouping

  // ---------------------------------------------------------------- get_who

  /** A row of the WHO CSV as read: the date, a column the script drops, the
      country name, another dropped column and four counts. */
  datatype WhoCsvRow = WhoCsvRow(date: int, code: string, name: string, region: string,
                                 c4: int, c5: int, c6: int, c7: int)

  /** Line 25 renames the columns by position: after the drop of columns 1
      and 3 the four counts are named, in order, Deaths_New_Abs,
      Deaths_Tot_Abs, Cases_New_Abs and Cases_Tot_Abs. */
  const DeathsNew: nat := 0
  const DeathsTot: nat := 1
  const CasesNew: nat := 2
  const CasesTot: nat := 3

  function Counts(row: WhoCsvRow): (vals: seq<int>)
    ensures |vals| == 4
    ensures vals[DeathsNew] == row.c4 && vals[DeathsTot] == row.c5
    ensures vals[CasesNew] == row.c6 && vals[CasesTot] == row.c7
  {
    [row.c4, row.c5, row.c6, row.c7]
  }

  /** The bracket strip of line 29. */
  const ParenRule: Rule := Rule(Enclosed('(', ')'), "")

  /** The `^Congo` rule of line 34. */
  const CongoRule: Rule := Rule(Prefix("Congo"), "Republic of the Congo")

  /** The `Country` rewrites of lines 29-52, in source order. */
  const WhoRules: seq<Rule> := [
    ParenRule,
    Rule(Literal("Bahamas"), "The Bahamas"),
    Rule(Literal("Bonaire, Sint Eustatius and Saba"), "Caribbean Netherlands"),
    Rule(Literal("Brunei Darussalam"), "Brunei"),
    CongoRule,
    Rule(UpTo("Ivoire"), "Ivory Coast"),
    Rule(Literal("Curacao"), "Curaçao"),
    Rule(Literal("Eswatini"), "eSwatini"),
    Rule(Literal("Holy See"), "Vatican"),
    Rule(Literal("International conveyance"), "Diamond Princess"),
    Rule(PrefixLine("Kosovo"), "Kosovo"),
    Rule(PrefixLine("Lao"), "Laos"),
    Rule(PrefixLine("occupied"), "Palestine"),
    Rule(Literal("Republic of Korea"), "South Korea"),
    Rule(Literal("Republic of Moldova"), "Moldova"),
    Rule(Literal("Russian Federation"), "Russia"),
    Rule(Literal("Saint Barthélemy"), "Saint Barthelemy"),
    Rule(Literal("Sao Tome and Principe"), "São Tomé and Príncipe"),
    Rule(Literal("Serbia"), "Republic of Serbia"),
    Rule(Literal("Syrian Arab Republic"), "Syria"),
    Rule(Literal("The United Kingdom"), "United Kingdom"),
    Rule(Literal("Timor-Leste"), "East Timor"),
    Rule(Literal("Viet Nam"), "Vietnam")
  ]

  /** A country name without an opening bracket is left alone by the bracket
      strip. */
  lemma ParenRuleNeedsBracket(s: string)
    requires '(' !in s
    ensures WhoRules[0] == ParenRule
    ensures Apply(WhoRules[0], s) == s
  {
    EnclosedNeedsOpen(s, '(', ')', "");
  }

  /** `^Congo` rewrites a name exactly when it begins with "Congo", and then
      only that beginning. */
  lemma CongoRuleAnchored(s: string)
    ensures WhoRules[4] == CongoRule
    ensures Apply(CongoRule, s) != s <==> StartsWith(s, "Congo")
    ensures StartsWith(s, "Congo") ==> Apply(CongoRule, s) == "Republic of the Congo" + s[5..]
  {
    PrefixOnlyAtStart("Congo", "Republic of the Congo", s);
    if StartsWith(s, "Congo") {
      assert |"Republic of the Congo" + s[5..]| > |s|;
    }
  }

  /** In particular the Democratic Republic of the Congo keeps its name. */
  lemma CongoRuleSparesDemocraticRepublic(s: string)
    requires s == "Democratic Republic of the Congo"
    ensures Apply(CongoRule, s) == s
  {
    NotStartsWith(s, "Congo", 0);
  }

  /** The map resolution: `'110m'` (the default) or `'50m'`. */
  datatype Resolution = Low | High

  function ResolutionName(res: Resolution): string {
    match res
    case Low => "110m"
    case High => "50m"
  }

  /** A row of Subunits_and_small_shapes.csv: a subunit, the country it
      belongs to, and whether the map at each resolution draws it ('No' when
      it does not). */
  datatype Subunit = Subunit(subunit: string, country: string, drawnLow: string, drawnHigh: string)

  function Drawn(s: Subunit, res: Resolution): string {
    match res
    case Low => s.drawnLow
    case High => s.drawnHigh
  }

  /** The test of line 54: the subunit is not drawn and is not its own country. */
  predicate Merges(s: Subunit, res: Resolution) {
    Drawn(s, res) == "No" && s.subunit != s.country
  }

  function MergeRule(s: Subunit): Rule {
    Rule(Literal(s.subunit), s.country)
  }

  /** The replacements of line 55, in the order of the subunit table. */
  function MergeRules(subs: seq<Subunit>, res: Resolution): (rules: seq<Rule>)
    ensures |rules| <= |subs|
  {
    if subs == [] then []
    else (if Merges(subs[0], res) then [MergeRule(subs[0])] else []) + MergeRules(subs[1..], res)
  }

  /** There is one replacement for each subunit that merges, and no other. */
  lemma {:induction false} MergeRulesMeaning(subs: seq<Subunit>, res: Resolution)
    ensures forall r :: r in MergeRules(subs, res) <==> exists s :: s in subs && Merges(s, res) && r == MergeRule(s)
  {
    if subs != [] {
      MergeRulesMeaning(subs[1..], res);
      assert forall s :: s in subs <==> s == subs[0] || s in subs[1..];
    }
  }

  lemma {:induction false} MergeRulesAppend(a: seq<Subunit>, b: seq<Subunit>, res: Resolution)
    ensures MergeRules(a + b, res) == MergeRules(a, res) + MergeRules(b, res)
  {
    if a == [] {
      assert a + b == b;
    } else {
      var head := if Merges(a[0], res) then [MergeRule(a[0])] else [];
      assert (a + b)[0] == a[0];
      assert (a + b)[1..] == a[1..] + b;
      assert MergeRules(a + b, res) == head + MergeRules(a[1..] + b, res);
      MergeRulesAppend(a[1..], b, res);
      assert head + (MergeRules(a[1..], res) + MergeRules(b, res)) == (head + MergeRules(a[1..], res)) + MergeRules(b, res);
    }
  }

  /** Lines 54-55: for each merging subunit in turn, its name is replaced by
      its country's name throughout the Country column. */
  method MergeSubunits(names: seq<string>, subs: seq<Subunit>, res: Resolution) returns (merged: seq<string>)
    ensures merged == ColumnSteps(MergeRules(subs, res), names)
  {
    merged := names;
    for i := 0 to |subs|
      invariant ColumnSteps(MergeRules(subs, res), names) == ColumnSteps(MergeRules(subs[i..], res), merged)
    {
      assert subs[i..][1..] == subs[i + 1..];
      if Drawn(subs[i], res) == "No" && subs[i].subunit != subs[i].country {
        var rule := Rule(Literal(subs[i].subunit), subs[i].country);
        assert ([rule] + MergeRules(subs[i + 1..], res))[1..] == MergeRules(subs[i + 1..], res);
        merged := MapRule(rule, merged);
      } else {
        assert MergeRules(subs[i..], res) == MergeRules(subs[i + 1..], res);
      }
    }
    assert subs[|subs|..] == [];
  }

  /** A name that is a merging subunit, and that no earlier replacement has
      touched, becomes its country's name; the later replacements then see the
      country's name. */
  lemma MergeReplaces(subs: seq<Subunit>, res: Resolution, k: nat, name: string)
    requires k < |subs| && Merges(subs[k], res) && name == subs[k].subunit
    requires forall r :: r in MergeRules(subs[..k], res) ==> Inert(r, name)
    ensures ApplyAll(MergeRules(subs, res), name) == ApplyAll(MergeRules(subs[k + 1..], res), subs[k].country)
  {
    var before := MergeRules(subs[..k], res);
    assert subs == subs[..k] + ([subs[k]] + subs[k + 1..]);
    MergeRulesAppend(subs[..k], [subs[k]] + subs[k + 1..], res);
    assert ([subs[k]] + subs[k + 1..])[1..] == subs[k + 1..];
    ApplyAllAppend(before, [MergeRule(subs[k])] + MergeRules(subs[k + 1..], res), name);
    assert forall i :: 0 <= i < |before| ==> Inert(before[i], name) by {
      forall i | 0 <= i < |before| ensures Inert(before[i], name) {
        assert before[i] in before;
      }
    }
    InertChain(before, name);
    ReplaceWhole(name, subs[k].country);
  }

  /** The name a CSV row is grouped under: the rewrites of lines 29-52, then
      the subunit merges. */
  function WhoName(name: string, subs: seq<Subunit>, res: Resolution): string {
    ApplyAll(MergeRules(subs, res), ApplyAll(WhoRules, name))
  }

  /** A CSV row as it reaches `groupby(['Date','Country'])`, keyed by
      (country, date): the order `sort_values(['Country', 'Date'])` leaves. */
  function WhoKeyed(row: WhoCsvRow, subs: seq<Subunit>, res: Resolution): (r: Keyed<(string, int)>)
    ensures r.key.1 == row.date && r.vals == Counts(row)
  {
    Keyed((WhoName(row.name, subs, res), row.date), Counts(row))
  }

  function WhoRows(csv: seq<WhoCsvRow>, subs: seq<Subunit>, res: Resolution): (rows: seq<Keyed<(string, int)>>)
    ensures |rows| == |csv| && Uniform(rows, 4)
  {
    seq(|csv|, i requires 0 <= i < |csv| => WhoKeyed(csv[i], subs, res))
  }

  /** `get_who(resolution)`: one row per (country, date), ordered by country
      and then date, the counts summed. */
  function WhoTable(csv: seq<WhoCsvRow>, subs: seq<Subunit>, res: Resolution): (t: seq<Keyed<(string, int)>>)
    ensures Uniform(t, 4)
  {
    GroupSum(WhoRows(csv, subs, res), CountryDateLess, 4)
  }

  function Names(csv: seq<WhoCsvRow>): (names: seq<string>)
    ensures |names| == |csv|
    ensures forall i :: 0 <= i < |csv| ==> names[i] == csv[i].name
  {
    seq(|csv|, i requires 0 <= i < |csv| => csv[i].name)
  }

  function Rekey(csv: seq<WhoCsvRow>, names: seq<string>): (rows: seq<Keyed<(string, int)>>)
    requires |names| == |csv|
    ensures |rows| == |csv|
    ensures forall i :: 0 <= i < |csv| ==> rows[i] == Keyed((names[i], csv[i].date), Counts(csv[i]))
  {
    seq(|csv|, i requires 0 <= i < |csv| => Keyed((names[i], csv[i].date), Counts(csv[i])))
  }

  /** `get_who`, lines 21-61: the rewrites run column-wise one statement after
      the other, the merge loop, then the grouping. */
  method GetWho(csv: seq<WhoCsvRow>, subs: seq<Subunit>, res: Resolution) returns (table: seq<Keyed<(string, int)>>)
    ensures table == WhoTable(csv, subs, res)
  {
    var renamed := ColumnSteps(WhoRules, Names(csv));
    var merged := MergeSubunits(renamed, subs, res);
    MergedIsWhoName(csv, subs, res, renamed, merged);
    table := GroupSum(Rekey(csv, merged), CountryDateLess, 4);
  }

  lemma MergedIsWhoName(csv: seq<WhoCsvRow>, subs: seq<Subunit>, res: Resolution, renamed: seq<string>, merged: seq<string>)
    requires renamed == ColumnSteps(WhoRules, Names(csv))
    requires merged == ColumnSteps(MergeRules(subs, res), renamed)
    ensures |merged| == |csv| && Rekey(csv, merged) == WhoRows(csv, subs, res)
  {
    StepsAreCellwise(WhoRules, Names(csv));
    StepsAreCellwise(MergeRules(subs, res), renamed);
  }

  /** After grouping and sorting, the (country, date) pairs are unique and in
      order of country, then date; they are exactly the pairs of the CSV rows;
      each carries the sum of its rows, so no count is lost. */
  lemma WhoTableMeaning(csv: seq<WhoCsvRow>, subs: seq<Subunit>, res: Resolution)
    ensures SortedKeys(WhoTable(csv, subs, res), CountryDateLess)
    ensures Keys(WhoTable(csv, subs, res)) == Keys(WhoRows(csv, subs, res))
    ensures forall k :: Lookup(WhoTable(csv, subs, res), k, 4) == KeySum(WhoRows(csv, subs, res), k, 4)
    ensures forall j :: 0 <= j < 4 ==> Total(WhoTable(csv, subs, res), j, 4) == Total(WhoRows(csv, subs, res), j, 4)
  {
    var rows := WhoRows(csv, subs, res);
    CountryDateIsOrder();
    GroupSumMeaning(rows, CountryDateLess, 4);
    forall j | 0 <= j < 4 ensures Total(GroupSum(rows, CountryDateLess, 4), j, 4) == Total(rows, j, 4) {
      GroupSumTotals(rows, CountryDateLess, 4, j);
    }
  }

  // ---------------------------------------------------------------- get_geo

  /** A row of the Natural Earth countries file: ADMIN and ADM0_A3 (the
      geometry is not modelled). */
  datatype Shape = Shape(country: string, code: string)

  /** A row of Countries.csv. */
  datatype Population = Population(country: string, population: int)

  /** A row of `df_geo`: a shape and its population, missing when Countries.csv
      has no row for it. */
  datatype GeoRow = GeoRow(country: string, code: string, population: Option<int>)

  /** Line 74, the 2019 rename. */
  const MacedoniaRule: Rule := Rule(Literal("Macedonia"), "North Macedonia")

  /** `'ne_' + resolution + '_admin_0_countries.shp'`. */
  function GeoFile(res: Resolution): string {
    "ne_" + ResolutionName(res) + "_admin_0_countries.shp"
  }

  /** The two resolutions read different files. */
  lemma GeoFilesDiffer()
    ensures GeoFile(Low) != GeoFile(High)
  {
    assert GeoFile(Low)[3] != GeoFile(High)[3];
  }

  function RenameShapes(shapes: seq<Shape>): (r: seq<Shape>)
    ensures |r| == |shapes|
  {
    seq(|shapes|, i requires 0 <= i < |shapes| => Shape(Apply(MacedoniaRule, shapes[i].country), shapes[i].code))
  }

  /** Line 80: the rows named Antarctica go, the others stay in order. */
  function DropAntarctica(shapes: seq<Shape>): (r: seq<Shape>)
    ensures |r| <= |shapes|
  {
    if shapes == [] then []
    else (if shapes[0].country == "Antarctica" then [] else [shapes[0]]) + DropAntarctica(shapes[1..])
  }

  /** Exactly the rows named Antarctica are removed. */
  lemma {:induction false} DropAntarcticaMeaning(shapes: seq<Shape>)
    ensures forall s :: s in DropAntarctica(shapes) <==> s in shapes && s.country != "Antarctica"
  {
    if shapes != [] {
      DropAntarcticaMeaning(shapes[1..]);
      assert forall s :: s in shapes <==> s == shapes[0] || s in shapes[1..];
    }
  }

  /** The populations recorded for a country, in file order. */
  function PopulationsOf(pops: seq<Population>, c: string): (r: seq<int>)
    ensures |r| <= |pops|
  {
    if pops == [] then []
    else (if pops[0].country == c then [pops[0].population] else []) + PopulationsOf(pops[1..], c)
  }

  /** One shape after the left merge: a row per matching population, or one
      row without a population. */
  function MergeShape(s: Shape, pops: seq<Population>): (r: seq<GeoRow>)
    ensures |r| >= 1
    ensures forall g :: g in r ==> g.country == s.country && g.code == s.code
  {
    var ps := PopulationsOf(pops, s.country);
    if ps == [] then [GeoRow(s.country, s.code, None)]
    else seq(|ps|, i requires 0 <= i < |ps| => GeoRow(s.country, s.code, Some(ps[i])))
  }

  /** `df.merge(df_countries, on='Country', how='left')`: the shapes in order,
      each followed by its matches. */
  function LeftMerge(shapes: seq<Shape>, pops: seq<Population>): (r: seq<GeoRow>)
    ensures |r| >= |shapes|
  {
    if shapes == [] then [] else MergeShape(shapes[0], pops) + LeftMerge(shapes[1..], pops)
  }

  /** `get_geo`, lines 67-89. */
  function GetGeo(shapes: seq<Shape>, pops: seq<Population>): seq<GeoRow> {
    LeftMerge(DropAntarctica(RenameShapes(shapes)), pops)
  }

  /** Countries.csv names each country at most once. */
  predicate UniquePopulations(pops: seq<Population>) {
    forall i, j :: 0 <= i < j < |pops| ==> pops[i].country != pops[j].country
  }

  lemma {:induction false} PopulationsOfUnique(pops: seq<Population>, c: string)
    requires UniquePopulations(pops)
    ensures |PopulationsOf(pops, c)| <= 1
    ensures |PopulationsOf(pops, c)| == 1 <==> exists i :: 0 <= i < |pops| && pops[i].country == c
    ensures forall i :: 0 <= i < |pops| && pops[i].country == c ==> PopulationsOf(pops, c) == [pops[i].population]
  {
    if pops != [] {
      assert UniquePopulations(pops[1..]) by {
        forall i, j | 0 <= i < j < |pops[1..]| ensures pops[1..][i].country != pops[1..][j].country {
          assert pops[1..][i] == pops[i + 1] && pops[1..][j] == pops[j + 1];
        }
      }
      PopulationsOfUnique(pops[1..], c);
      forall i | 0 <= i < |pops| && pops[i].country == c ensures PopulationsOf(pops, c) == [pops[i].population] {
        if i > 0 {
          assert pops[1..][i - 1] == pops[i];
        }
      }
      if exists i :: 0 <= i < |pops[1..]| && pops[1..][i].country == c {
        var i :| 0 <= i < |pops[1..]| && pops[1..][i].country == c;
        assert pops[i + 1].country == c;
      }
    }
  }

  /** The population a shape receives when Countries.csv names each country
      at most once. */
  function PopulationOf(pops: seq<Population>, c: string): Option<int> {
    var ps := PopulationsOf(pops, c);
    if ps == [] then None else Some(ps[0])
  }

  /** The left merge keeps every shape: with a unique population table it
      keeps the shapes one for one, in order, each with its population or
      none. */
  lemma {:induction false} LeftMergeUnique(shapes: seq<Shape>, pops: seq<Population>)
    requires UniquePopulations(pops)
    ensures |LeftMerge(shapes, pops)| == |shapes|
    ensures forall i :: 0 <= i < |shapes| ==>
      LeftMerge(shapes, pops)[i] == GeoRow(shapes[i].country, shapes[i].code, PopulationOf(pops, shapes[i].country))
  {
    if shapes != [] {
      LeftMergeUnique(shapes[1..], pops);
      PopulationsOfUnique(pops, shapes[0].country);
      var head := MergeShape(shapes[0], pops);
      assert head == [GeoRow(shapes[0].country, shapes[0].code, PopulationOf(pops, shapes[0].country))];
      forall i | 0 <= i < |shapes| ensures LeftMerge(shapes, pops)[i] ==
        GeoRow(shapes[i].country, shapes[i].code, PopulationOf(pops, shapes[i].country))
      {
        if i > 0 {
          assert LeftMerge(shapes, pops)[i] == LeftMerge(shapes[1..], pops)[i - 1];
        }
      }
    }
  }

  /** Whatever the population table, every shape's name and code reach the
      merged table, and nothing else does. */
  lemma {:induction false} LeftMergeKeeps(shapes: seq<Shape>, pops: seq<Population>)
    ensures forall s :: s in shapes ==> exists g :: g in LeftMerge(shapes, pops) && g.country == s.country && g.code == s.code
    ensures forall g :: g in LeftMerge(shapes, pops) ==> Shape(g.country, g.code) in shapes
  {
    if shapes != [] {
      LeftMergeKeeps(shapes[1..], pops);
      var head := MergeShape(shapes[0], pops);
      var r := LeftMerge(shapes, pops);
      assert r == head + LeftMerge(shapes[1..], pops);
      assert head[0] in r;
      forall s | s in shapes ensures exists g :: g in r && g.country == s.country && g.code == s.code {
        if s != shapes[0] {
          assert s in shapes[1..];
          var g :| g in LeftMerge(shapes[1..], pops) && g.country == s.country && g.code == s.code;
          assert g in r;
        }
      }
      forall g | g in r ensures Shape(g.country, g.code) in shapes {
        if g !in head {
          assert g in LeftMerge(shapes[1..], pops);
        }
      }
    }
  }

  /** `get_geo` keeps every shape except those named Antarctica. */
  lemma GetGeoMeaning(shapes: seq<Shape>, pops: seq<Population>)
    ensures forall g :: g in GetGeo(shapes, pops) ==> g.country != "Antarctica"
    ensures forall s :: s in RenameShapes(shapes) && s.country != "Antarctica" ==>
      exists g :: g in GetGeo(shapes, pops) && g.country == s.country && g.code == s.code
  {
    DropAntarcticaMeaning(RenameShapes(shapes));
    LeftMergeKeeps(DropAntarctica(RenameShapes(shapes)), pops);
  }

  // ---------------------------------------------------------------- get_map

  /** A row of `df_map` (the per-1k columns are left out). */
  datatype MapRow = MapRow(country: string, code: string, population: int,
                           casesTot: int, casesNew: int, deathsTot: int, deathsNew: int)

  /** `df_who[df_who['Date'] == date]`. */
  function OnDate(who: seq<Keyed<(string, int)>>, date: int): (r: seq<Keyed<(string, int)>>)
    ensures |r| <= |who|
  {
    if who == [] then []
    else (if who[0].key.1 == date then [who[0]] else []) + OnDate(who[1..], date)
  }

  /** The rows of a table for one country. */
  function ForCountry(rows: seq<Keyed<(string, int)>>, c: string): (r: seq<Keyed<(string, int)>>)
    ensures |r| <= |rows|
  {
    if rows == [] then []
    else (if rows[0].key.0 == c then [rows[0]] else []) + ForCountry(rows[1..], c)
  }

  /** A population, or 0 for a missing one (`fillna(0)`). */
  function OrZero(p: Option<int>): int {
    match p
    case None => 0
    case Some(v) => v
  }

  /** A geo row with one of the day's rows for its country. */
  function Matched(g: GeoRow, m: Keyed<(string, int)>): MapRow
    requires |m.vals| == 4
  {
    MapRow(g.country, g.code, OrZero(g.population),
           m.vals[CasesTot], m.vals[CasesNew], m.vals[DeathsTot], m.vals[DeathsNew])
  }

  /** One geo row after the left merge with the day's counts and `fillna(0)`. */
  function MapGeoRow(g: GeoRow, day: seq<Keyed<(string, int)>>): (r: seq<MapRow>)
    requires Uniform(day, 4)
    ensures |r| >= 1
  {
    var ms := ForCountry(day, g.country);
    assert Uniform(ms, 4) by { ForCountryMembers(day, g.country); }
    if ms == [] then [MapRow(g.country, g.code, OrZero(g.population), 0, 0, 0, 0)]
    else seq(|ms|, i requires 0 <= i < |ms| => Matched(g, ms[i]))
  }

  lemma {:induction false} ForCountryMembers(rows: seq<Keyed<(string, int)>>, c: string)
    ensures forall x :: x in ForCountry(rows, c) <==> x in rows && x.key.0 == c
  {
    if rows != [] {
      ForCountryMembers(rows[1..], c);
      assert forall x :: x in rows <==> x == rows[0] || x in rows[1..];
    }
  }

  function MapRows(geo: seq<GeoRow>, day: seq<Keyed<(string, int)>>): (r: seq<MapRow>)
    requires Uniform(day, 4)
    ensures |r| >= |geo|
  {
    if geo == [] then [] else MapGeoRow(geo[0], day) + MapRows(geo[1..], day)
  }

  /** `get_map(date)`, lines 91-102: the shapes joined to that date's counts,
      missing values set to 0. */
  function GetMap(geo: seq<GeoRow>, who: seq<Keyed<(string, int)>>, date: int): seq<MapRow>
    requires Uniform(who, 4)
  {
    OnDateMembers(who, date);
    MapRows(geo, OnDate(who, date))
  }

  lemma {:induction false} OnDateMembers(who: seq<Keyed<(string, int)>>, date: int)
    ensures forall x :: x in OnDate(who, date) <==> x in who && x.key.1 == date
    ensures Uniform(who, 4) ==> Uniform(OnDate(who, date), 4)
  {
    if who != [] {
      OnDateMembers(who[1..], date);
      assert forall x :: x in who <==> x == who[0] || x in who[1..];
      if Uniform(who, 4) {
        assert Uniform(who[1..], 4);
        var r := OnDate(who, date);
        forall i | 0 <= i < |r| ensures |r[i].vals| == 4 {
          assert r[i] in r;
        }
      }
    }
  }

  /** In a table with unique (country, date) keys, a country has at most one
      row on a date, and it holds what `Lookup` finds; without one `Lookup`
      finds zeros. */
  lemma {:induction false} DayMatch(who: seq<Keyed<(string, int)>>, c: string, date: int)
    requires Uniform(who, 4) && SortedKeys(who, CountryDateLess)
    ensures var ms := ForCountry(OnDate(who, date), c);
      && |ms| <= 1
      && (ms == [] ==> Lookup(who, (c, date), 4) == Zeros(4))
      && (ms != [] ==> ms[0].vals == Lookup(who, (c, date), 4))
  {
    if who != [] {
      var rest := who[1..];
      assert Uniform(rest, 4);
      assert SortedKeys(rest, CountryDateLess) by {
        forall i, j | 0 <= i < j < |rest| ensures CountryDateLess(rest[i].key, rest[j].key) {
          assert rest[i] == who[i + 1] && rest[j] == who[j + 1];
        }
      }
      DayMatch(rest, c, date);
      var head := if who[0].key.1 == date then [who[0]] else [];
      assert OnDate(who, date) == head + OnDate(rest, date);
      ForCountryAppend(head, OnDate(rest, date), c);
      if who[0].key == (c, date) {
        assert ForCountry(OnDate(rest, date), c) == [] by {
          var ms := ForCountry(OnDate(rest, date), c);
          if ms != [] {
            ForCountryMembers(OnDate(rest, date), c);
            OnDateMembers(rest, date);
            assert ms[0] in ms;
            var i :| 0 <= i < |rest| && rest[i] == ms[0];
            assert CountryDateLess(who[0].key, who[i + 1].key);
            StrLessIrreflexive(c);
          }
        }
      }
    }
  }

  lemma {:induction false} ForCountryAppend(a: seq<Keyed<(string, int)>>, b: seq<Keyed<(string, int)>>, c: string)
    ensures ForCountry(a + b, c) == ForCountry(a, c) + ForCountry(b, c)
  {
    if a == [] {
      assert a + b == b;
    } else {
      var head := if a[0].key.0 == c then [a[0]] else [];
      assert (a + b)[0] == a[0];
      assert (a + b)[1..] == a[1..] + b;
      assert ForCountry(a + b, c) == head + ForCountry(a[1..] + b, c);
      ForCountryAppend(a[1..], b, c);
      assert head + (ForCountry(a[1..], c) + ForCountry(b, c)) == (head + ForCountry(a[1..], c)) + ForCountry(b, c);
    }
  }

  /** The row the map shows for a country: the stored counts for the date, or
      0 in every count column when the WHO table has no row for it. */
  function ShownRow(g: GeoRow, who: seq<Keyed<(string, int)>>, date: int): MapRow
    requires Uniform(who, 4)
  {
    var v := Lookup(who, (g.country, date), 4);
    MapRow(g.country, g.code, OrZero(g.population), v[CasesTot], v[CasesNew], v[DeathsTot], v[DeathsNew])
  }

  /** On a `get_who` table the map has one row per geo row, in order, holding
      that country's counts on the date, zeros where the WHO has none, and a
      missing population shown as 0. */
  lemma {:induction false} GetMapMeaning(geo: seq<GeoRow>, who: seq<Keyed<(string, int)>>, date: int)
    requires Uniform(who, 4) && SortedKeys(who, CountryDateLess)
    ensures |GetMap(geo, who, date)| == |geo|
    ensures forall i :: 0 <= i < |geo| ==> GetMap(geo, who, date)[i] == ShownRow(geo[i], who, date)
  {
    OnDateMembers(who, date);
    MapRowsMeaning(geo, who, date);
  }

  lemma {:induction false} MapRowsMeaning(geo: seq<GeoRow>, who: seq<Keyed<(string, int)>>, date: int)
    requires Uniform(who, 4) && SortedKeys(who, CountryDateLess) && Uniform(OnDate(who, date), 4)
    ensures |MapRows(geo, OnDate(who, date))| == |geo|
    ensures forall i :: 0 <= i < |geo| ==> MapRows(geo, OnDate(who, date))[i] == ShownRow(geo[i], who, date)
  {
    if geo != [] {
      var day := OnDate(who, date);
      MapRowsMeaning(geo[1..], who, date);
      DayMatch(who, geo[0].country, date);
      var head := MapGeoRow(geo[0], day);
      assert head == [ShownRow(geo[0], who, date)];
      var r := MapRows(geo, day);
      assert r == head + MapRows(geo[1..], day);
      forall i | 0 <= i < |geo| ensures r[i] == ShownRow(geo[i], who, date) {
        if i > 0 {
          assert r[i] == MapRows(geo[1..], day)[i - 1];
        }
      }
    }
  }

  // ---------------------------------------------------------------- world totals

  /** The table keyed by date alone. */
  function ByDate(who: seq<Keyed<(string, int)>>): (r: seq<Keyed<int>>)
    ensures |r| == |who|
    ensures forall i :: 0 <= i < |who| ==> r[i] == Keyed(who[i].key.1, who[i].vals)
  {
    seq(|who|, i requires 0 <= i < |who| => Keyed(who[i].key.1, who[i].vals))
  }

  /** `df_all = df_who.groupby('Date').sum()`, lines 426-427. */
  function WorldTotals(who: seq<Keyed<(string, int)>>): seq<Keyed<int>>
    requires Uniform(who, 4)
  {
    assert Uniform(ByDate(who), 4);
    GroupSum(ByDate(who), IntLess, 4)
  }

  /** The world table has each date of the WHO table once, in increasing
      order, with the sum over all countries of that date's counts; so its
      column totals are those of the WHO table. */
  lemma WorldTotalsMeaning(who: seq<Keyed<(string, int)>>)
    requires Uniform(who, 4)
    ensures SortedKeys(WorldTotals(who), IntLess)
    ensures Keys(WorldTotals(who)) == Keys(ByDate(who))
    ensures forall d :: Lookup(WorldTotals(who), d, 4) == KeySum(ByDate(who), d, 4)
    ensures forall j :: 0 <= j < 4 ==> Total(WorldTotals(who), j, 4) == Total(who, j, 4)
  {
    var rows := ByDate(who);
    assert Uniform(rows, 4);
    IntLessIsOrder();
    GroupSumMeaning(rows, IntLess, 4);
    forall j | 0 <= j < 4 ensures Total(GroupSum(rows, IntLess, 4), j, 4) == Total(who, j, 4) {
      GroupSumTotals(rows, IntLess, 4, j);
      ByDateTotal(who, j);
    }
  }

  lemma {:induction false} ByDateTotal(who: seq<Keyed<(string, int)>>, j: nat)
    requires Uniform(who, 4) && j < 4
    ensures Uniform(ByDate(who), 4) && Total(ByDate(who), j, 4) == Total(who, j, 4)
  {
    if who != [] {
      ByDateTotal(who[1..], j);
      assert ByDate(who)[1..] == ByDate(who[1..]);
    }
  }

  /** The World line: its name, population and palette colour (lines 428-437). */
  const WorldName: string := "World"
  const WorldPopulation: int := 7776350000
  const WorldColour: nat := 0

  // ---------------------------------------------------------------- change_res

  /** The tables the callbacks read: `df_who` and `df_geo`, loaded for one
      resolution. */
  class Sources {
    var res: Resolution
    var who: seq<Keyed<(string, int)>>
    var geo: seq<GeoRow>

    /** Lines 414-415: the start-up load at 110m. */
    constructor (csv: seq<WhoCsvRow>, subs: seq<Subunit>, shapesLow: seq<Shape>, pops: seq<Population>)
      ensures res == Low
      ensures who == WhoTable(csv, subs, Low)
      ensures geo == GetGeo(shapesLow, pops)
    {
      res := Low;
      who := WhoTable(csv, subs, Low);
      geo := GetGeo(shapesLow, pops);
    }

    /** `change_res`, lines 340-351: the Hi Res toggle picks 50m when active and
      110m otherwise, and both tables are rebuilt at that resolution from the
      same inputs. The redraw it ends with is left out. */
    method ChangeRes(active: bool, csv: seq<WhoCsvRow>, subs: seq<Subunit>,
                     shapesLow: seq<Shape>, shapesHigh: seq<Shape>, pops: seq<Population>)
      modifies this
      ensures res == (if active then High else Low)
      ensures who == WhoTable(csv, subs, res)
      ensures geo == GetGeo(if active then shapesHigh else shapesLow, pops)
    {
      if active {
        who := GetWho(csv, subs, High);
        geo := GetGeo(shapesHigh, pops);
        res := High;
      } else {
        who := GetWho(csv, subs, Low);
        geo := GetGeo(shapesLow, pops);
        res := Low;
      }
    }
  }
}
