# COVID-19 dashboards and report scrapers, modelled in Dafny

The repository is a set of one-shot Python scripts around COVID-19 case counts:

- `COVID-19.py` draws a Bokeh dashboard on the Johns Hopkins (JHU) time series.
- `COVID-19_WHO.py` draws the same dashboard on the WHO daily CSV.
- `COVID-19_WHO_New.py`, `COVID-19_WHO_Update.py` and `COVID-19_WHO_Update2.py`
  build a per-country database from the WHO situation-report PDFs, one column a day.
- `COVID-19_RKI.py` builds a per-state table from the daily Robert Koch Institute (RKI) PDFs.

This project models the logic inside those scripts and proves what it promises.
That logic covers the country-name rewrite chains, the subunit promotion and merge,
the group-by sums, the totals-to-increments loop, the report-number bookkeeping, the
table-layout dispatch and cleaning, the total checks, the RKI cell splitting and
number parsing, the resume rules of the day loops, and the dashboard's selection,
colour, variable and play/pause state.

Dates are whole numbers of days; day 0 is 2020-01-21, the day of WHO report 1.
Tables are sequences of records. A PDF table as the extraction library returns it
is a `Frame`: column labels and rows of optional text cells. Files of one module
each:

| file | module | models |
|---|---|---|
| wrappers.dfy | Wrappers | `Option`, `Result` |
| text.dfy | Text | `str.find`/`rfind`, `str.replace`, `split`/`rsplit`, `int()`, `str()`, `pd.to_numeric`, Python's string order |
| patterns.dfy | Patterns | the regular-expression shapes the rewrite chains use, and the chains |
| grouping.dfy | Grouping | `groupby(key).sum()` with sorted keys |
| sorting.dfy | Sorting | `sort_values` / `list.sort` |
| frames.dfy | Frames | `concat`, `drop`, `replace`, `dropna`, numeric filtering and column lookup on extracted tables |
| dates.dfy | Dates | the date and report-number arithmetic of the day loops |
| day_reads.dfy | DayReads | the sequence of daily readings a day loop consumes |
| jhu.dfy | Jhu | `get_jhu`, the differencing loop and the World series of `COVID-19.py` |
| dashboard.dfy | Dashboard | `update_plot`'s selection and colours, the statistics table, `sel_var`, `animate` |
| who_dashboard.dfy | WhoDashboard | `get_who`, `get_geo`, `get_map`, the world totals and `change_res` of `COVID-19_WHO.py` |
| who_sitrep.dfy | WhoSitrep | one situation report: file name, layout, cleaning, renaming, Congo rows, grand totals |
| who_database.dfy | WhoDatabase | the WHO database (class `WhoStore`) and its day loop |
| rki.dfy | Rki | the RKI table (class `RkiTable`) and its day loop |

State the scripts change in place is modelled as a class:

- `WhoDatabase.WhoStore` holds the cases and deaths tables.
- `Rki.RkiTable` holds the rows of the daily RKI frames, concatenated in the order the loop appends them.
- `Dashboard.Player` holds the slider and the Play button.
- `WhoDashboard.Sources` holds the loaded WHO table and shapes.

In-place loops become methods with loops, each proved equal to a function:

- `Jhu.Differencing` works in place on a two-dimensional array.
- `Jhu.PromoteSubunits` and `WhoSitrep.ResolveCongoInPlace` work in place on arrays.
- `Dashboard.ColourLoop`, `WhoDashboard.MergeSubunits` and the two `Resume` loops walk their inputs with loop invariants.

Outside effects become parameters:

- the clock, as the end day;
- `strftime`, as a `stamp` function from day to text;
- the files on disk and on the servers, together with what the extraction library reads from them, as a map from file name to tables;
- `sys.exit()`, as a `stopped` result carrying the message.

## Model

| member | source | states |
|---|---|---|
| `Dashboard.Within` | COVID-19.py:359-360 | The map rows below `n` whose country is one of the given names, strictly increasing; a row is listed exactly when its country is among the names. |
| `Dashboard.InOrder` | COVID-19.py:362-363 | `list(set(x))` then `sort()`: strictly increasing, and holding exactly the indices of the input below `n`. |
| `Dashboard.Expanded` | COVID-19.py:358-363 | Closing a valid selection under "same country" gives a valid selection again. |
| `Dashboard.ExpandSelection` | COVID-19.py:354-363 | The selection loop gives nothing (the `IndexError` path) exactly when the selection is not a list of map rows; otherwise it gives the closed selection. |
| `Dashboard.ExpandedMeaning` | COVID-19.py:358-363 | The closed selection is sorted and duplicate-free, contains every selected row, and contains a row exactly when that row's country is the country of some selected row. |
| `Dashboard.ExpandIdempotent` | COVID-19.py:358-366 | Closing the closed selection again changes nothing. |
| `Dashboard.ChangesShape` | COVID-19.py:373-377 | The names at which `prev_country` changes: the first differs from "World", no two neighbours are equal, all come from the selection, and every selected name other than the start value appears. |
| `Dashboard.ColoursMeaning` | COVID-19.py:372-393 | The colour walk draws exactly when every change has a series and the 16-colour palette covers them all; the m-th change then gets colour index k+m. A missing-series stop names a change without a series that the palette still reached. The palette is reported exhausted (the `IndexError` caught at line 398) exactly when there are more changes than colours left and every change that got a colour has a series. The same walk runs at lines 281-296 of COVID-19_WHO.py. There every name has a series (`WhoRows`), because the rows are filtered by country, so the missing-series stop cannot occur there. |
| `Dashboard.Coloured` | COVID-19.py:391-392 | The m-th coloured line is the m-th change with colour index k+m. |
| `Dashboard.ColourLoop` | COVID-19.py:372-393 | The loop over the selected rows, with its counter and `prev_country`, ends in exactly the colouring the specification gives for the changes from "World" with colours 0, 1, 2, .... |
| `Dashboard.UpdatePlot` | COVID-19.py:352-413 | The whole `update_plot` callback: its result is the reselection, the drawn lines, or the World fallback that the specification `PlotOf` gives. |
| `Dashboard.SecondFiringProceeds` | COVID-19.py:364-366 | When the callback reselects, it reselects the closed selection, and the firing that this reselection causes does not reselect again. |
| `Dashboard.SettledDraws` | COVID-19.py:364-395 | A non-empty selection that equals its sorted closure is drawn by the colour walk over its changes. |
| `Dashboard.ClosedIsFixed` | COVID-19.py:356-364 | A non-empty selection's closure is non-empty, is its own closure and is already sorted, so `new_list == old_list` on the second firing. |
| `Dashboard.LinesMeaning` | COVID-19.py:372-395 | Drawn lines are ordered by country and are a permutation of the changes coloured 0, 1, 2, ... in the order the selection meets them. |
| `Dashboard.DrawnLines` | COVID-19.py:395 | `sort_values` on the drawn lines: sorted by country and a permutation of the coloured lines. |
| `Dashboard.StatsConsistent` | COVID-19.py:322-330 | In the statistics table each per-1k figure is 1000 times its own line's count divided by the population summed over the shown date. |
| `Dashboard.StatsAdd` | COVID-19.py:322-330 | The table is a sum over the rows of the shown date: the counts of two groups of rows add up, and adding rows of other dates leaves the whole table unchanged. |
| `Dashboard.StatsAsWrittenDiffers` | COVID-19.py:415-423 | The table `update_plot` computes agrees with the intended one on three lines and on the new-deaths count, but its new-deaths per-1k figure is the total-deaths one; the two tables are equal exactly when total and new deaths sum alike. |
| `Dashboard.StatsAsWrittenCounterexample` | COVID-19.py:423 | One country, 1000 people, 10 deaths of which 2 are new: the table shows 10 per 1k where 2 is meant. |
| `Dashboard.SelVarValue` | COVID-19.py:434 | The base-2 reading of the three button states is 4·cases_deaths + 2·abs_rel + tot_new, below 8. |
| `Dashboard.SelVarChoosesColumn` | COVID-19.py:546 | `plot_var[sel_var]` is the column for exactly the Cases/Deaths, Tot/New and Abs/Rel choice the buttons show. |
| `Dashboard.PlotVarColumn` | COVID-19.py:489-490 | The eight entries of `plot_var`, each read off its index bit by bit. |
| `Dashboard.SelVarBijective` | COVID-19.py:434 | Different button settings give different variables, and every variable 0..7 is given by a setting. |
| `Dashboard.Player.constructor` | COVID-19.py:549-550 | The slider starts on the last date and the button shows Play. |
| `Dashboard.Player.Animate` | COVID-19.py:473-484 | Play and Pause alternate; starting to play on the last date first rewinds to the first date; otherwise the slider stays. When there is more than one date, the slider stays within them and a running animation has a day left to show. |
| `Dashboard.Player.AnimateUpdate` | COVID-19.py:464-469 | Each tick moves the slider exactly one day on, and the animation pauses exactly when the slider reaches the last date. The slider stays within its dates. |
| `Dates.ReportDayInverse` | COVID-19_WHO_New.py:335-337 | Arithmetic fact: the slider's report-to-date mapping and the loop's date-to-report mapping are inverse, in both directions. |
| `Dates.FreshStartAgrees` | COVID-19_WHO_New.py:42-43 | Arithmetic check of the constants: the hard-coded fresh start, 2020-02-03 with report 14, obeys the same mapping as a resumed start. |
| `Dates.VisitCount` | COVID-19_WHO_New.py:52 | The loop runs at least once exactly when start ≤ end, and its last day is the end day. |
| `Dates.VisitsDays` | COVID-19_WHO_New.py:52-54 | The loop visits every day from start to end once each, in increasing order, and no day at all when start > end; pass i's report is the start day's report plus i. |
| `Frames.Range` | COVID-19_WHO_New.py:87 | `range(a, b)`: the labels a, a+1, ..., b-1, empty when b ≤ a. |
| `Frames.AllLabels` | COVID-19_WHO_New.py:86 | The columns of `pd.concat`: exactly the labels some table has, in ascending order. pandas keeps them in order of first appearance; the two agree for these tables, whose labels are tabula's 0, 1, 2, ... and, for report 38, those same labels with some dropped from the third and fourth tables only. |
| `Frames.RealignKeeps` | COVID-19_WHO_New.py:86 | In the concatenation every cell keeps its value under its own label, and exactly the labels a table lacks are missing in its rows. |
| `Frames.ConcatRowCount` | COVID-19_WHO_New.py:86 | `pd.concat` keeps every row of every table. |
| `Frames.Filter` | COVID-19_RKI.py:169-170 | Boolean indexing keeps exactly the rows that satisfy the condition, and no new rows. |
| `Frames.FilterKeeps` | COVID-19_RKI.py:169-170 | Boolean indexing keeps the rows in their order (the result is a subsequence) and each kept row as often as it occurs; a rejected row does not occur at all. |
| `Frames.DropPositions` | COVID-19_WHO_New.py:94 | Dropping columns by position fails (`IndexError`) exactly when a position lies past the last column; otherwise all rows stay and the labels left are exactly those at the kept positions. |
| `Frames.DropPositionsKeeps` | COVID-19_WHO_New.py:94 | Each kept column moves to the number of kept columns before it, with its label and every row's cell; kept columns stay in their order. |
| `Frames.KeepFirstIsDrop` | COVID-19_WHO_New.py:87-88 | Dropping the columns from position k on succeeds and gives the first k columns (all of them when there are fewer), every row cut to them. |
| `Frames.DropNa` | COVID-19_WHO_New.py:134 | `dropna` keeps exactly the rows with no missing cell. |
| `Frames.DropNaKeeps` | COVID-19_WHO_New.py:134 | `dropna` keeps the complete rows in their order, each as often as it occurs. |
| `Frames.KeepNumeric` | COVID-19_WHO_New.py:132 | Keeping the rows whose p-th column is numeric fails when there is no such column; otherwise exactly the rows numeric there stay. |
| `Frames.KeepNumericKeeps` | COVID-19_WHO_New.py:132 | The numeric filter keeps the rows numeric at the column in their order, each as often as it occurs. |
| `Frames.ColumnByLabel` | COVID-19_WHO_New.py:111 | `df[x]` fails (`KeyError`) exactly when there is no column x; otherwise it is each row's cell under x. |
| `Grouping.GroupSumMeaning` | COVID-19.py:55 | After `groupby(key).sum()` the keys are strictly ascending, hence unique, and are exactly the input keys; each key carries the column-wise sum of its rows. |
| `Grouping.GroupSumTotals` | COVID-19.py:55 | Grouping preserves every column's total, so the grand total of every date is preserved. |
| `Grouping.StrLessIsOrder` | COVID-19.py:55 | Python's ordering of strings, by which the groups are sorted, is a strict total order. |
| `Grouping.CountryDateIsOrder` | COVID-19_WHO.py:58 | Ordering by country and then by date is a strict total order. |
| `Jhu.CleanProvince` | COVID-19.py:25-28 | The province rewrites keep a present province present and a missing one missing, and do not touch the country or the counts. |
| `Jhu.PromoteRow` | COVID-19.py:31-33 | The country becomes the province exactly when the country is not Australia, Canada or China and the province is in `draw_sub_unit`; any other row is left unchanged. |
| `Jhu.PromoteSubunits` | COVID-19.py:30-33 | The loop over an array of rows leaves each row as `PromoteRow` of its old value. |
| `Jhu.PromoteAll` | COVID-19.py:30-33 | The same loop run on a copy of the rows: one promoted row per input row, in order. |
| `Jhu.RenamedIsNormalised` | COVID-19.py:38-53 | Running the sixteen `Country` statements column-wise one after another gives each row the whole chain, applied once and in source order. |
| `Jhu.GetJhu` | COVID-19.py:22-59 | `get_jhu` computes the specified table: the province statements, the promotion loop, the rename chain and the grouping. |
| `Jhu.JhuTableMeaning` | COVID-19.py:55 | The JHU table has strictly ascending country keys, exactly the normalised names. Each country carries the sum of its rows, so every date's total is kept. |
| `Jhu.SerbiaRuleNotIdempotent` | COVID-19.py:48 | The Serbia rule turns "Serbia" into "Republic of Serbia" and that into "Republic of Republic of Serbia", so the chain must run exactly once. |
| `Jhu.DailyTelescopes` | COVID-19.py:73-81 | The increments up to a date sum to that date's total minus the first date's total. |
| `Jhu.DailyRoundTrip` | COVID-19.py:73-81 | The totals come back from the first total and the increments: differencing loses nothing. |
| `Jhu.Differencing` | COVID-19.py:73-81 | The backward in-place loop leaves each country's row as the increments of its original totals: tot[d] − tot[d−1] for later dates, 0 on the first date. |
| `Jhu.ShownNewIsDaily` | COVID-19.py:316-338 | The "New" figure shown for a date, the shown total minus the total of the clamped previous day, equals the stored increment; on the first date it is 0. |
| `Jhu.WorldAsWrittenOmitsLast` | COVID-19.py:136 | As written, `row[1:-1]` makes the World series short by exactly the last country's count. |
| `Jhu.WorldAsWrittenCounterexample` | COVID-19.py:136 | Two countries with 1 and 2 cases: the World series as written shows 1 where 3 is meant. |
| `Jhu.WorldIsAllRows` | COVID-19.py:136 | The corrected World figure for a date is the total of every CSV row on that date, however the renaming and grouping went. |
| `Patterns.StepsAreCellwise` | COVID-19.py:38-53 | A sequence of column statements equals applying the whole chain, in order, to each cell on its own; the column keeps its length. |
| `Patterns.EnclosedNeedsOpen` | COVID-19_WHO.py:29 | A name with no opening bracket is not changed by the bracket strip. |
| `Patterns.EnclosedIdempotent` | COVID-19_WHO.py:29 | Stripping brackets twice is stripping them once. |
| `Patterns.PrefixOnlyAtStart` | COVID-19_WHO.py:34 | `^X` changes only names that begin with X, replacing that beginning. |
| `Patterns.WholeOnlyExact` | COVID-19_WHO_Update2.py:135 | `^X$` changes exactly the name X. |
| `Patterns.PrefixLineOnlyAtStart` | COVID-19_WHO.py:41 | `^X.*` replaces the whole name exactly when it begins with X. |
| `Patterns.TrailingNonWordStrips` | COVID-19_WHO_New.py:146 | `\W*$` cuts a name back to its last word character. The part cut has no word character. A second application changes nothing. |
| `Patterns.TrailingNumberStrips` | COVID-19_WHO_New.py:131 | `\s\d*$` shortens a cell exactly when it ends in a white-space character followed by digits only, and the result is a prefix of the cell. |
| `Rki.SeedRows` | COVID-19_RKI.py:51-75 | The fresh table has 32 rows: the 16 states on 2020-03-03 with the first counts, then the 16 states on 2020-03-04 with the second. |
| `Rki.MaxDate` | COVID-19_RKI.py:36 | `Date.max()`: no stored row is later, and some row has that date. |
| `Rki.StartDay` | COVID-19_RKI.py:27-77 | A fresh build starts on 2020-03-05. A resume fails on an empty table, because its maximum is missing and `strptime` refuses it. Otherwise it starts on a day after every stored date, with a stored row on the day before. |
| `Rki.SeedStartAgrees` | COVID-19_RKI.py:77 | The fresh start is the day the resume rule gives for the hard-coded rows. |
| `Rki.FileName` | COVID-19_RKI.py:90 | The report of a day is exactly "RKI/" + date + "-de.pdf". |
| `Rki.FileNameInjective` | COVID-19_RKI.py:90 | Different dates name different files. |
| `Rki.Pairs` | COVID-19_RKI.py:160-166 | A table with fewer than 3 columns drops its incomplete rows. Each remaining first cell is split at its first space into state and cases, and the split fails when no cell has a space. A wider table keeps its first two columns; a table with no column fails. |
| `Rki.Lines` | COVID-19_RKI.py:166-167 | `dropna` after the renaming: a state/cases line is kept exactly when both its cells are present. |
| `Rki.LinesCount` | COVID-19_RKI.py:166-167 | Each state/cases line occurs exactly as often as a row with both cells present and those values. |
| `Rki.LinesAppend` | COVID-19_RKI.py:166-167 | `dropna` keeps the row order: the lines of two tables one after the other are the lines of the first, then those of the second. |
| `Rki.CleanedMeaning` | COVID-19_RKI.py:167-171 | The cleaned table holds exactly the complete lines that are neither the "Bundesland" header nor the "Gesamt" total. Each such line occurs as often as its row occurs in the input table, and the table is sorted by state. |
| `Rki.ParseCases` | COVID-19_RKI.py:173-175 | A cases cell reads as an integer exactly when what is left after deleting every '.' is an integer literal. |
| `Rki.ParseCasesDot` | COVID-19_RKI.py:174 | A '.' anywhere in a cases cell changes nothing in its value. |
| `Rki.ParseCasesExample` | COVID-19_RKI.py:173-175 | Example: "1.234" reads as 1234. |
| `Rki.Dated` | COVID-19_RKI.py:173-176 | The day's rows exist exactly when every cases cell parses. Each row is then the day's date, the line's state and its parsed count, in order. |
| `Rki.DayRows` | COVID-19_RKI.py:176 | Every row a day adds carries that day's date. |
| `Rki.DayRowsMeaning` | COVID-19_RKI.py:158-176 | A day's rows are the cleaned lines in order, each with the date, its state and the number its cell spells. None is the header or the total, and the rows are sorted by state. |
| `Rki.Reading` | COVID-19_RKI.py:90-178 | A report that is neither on disk nor on the server stops the run with "Does not exist". A page with no tables adds nothing. Any rows a report adds carry its day. |
| `Rki.Pass` | COVID-19_RKI.py:157-178 | One pass: a stop keeps the table and records the reason, a page without tables keeps the table, and otherwise the day's rows are appended after the table. |
| `Rki.StoppedStays` | COVID-19_RKI.py:99-101 | After `sys.exit()` no later report changes anything. |
| `Rki.PrefixIsRun` | COVID-19_RKI.py:85-101 | The reports read until the run stopped, or all of them, give the outcome of the whole run. |
| `Rki.RunChronological` | COVID-19_RKI.py:85-178 | A run begun after every stored date keeps the stored rows in front. It adds rows of the run's days only, so a table in date order stays in date order. |
| `Rki.ReportsDated` | COVID-19_RKI.py:176 | The reports of consecutive days carry their own days. |
| `Rki.UpdateChronological` | COVID-19_RKI.py:27-178 | A fresh or resumed update keeps the old rows in front and leaves the table in date order. |
| `Rki.SeedChronological` | COVID-19_RKI.py:51-75 | The hard-coded rows are in date order. |
| `Rki.RkiTable.Fresh` | COVID-19_RKI.py:74-75 | A fresh build holds the two hard-coded days. |
| `Rki.RkiTable.Load` | COVID-19_RKI.py:31-34 | A resumed build holds the stored table. |
| `Rki.RkiTable.Visit` | COVID-19_RKI.py:86-178 | One pass over a day: the table and the stop flag become what `Pass` gives for that day's report. |
| `Rki.RkiTable.Resume` | COVID-19_RKI.py:85-178 | The day loop reads the reports of consecutive days from the start day, all n of them unless a pass stops it. The table and stop flag equal the run over those reports. |
| `Rki.RkiTable.Update` | COVID-19_RKI.py:27-178 | The whole script: a start day that cannot be found stops with the table unchanged. Otherwise the table is the run from the start day to the end day. |
| `Sorting.SortBy` | COVID-19_RKI.py:171 | Sorting is a permutation: the same elements with the same multiplicities. |
| `Sorting.SortBySorted` | COVID-19_RKI.py:171 | The sorted result is ordered by the key. |
| `Sorting.SortByIdentity` | COVID-19.py:357 | Sorting an already sorted list leaves it as it is. |
| `Text.ReplaceGrows` | COVID-19.py:48 | A replacement longer than its pattern never shortens a name, and lengthens every name containing the pattern. |
| `Text.ReplaceCharRemoves` | COVID-19_RKI.py:174 | Deleting a one-character pattern leaves no occurrence of it. |
| `Text.SplitFirst` | COVID-19_RKI.py:162 | `split(' ', 1)`: with a space, the part before it has none and the parts joined by a space give the text back. Without a space the text is kept whole and the second part is missing. |
| `Text.SplitLast` | COVID-19_WHO_New.py:110 | `rsplit(' ', 1)`: with a space, the part after it has none and the parts joined by a space give the text back. Without a space the text is kept whole and the second part is missing. |
| `Text.NatToStringRoundTrip` | COVID-19_WHO_New.py:56 | Reading back the decimal digits `str` writes for a report number gives the number. |
| `Text.IntToStringRoundTrip` | COVID-19_WHO_New.py:56 | `int(str(n)) == n` for every integer. |
| `Text.ParseInt` | COVID-19_WHO_New.py:141 | `astype(int)` succeeds exactly on an integer literal (an optional sign and at least one digit). |
| `Text.IntLiteralIsNumeric` | COVID-19_WHO_New.py:132-141 | Every integer literal is also accepted by `pd.to_numeric`, with the same value. |
| `WhoDashboard.Counts` | COVID-19_WHO.py:24-25 | After the drop of columns 1 and 3, the positional rename gives the four counts the names Deaths_New, Deaths_Tot, Cases_New and Cases_Tot, in file order. |
| `WhoDashboard.ParenRuleNeedsBracket` | COVID-19_WHO.py:29 | The first rule is the bracket strip, and it leaves a name with no "(" alone. |
| `WhoDashboard.CongoRuleAnchored` | COVID-19_WHO.py:34 | `^Congo` rewrites a name exactly when it begins with "Congo", and then only that beginning. |
| `WhoDashboard.CongoRuleSparesDemocraticRepublic` | COVID-19_WHO.py:34 | "Democratic Republic of the Congo" is untouched by `^Congo`. |
| `WhoDashboard.MergeRulesMeaning` | COVID-19_WHO.py:54 | There is one replacement for each subunit whose resolution flag is "No" and that differs from its country, and no other. |
| `WhoDashboard.MergeSubunits` | COVID-19_WHO.py:54-55 | The merge loop ends with the column rewritten by those replacements, one statement after the other, in table order. |
| `WhoDashboard.MergeReplaces` | COVID-19_WHO.py:54-55 | A merging subunit's name, untouched by the earlier replacements, becomes its country's name, which then goes on through the later ones. |
| `WhoDashboard.WhoKeyed` | COVID-19_WHO.py:57 | A CSV row is grouped under its final name and its own date, with its four counts. |
| `WhoDashboard.GetWho` | COVID-19_WHO.py:21-61 | `get_who` computes the specified table: the 23 rewrites column-wise, the merge loop, and the grouping. |
| `WhoDashboard.MergedIsWhoName` | COVID-19_WHO.py:29-55 | The rewrite statements followed by the merge loop give each row the name the specification gives it. |
| `WhoDashboard.WhoTableMeaning` | COVID-19_WHO.py:57-59 | After grouping and sorting, (country, date) pairs are unique and ordered by country and then by date. Each pair carries the sum of its rows, so no count is lost. |
| `WhoDashboard.DropAntarcticaMeaning` | COVID-19_WHO.py:80 | Exactly the shapes named Antarctica are removed. |
| `WhoDashboard.MergeShape` | COVID-19_WHO.py:83 | The left merge gives every shape at least one row, with its name and code. |
| `WhoDashboard.LeftMergeUnique` | COVID-19_WHO.py:83 | When the population file names each country once, the left merge keeps the shapes one for one and in order, each with its population or none. |
| `WhoDashboard.LeftMergeKeeps` | COVID-19_WHO.py:83 | Whatever the population file, every shape's name and code reach the merged table, and nothing else does. |
| `WhoDashboard.GetGeoMeaning` | COVID-19_WHO.py:67-89 | `get_geo` has no Antarctica row and keeps every other renamed shape. |
| `WhoDashboard.DayMatch` | COVID-19_WHO.py:95-96 | The day's WHO rows have at most one row per country. The row found is that country's entry for the date, and when there is none the lookup gives zeros. |
| `WhoDashboard.GetMapMeaning` | COVID-19_WHO.py:91-102 | `get_map` gives one row per geo row, in order. Each row has that country's counts on the date, and 0 where the WHO table has none. A missing population is shown as 0. |
| `WhoDashboard.WorldTotalsMeaning` | COVID-19_WHO.py:426-427 | The world table has one row per date, in ascending order. Each date carries the sum over all countries, and every column total equals that of the WHO table. |
| `WhoDashboard.Sources.constructor` | COVID-19_WHO.py:415-416 | Start-up loads the WHO table and the shapes at the low resolution. |
| `WhoDashboard.Sources.ChangeRes` | COVID-19_WHO.py:340-351 | The Hi Res toggle reloads the WHO table and the shapes at 50m when active and at 110m otherwise. |
| `WhoDatabase.Aligned` | COVID-19_WHO_New.py:173-174 | Assigning a report's counts to a new date column fails when the report names a country twice. Otherwise it gives one cell per database country. |
| `WhoDatabase.AlignedMeaning` | COVID-19_WHO_New.py:173-174 | A database country gets the report's count for it. It gets a missing value, not 0, when the report does not list it. |
| `WhoDatabase.WithDayDays` | COVID-19_WHO_New.py:173-174 | A new day's columns go at the end; a day already stored keeps the list of days. Columns of one cell per country stay so. |
| `WhoDatabase.WithDayMeaning` | COVID-19_WHO_New.py:173-174 | After storing a day, the tables hold the new counts under that day and every other day's counts as they were. |
| `WhoDatabase.Checks` | COVID-19_WHO_Update.py:177-180 | A warning is recorded for cases (deaths) exactly when the day's summed column differs from the printed total; it never stops the run. |
| `WhoDatabase.ReportFile` | COVID-19_WHO_Update2.py:52-56 | `New` and `Update` name the file by the report-24 rule. `Update2` has its own name and stops below report 102. |
| `WhoDatabase.Opened` | COVID-19_WHO_New.py:83-168 | A report with no tables gives nothing. Otherwise its entries are those extracted and renamed by the script's rules, and its totals are those the script reads from the prepared frame (none in `New`). |
| `WhoDatabase.Lined` | COVID-19_WHO_Update.py:172-180 | The day's columns exist exactly when the report names each country once. They then have one cell per database country, and without totals there are no warnings. |
| `WhoDatabase.LinedMeaning` | COVID-19_WHO_Update.py:172-180 | Each country of the database gets the cases and deaths of the report's entry for it, and a missing value when the report has none; the warnings are the checks of those columns against the report's totals. |
| `WhoDatabase.Loaded` | COVID-19_WHO_New.py:83-174 | A report's tables read and lined up: nothing for a report with no tables; otherwise columns of one cell per country, without warnings in `New`. |
| `WhoDatabase.LoadedMeaning` | COVID-19_WHO_New.py:83-174 | A loaded day holds, for each database country, the counts of the report's entries after extraction and renaming, and the checks of its totals. |
| `WhoDatabase.Reading` | COVID-19_WHO_New.py:63-174 | What one day's report gives. A report number the script cannot name (below 102 in `Update2`) stops the run. A file that is neither on disk nor on the server stops the run with "Does not exist". Columns read have one cell per country, and `New` gives no warnings. |
| `WhoDatabase.ReadingMeaning` | COVID-19_WHO_New.py:63-174 | A day read comes from the report file named for it, which is present, and holds for each database country the counts of that file's named entries, with the checks of its totals. |
| `WhoDatabase.DayStep` | COVID-19_WHO_New.py:85-174 | A pass stops exactly when its reading failed. A report without tables changes nothing. Otherwise the pass stores the day's columns, keeps the countries and passes on the day's warnings. |
| `WhoDatabase.StoppedStays` | COVID-19_WHO_New.py:72-74 | After `sys.exit()` no later report changes anything. |
| `WhoDatabase.PrefixIsRun` | COVID-19_WHO_New.py:52-74 | The reports read until the run stopped, or all of them, give the outcome of the whole run. |
| `WhoDatabase.RunKeepsShape` | COVID-19_WHO_New.py:52-174 | Every column the run stores has one cell per country of the tables, and the countries do not change. |
| `WhoDatabase.RunAddsDays` | COVID-19_WHO_New.py:52-174 | A run from a day after every stored day keeps the stored columns in front. It adds only days of the run, so the days stay in increasing order. |
| `WhoDatabase.ResumeAddsDays` | COVID-19_WHO_New.py:30-174 | Resuming on the day after the last stored column keeps every stored day and adds the run's days after them, in increasing order. |
| `WhoDatabase.QuietRun` | COVID-19_WHO_Update.py:177-180 | Reports without warnings give a run without warnings. |
| `WhoDatabase.NewNeverWarns` | COVID-19_WHO_New.py:52-174 | `New` checks no totals, so its runs never warn. |
| `WhoDatabase.StartDay` | COVID-19_WHO_New.py:24-43 | A fresh build starts on 2020-02-03. A resume starts on the day after the last stored column, and fails when there is no column to read a date from. |
| `WhoDatabase.StartReportAgrees` | COVID-19_WHO_New.py:30-43 | Both ways of starting give the start day's report number. |
| `WhoDatabase.WhoStore.constructor` | COVID-19_WHO_New.py:39-40 | `df_pop.copy()`: a fresh database holds the countries and no day. |
| `WhoDatabase.WhoStore.Load` | COVID-19_WHO_New.py:27-28 | A resumed database holds the stored tables. |
| `WhoDatabase.WhoStore.SetDay` | COVID-19_WHO_New.py:173-174 | Storing a day's columns changes the tables exactly as `WithDay` says. |
| `WhoDatabase.WhoStore.Name` | COVID-19_WHO_Update2.py:113-142 | Naming a report's entries gives the renamed entries of the specification, with the Congo rows of `Update2` resolved in place first. |
| `WhoDatabase.WhoStore.Open` | COVID-19_WHO_New.py:83-168 | Reading a report's tables gives what `Opened` specifies. |
| `WhoDatabase.WhoStore.ReadDay` | COVID-19_WHO_New.py:83-174 | One pass on a report with tables: a failure stops with the tables unchanged, and otherwise the tables and warnings are those of `DayStep`. |
| `WhoDatabase.WhoStore.Visit` | COVID-19_WHO_New.py:53-174 | One pass on a day. Its report is the day's `Reading`, and the tables, warnings and stop are those of `DayStep`. |
| `WhoDatabase.WhoStore.Resume` | COVID-19_WHO_New.py:52-174 | The day loop reads the reports of consecutive days from the start day, all n unless a pass stops. The tables, warnings and stop equal the run over those reports. |
| `WhoDatabase.WhoStore.Update` | COVID-19_WHO_New.py:24-174 | The whole updater. A start that cannot be found stops with nothing changed. Otherwise the state is the run from the start day to the end day. Identical loop at lines 49-180 of COVID-19_WHO_Update.py and 49-157 of COVID-19_WHO_Update2.py. |
| `WhoSitrep.SitrepFile` | COVID-19_WHO_New.py:55-58 | The name starts with the date stamp and "-sitrep-". It ends in "-covid-19.pdf" exactly from report 24 on, and in "-ncov.pdf" exactly before it. |
| `WhoSitrep.SuffixDecides` | COVID-19_WHO_New.py:55-58 | The suffix alone tells the two name forms apart. |
| `WhoSitrep.SitrepFileNumber` | COVID-19_WHO_New.py:56 | The report number can be read back from the file name. |
| `WhoSitrep.Update2File` | COVID-19_WHO_Update2.py:52-56 | `Update2` stops below report 102; otherwise the name is the stamp, "-covid-19-sitrep-", the number and ".pdf". |
| `WhoSitrep.Update2FileNumber` | COVID-19_WHO_Update2.py:53 | The report number can be read back from an `Update2` file name. |
| `WhoSitrep.LayoutOf` | COVID-19_WHO_New.py:92-129 | The layout chain stops with "Not programmed to extract this report" exactly below report 14. |
| `WhoSitrep.LayoutOfCovers` | COVID-19_WHO_New.py:92-126 | The chain picks a layout exactly for the reports its comment lists. These are 42+, 39–41, 38, 31, 30 and 32–37, 25–29, 23–24, 17, and 14–16 and 18–22. |
| `WhoSitrep.CoversPartition` | COVID-19_WHO_New.py:92-126 | No report is listed for two layouts, and every report from 14 on is listed for one. |
| `WhoSitrep.Update2Layout` | COVID-19_WHO_Update2.py:93-98 | `Update2` knows only the report-42 layout, from report 102 on, and stops below. |
| `WhoSitrep.From42Cut` | COVID-19_WHO_Update2.py:94 | On seven columns, dropping positions 2, 4, 5 and 6 leaves the labels and cells of positions 0, 1 and 3 (name, cases, deaths), in that order. |
| `WhoSitrep.From42Extract` | COVID-19_WHO_Update2.py:92-94 | For reports 102 on in `Update2` (42 on in the other scripts) a prepared frame of seven columns is cut to its columns 0, 1 and 3. |
| `WhoSitrep.Prepared` | COVID-19_WHO_New.py:86-90 | The concatenated tables keep every row and at most seven columns. |
| `WhoSitrep.PreparedMeaning` | COVID-19_WHO_New.py:86-90 | The prepared frame holds the first seven columns of the concatenated tables (all when there are fewer), with every row; each text cell has its round-bracketed notes removed (not by `Update2`) and then its square-bracketed ones. |
| `WhoSitrep.Report38Frame` | COVID-19_WHO_New.py:99-105 | Report 38's special cut fails (`IndexError`) exactly when fewer than four tables were read, the third has four or fewer columns or the fourth five or fewer; otherwise every row of every table is kept. |
| `WhoSitrep.SplitCell` | COVID-19_WHO_New.py:110 | `rsplit(' ', 1)` of one cell: a missing cell gives two missing parts. A split cell is the country, a space and a case count with no space. An unsplit cell is kept whole. |
| `WhoSitrep.Report31Frame` | COVID-19_WHO_New.py:106-111 | Report 31's frame exists exactly when there is a second table with a column labelled 4. |
| `WhoSitrep.Report31Meaning` | COVID-19_WHO_New.py:106-111 | Report 31's frame has a row per row of the second table: its first cell split at the last space gives the country (and the cases, in a middle column that exists exactly when some cell held a space), and the cell labelled 4, notes removed, gives the deaths. |
| `WhoSitrep.Report31Reconstructs` | COVID-19_WHO_New.py:110 | For report 31, wherever a cell was split, country + " " + cases gives the cell back, after its notes were removed. |
| `WhoSitrep.Clean` | COVID-19_WHO_New.py:131-134 | Cleaning fails when the frame has fewer than three columns and keeps the labels otherwise. |
| `WhoSitrep.CleanMeaning` | COVID-19_WHO_New.py:131-134 | A row survives cleaning exactly when, after its trailing footnote numbers are removed, its second and third cells are numeric and no cell is missing; the survivors keep their order and their multiplicity. |
| `WhoSitrep.Entries` | COVID-19_WHO_New.py:138-142 | `astype(int)` succeeds exactly when every case and death cell is an integer literal. Each entry is then the row's country with the values of its two cells. |
| `WhoSitrep.Extracted` | COVID-19_WHO_New.py:83-142 | Extraction stops for reports below 14 in `New` and `Update`, and below 102 in `Update2`. |
| `WhoSitrep.ExtractedMeaning` | COVID-19_WHO_New.py:92-142 | The entries are, in table order, one per row of the layout's frame that survives cleaning, with that row's country and its counts read as integers. |
| `WhoSitrep.FillNaAfterClean` | COVID-19_WHO_Update.py:172 | `fillna(0)` after `dropna()` changes nothing. |
| `WhoSitrep.RenamedCellwise` | COVID-19_WHO_New.py:144-168 | Renaming keeps every row and its counts, and rewrites each country from its own old name by the whole chain, in order. |
| `WhoSitrep.KingdomOrder` | COVID-19_WHO_Update.py:164-165 | "The United Kingdom" and a bare "Kingdom" both end as "United Kingdom". |
| `WhoSitrep.UnitedKingdomKept` | COVID-19_WHO_Update.py:164 | The full chain turns "The United Kingdom" into "United Kingdom". |
| `WhoSitrep.KingdomCompleted` | COVID-19_WHO_Update.py:165 | The full chain turns "Kingdom" into "United Kingdom". |
| `WhoSitrep.OfRuleAnchored` | COVID-19_WHO_Update2.py:119 | `^of.*` renames exactly the names that begin with "of", to "Venezula". |
| `WhoSitrep.RepublicRuleExact` | COVID-19_WHO_Update2.py:135 | `^Republic$` renames only the name "Republic" itself, to "Laos". |
| `WhoSitrep.CongoPositions` | COVID-19_WHO_Update2.py:113 | The positions of the rows named exactly "Congo", each once and in increasing order. |
| `WhoSitrep.ResolveCongo` | COVID-19_WHO_Update2.py:113-115 | Telling the Congo rows apart succeeds exactly when there are at least two rows named "Congo". |
| `WhoSitrep.ResolveCongoMeaning` | COVID-19_WHO_Update2.py:113-115 | The first "Congo" row becomes the Democratic Republic and the second the Republic of the Congo; no other row changes. |
| `WhoSitrep.ResolveCongoInPlace` | COVID-19_WHO_Update2.py:113-115 | The in-place `iloc` writes succeed exactly with two or more "Congo" rows, and then give `ResolveCongo`. A single row is renamed to the Democratic Republic before the second write fails. With none, nothing changes. |
| `WhoSitrep.Named` | COVID-19_WHO_Update2.py:113-142 | `New` and `Update` rename by their chain. `Update2` succeeds exactly when there are two Congo rows. |
| `WhoSitrep.ParseTotal` | COVID-19_WHO_Update.py:88-89 | A total's cell with every space removed is read as a number. Text that is not a number stops the run, and a missing cell gives a missing total. |
| `WhoSitrep.GroupedTotal` | COVID-19_WHO_Update.py:88 | Example: the space-grouped total "12 345" reads as 12345. |
| `WhoSitrep.FirstWhere` | COVID-19_WHO_Update.py:88 | The first cell equal to the text, if any: no earlier cell matches, and none at all when nothing is found. |
| `WhoSitrep.GrandTotalsMeaning` | COVID-19_WHO_Update.py:88-89 | The totals come from the first "Grand total" row, columns 1 (cases) and 3 (deaths). Without such a row the run stops, and when that row's two cells parse the read succeeds with their values. |
| `WhoSitrep.LastRowTotals` | COVID-19_WHO_Update2.py:90-91 | `Update2` reads the totals from the last row, cells 1 and 3. The read succeeds exactly when the frame has a row and more than three columns and both cells are present and parse, and then gives their values. |
| `WhoSitrep.DayTotals` | COVID-19_WHO_Update.py:88-89 | `New` reads no totals; the other two scripts always read a pair once reading succeeds. |

## Left out

- Input and output are left out: reading and writing CSV files, shape files and PDFs, the `requests` downloads, the existence checks and every `print`. The files on disk and on the servers are one map parameter; a name missing from it is the failed download.
- The PDF table extraction of `tabula.read_pdf` is foreign code. Its output is a parameter, as frames of optional text cells.
- Bokeh figures, hover tools, the JavaScript formatter, palettes, colour mappers and layouts are rendering only. So are all `matplotlib`/`cartopy` plots, the RKI map and the Draw scripts. Periodic-callback scheduling is left out too; the player keeps only the slider value and the Play flag.
- `my_format`, the per-1k ratios of the map rows and the world population divisions are floating-point arithmetic. Only the statistics table's per-1k figures are kept, as an exact fraction.
- `strftime`/`strptime`: dates are day numbers and the text of a date is a `stamp` parameter. `end_dt` (now minus one day) is a parameter.
- Geometry, `explode()` and the JSON conversion of the map are left out; a shape is its name and code.
- The RKI world tables are left out, because the loop that builds them is commented out and they are never saved. The per-state population table is left out, because only the map uses it.
- The JHU map of `COVID-19.py` (lines 87-126) is left out. It drops the Antarctica row by its position 159, which depends on the shape file. Its Macedonia rename and its left merge are the ones modelled for `COVID-19_WHO.py`; its Puerto Rico rename is not modelled.
- Regular expressions are modelled only in the shapes used: literal, `^X`, `^X$`, `.*X`, `X.*`, `^X.*`, `.*X.*`, the bracket strips, `\W*$` and `\s\d*$`. `.` matches every character. `\s` is Python's white space, `\d` only the ASCII digits, and `\w` is approximated: ASCII letters, digits, `_`, the Latin-1 letters, and everything from U+0100 on that is neither white space nor general punctuation.
- Patterns.Apply: Python's `$` also matches just before a final newline, and `re.sub` then finds a second match at the very end. A cell ending in digits and a newline is therefore stripped further by `\s\d*$` than the model strips it: `re.sub(r'\s\d*$', '', "Italy 12\n")` gives "Italy", the model "Italy 12".
- Patterns.WholeOnlyExact: the same gap holds for `^X$`, which Python also matches on X followed by a final newline; the lemma says a name changes exactly when it is X, where Python also changes X followed by a newline.
- WhoSitrep.RepublicRuleExact: Python's `^Republic$` (COVID-19_WHO_Update2.py:135) also rewrites "Republic\n" to "Laos\n", and the `\W*$` strip at line 142 then leaves "Laos". The model leaves "Republic\n" unrenamed, and its `\W*$` strip gives "Republic".
- WhoDashboard.MergeRule: the subunit name is replaced as literal text. `str.replace` in pandas before 2.0 reads it as a regular expression, so a name holding `.`, `(`, `+` or another metacharacter would be matched differently; `WhoDashboard.MergeReplaces` holds under the literal reading.
- WhoSitrep.Report38Frame: the cells of report 38's frame are stated only as the concatenation of the two cut tables with the others. Which label each kept column of the third and fourth table ends up under is not spelled out; `Frames.DropPositionsKeeps` gives the cuts themselves.
- Text.ParseInt: accepts only an optional sign and digits, not the surrounding white space or underscores Python's `int()` also accepts.
- Text.IntLiteralIsNumeric: `pd.to_numeric` is modelled on signed decimal numbers only, not exponents, `inf` or `nan`.
- Sorting.SortBy: pandas' default sort is not stable; the model uses a stable insertion sort, so rows with equal keys keep their input order.
- Rki.MaxDate: the script takes the maximum of date strings. For the uniform `YYYY-MM-DD` text it writes, that is the maximum of the dates, which the model compares as numbers.
- Integer widths are left out: counts are unbounded integers, and pandas' own inference of a column's type is replaced by the explicit parsing steps.
- The WHO CSV read with `error_bad_lines=False` is taken as already well-formed rows.
- `WhoDatabase.WhoStore` keeps the cases and deaths tables as one list of day columns over one country index. The two frames of the script share their index and always get a column for the same day.
- The data in the population CSV files is not modelled; it is a parameter (`Countries.csv`, `Subunits_and_small_shapes.csv`).
- Missing per-country values are not set to 0. `fillna(0)` runs on the report's own table, after `dropna()` has removed every row with a gap. A database country the report lacks therefore gets a missing value, which the model keeps (`WhoDatabase.AlignedMeaning`, `WhoSitrep.FillNaAfterClean`). The model follows the code here; a 0 might be what was meant.
- The tail of `COVID-19_WHO_New.py` after line 183 is a second dashboard, not the updater. Only its report-to-date slider mapping is modelled.

## Findings

| source | as written | input that shows it | evidently intended | confidence | as-written member | corrected member |
|---|---|---|---|---|---|---|
| COVID-19.py:136 | `row[1 : -1].sum()` sums the columns after Date except the last, so the World series leaves out the last country in alphabetical order (same at lines 142, 148, 154) | two countries with 1 and 2 cases on a date: World shows 1 | the sum over every country, 3 | not executed | `Jhu.WorldAsWrittenOmitsLast`, `Jhu.WorldAsWrittenCounterexample` | `Jhu.WorldIsAllRows` |
| COVID-19.py:423 | `sum_deaths_new_rel = 1000*sum_deaths_tot_abs/sum_population` computes the new-deaths per-1k figure in `update_plot` from the total deaths | one country, 1000 people, 10 deaths of which 2 new: 10 per 1k is shown for new deaths | `1000*sum_deaths_new_abs/sum_population`, 2 per 1k, as `update_map` (line 330) computes it | not executed | `Dashboard.StatsAsWritten`, `Dashboard.StatsAsWrittenDiffers`, `Dashboard.StatsAsWrittenCounterexample` | `Dashboard.Stats`, `Dashboard.StatsConsistent` |
