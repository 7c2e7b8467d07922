/** Calendar days as whole numbers. Day 0 is 2020-01-21, the date of WHO
    situation report 1; report `n` describes day `n - 1`. Formatting a day as
    text (`strftime`) is left to the callers, as a function parameter. */
module Dates {
  /** `first_rep`: the report published for day 0. */
  const FirstReport: int := 1

  /** The hard-coded start of a fresh WHO build: 2020-02-03, report 14. */
  const FreshStartDay: int := 13
  const FreshStartReport: int := 14

  /** `start_rep = first_rep + (start_dt - first_dt).days` and back again, as the
      slider does with `start_dt + timedelta(show_rep - start_rep)`. */
  function ReportOf(day: int): int {
    FirstReport + day
  }

  function DayOfReport(rep: int): int {
    rep - FirstReport
  }

  /** The slider's report-to-date mapping undoes the report-from-date mapping,
      in both directions. */
  lemma ReportDayInverse(day: int, rep: int)
    ensures DayOfReport(ReportOf(day)) == day
    ensures ReportOf(DayOfReport(rep)) == rep
    ensures ReportOf(day) == rep <==> DayOfReport(rep) == day
  {
  }

  /** The fresh build's hard-coded pair (2020-02-03, 14) obeys the same mapping
      as a resumed start. */
  lemma FreshStartAgrees()
    ensures ReportOf(FreshStartDay) == FreshStartReport
    ensures DayOfReport(FreshStartReport) == FreshStartDay
  {
  }

  /** `range(int((end_dt - start_dt).days) + 1)`: `end_dt` is "now minus one day",
      a time on day `end`, and `start_dt` is midnight of day `start`, so the whole
      number of days between them is `end - start`; a negative count gives an
      empty range. */
  function VisitCount(start: int, end: int): (n: nat)
    ensures n > 0 <==> start <= end
    ensures start <= end ==> start + n - 1 == end
  {
    if end - start + 1 <= 0 then 0 else end - start + 1
  }

  /** The days `start_dt + timedelta(dt)` for `dt` in that range, in order. */
  function DaysFrom(start: int, n: nat): (days: seq<int>)
    ensures |days| == n
  {
    seq(n, i => start + i)
  }

  /** The loop visits every day from `start` to `end` inclusive, each once and in
      order, and none at all when `start > end`. */
  lemma VisitsDays(start: int, end: int)
    ensures var days := DaysFrom(start, VisitCount(start, end));
      && (forall d :: d in days <==> start <= d <= end)
      && (forall i, j :: 0 <= i < j < |days| ==> days[i] < days[j])
      && (forall i :: 0 <= i < |days| ==> ReportOf(days[i]) == ReportOf(start) + i)
  {
    var days := DaysFrom(start, VisitCount(start, end));
    forall d | start <= d <= end ensures d in days {
      assert days[d - start] == d;
    }
  }
}
