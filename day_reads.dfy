/** The day loops of the PDF updaters read one report per day, from a start
    day on. What a day's report gives does not depend on what the loop has
    stored so far, so the reports a loop reads can be described apart from
    the loop: as the values of a function of the day. */
module DayReads {
  function At<T>(rs: seq<T>, i: nat): T
    requires i < |rs|
  {
    rs[i]
  }

  /** `rs` are the reports of the days from `start` on, as many as were read. */
  ghost predicate ReadsDays<T>(rs: seq<T>, read: int -> T, start: int) {
    forall i :: 0 <= i < |rs| ==> At(rs, i) == read(start + i)
  }

  /** The report of the next day extends the reports read so far. */
  lemma ReadsDaysSnoc<T>(rs: seq<T>, r: T, read: int -> T, start: int)
    requires ReadsDays(rs, read, start) && r == read(start + |rs|)
    ensures ReadsDays(rs + [r], read, start)
  {
    forall i | 0 <= i < |rs| + 1 ensures At(rs + [r], i) == read(start + i) {
      if i < |rs| { assert At(rs + [r], i) == At(rs, i); }
    }
  }

  /** The reports of `n` days from `day` on. */
  function Readings<T>(read: int -> T, day: int, n: nat): (rs: seq<T>)
    ensures |rs| == n && ReadsDays(rs, read, day)
    decreases n
  {
    if n == 0 then []
    else
      var init := Readings(read, day, n - 1);
      ReadsDaysSnoc(init, read(day + (n - 1)), read, day);
      init + [read(day + (n - 1))]
  }

  /** The reports read are the first of the listed ones. */
  lemma ReadsDaysListed<T>(rs: seq<T>, read: int -> T, start: int, n: nat)
    requires ReadsDays(rs, read, start) && |rs| <= n
    ensures rs == Readings(read, start, n)[..|rs|]
  {
    var all := Readings(read, start, n);
    forall i | 0 <= i < |rs| ensures rs[i] == all[i] {
      assert At(rs, i) == At(all, i);
    }
  }
}
