/** Academic years: status labels and colours, the year options, and the
  * progress of "now" through a date interval (src/lib/api/year.ts).
  * Dates are integer millisecond timestamps; a date-only string such as
  * "2025-01-01" denotes midnight UTC, a multiple of one day. */
module Years {
  import opened Wrappers
  import opened Seqs
  import opened Records
  import opened Labels

  const YearStatusLabels: Table := map[
    "pending" := "En attente", "progress" := "En cours", "finished" := "Terminé", "suspended" := "Suspendu"]

  const YearStatusColors: Table := map[
    "pending" := "orange", "progress" := "blue", "finished" := "green", "suspended" := "red"]

  function YearStatusName(status: string): (r: string)
    ensures r == Label(YearStatusLabels, status, Unknown)
  {
    if status == "pending" then "En attente"
    else if status == "progress" then "En cours"
    else if status == "finished" then "Terminé"
    else if status == "suspended" then "Suspendu"
    else "Inconnu"
  }

  function YearStatusColor(status: string): (r: string)
    ensures r == Label(YearStatusColors, status, "default")
  {
    if status == "pending" then "orange"
    else if status == "progress" then "blue"
    else if status == "finished" then "green"
    else if status == "suspended" then "red"
    else "default"
  }

  /** The four statuses have four different labels and four different colours. */
  lemma YearStatusTablesInjective(a: string, b: string)
    requires a in YearStatusLabels && b in YearStatusLabels && a != b
    ensures YearStatusName(a) != YearStatusName(b) && YearStatusColor(a) != YearStatusColor(b)
    ensures YearStatusName(a) != Unknown && YearStatusColor(a) != "default"
  {
  }

  function YearsAsOptions(years: Option<seq<Year>>): (r: Option<seq<SelectOption<int>>>)
    ensures r.None? <==> years.None?
    ensures years.Some? ==> |r.value| == |years.value|
    ensures years.Some? ==> forall i :: 0 <= i < |years.value| ==> r.value[i] == SelectOption(years.value[i].id, years.value[i].name)
  {
    match years
    case None => None
    case Some(ys) => Some(Map(ys, (y: Year) => SelectOption(y.id, y.name)))
  }

  /** Milliseconds in a day. */
  const Day: int := 1000 * 60 * 60 * 24

  /** Whole days from `start` to `end`, rounded down. */
  function DateDiffInDays(start: int, end: int): (r: int)
    ensures r * Day <= end - start < (r + 1) * Day
  {
    (end - start) / Day
  }

  /** `Math.round`: the nearest integer, halves going up. */
  function Round(x: real): (n: int)
    ensures n as real - 0.5 <= x < n as real + 0.5
  {
    (x + 0.5).Floor
  }

  /** The progress of `now` through [start, end] as an integer percentage.
    * Nothing stands for NaN: strictly inside an interval shorter than a day
    * both day counts are 0, and 0 / 0 is NaN. */
  function YearProgressPercent(start: int, end: int, now: int): (r: Option<int>)
    ensures now <= start ==> r == Some(0)
    ensures start < now && end <= now ==> r == Some(100)
    ensures start < now < end ==> (r.None? <==> DateDiffInDays(start, end) == 0)
    ensures start < now < end && r.Some? ==>
              r.value == Round((DateDiffInDays(start, now) as real) / (DateDiffInDays(start, end) as real) * 100.0)
    ensures r.Some? ==> 0 <= r.value <= 100
  {
    if now <= start then Some(0)
    else if now >= end then Some(100)
    else
      var totalDays := DateDiffInDays(start, end);
      var daysPassed := (now - start) / Day;
      DaysWithin(start, now, end);
      if totalDays == 0 then None
      else
        PercentBounds(daysPassed, totalDays);
        Some(Round((daysPassed as real) / (totalDays as real) * 100.0))
  }

  /** Inside the interval, the days passed are between 0 and the total. */
  lemma DaysWithin(start: int, now: int, end: int)
    requires start < now < end
    ensures 0 <= DateDiffInDays(start, now) <= DateDiffInDays(start, end)
  {
    DivMonotone(now - start, end - start);
  }

  lemma DivMonotone(a: int, b: int)
    requires 0 <= a <= b
    ensures 0 <= a / Day <= b / Day
  {
  }

  lemma PercentBounds(passed: int, total: int)
    requires 0 <= passed <= total && total > 0
    ensures 0 <= Round((passed as real) / (total as real) * 100.0) <= 100
  {
    assert (passed as real) / (total as real) <= 1.0;
  }

  /** With date-only ends and `start < now < end`, the interval lasts at
    * least a day, so the percentage is always a number. */
  lemma DateOnlyProgressDefined(start: int, end: int, now: int)
    requires start % Day == 0 && end % Day == 0 && start < now < end
    ensures DateDiffInDays(start, end) >= 1
    ensures 0 <= DateDiffInDays(start, now) <= DateDiffInDays(start, end)
    ensures YearProgressPercent(start, end, now).Some?
  {
    DaysWithin(start, now, end);
    assert (end - start) % Day == 0;
  }

  /** For a fixed interval, progress never goes down as time passes. */
  lemma ProgressMonotone(start: int, end: int, now1: int, now2: int)
    requires now1 <= now2
    requires YearProgressPercent(start, end, now1).Some? && YearProgressPercent(start, end, now2).Some?
    ensures YearProgressPercent(start, end, now1).value <= YearProgressPercent(start, end, now2).value
  {
    if start < now1 && now2 < end {
      var total := DateDiffInDays(start, end);
      DivMonotone(now1 - start, now2 - start);
      var p1, p2 := DateDiffInDays(start, now1), DateDiffInDays(start, now2);
      assert total > 0;
      FractionMonotone(p1, p2, total);
    }
  }

  lemma FractionMonotone(p1: int, p2: int, total: int)
    requires 0 <= p1 <= p2 && total > 0
    ensures Round((p1 as real) / (total as real) * 100.0) <= Round((p2 as real) / (total as real) * 100.0)
  {
    assert (p1 as real) / (total as real) <= (p2 as real) / (total as real);
  }

  /** From 2025-01-01 to 2025-01-11, on 2025-01-06 the progress is 50%. */
  lemma HalfwayExample()
    ensures YearProgressPercent(1735689600000, 1736553600000, 1736121600000) == Some(50)
  {
    assert DateDiffInDays(1735689600000, 1736553600000) == 10;
    assert DateDiffInDays(1735689600000, 1736121600000) == 5;
    assert (5 as real) / (10 as real) * 100.0 == 50.0;
  }
}
