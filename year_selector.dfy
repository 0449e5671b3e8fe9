/** The year selector shown while the student's year enrollments load
  * (src/components/yearSelector.tsx): a looping loading bar, the check
  * that the stored year is not among the enrollments, and the options. */
module YearSelector {
  import opened Wrappers
  import opened Seqs
  import opened Labels

  /** The percent after one tick of the timer. */
  function NextPercent(p: int): (r: int)
    ensures p + 5 <= 150 ==> r == p + 5
    ensures p + 5 > 150 ==> r == 100
  {
    var next := p + 5;
    if next > 150 then 100 else next
  }

  /** The values the bar can show: multiples of 5 from -50 to 150. */
  predicate ValidPercent(p: int) { -50 <= p <= 150 && p % 5 == 0 }

  /** `n` ticks from `p`. */
  function Ticks(p: int, n: nat): int
  {
    if n == 0 then p else NextPercent(Ticks(p, n - 1))
  }

  /** A tick keeps the percent a multiple of 5 within [-50, 150]. */
  lemma NextPercentValid(p: int)
    requires ValidPercent(p)
    ensures ValidPercent(NextPercent(p))
  {
  }

  /** Once at 100 or more, the bar stays within [100, 150]. */
  lemma NextPercentStaysHigh(p: int)
    requires 100 <= p <= 150
    ensures 100 <= NextPercent(p) <= 150
  {
  }

  /** From 150 the bar jumps back to 100. */
  lemma WrapsAtTop()
    ensures NextPercent(150) == 100
  {
  }

  /** Any number of ticks keeps the bar within [100, 150] once it is there. */
  lemma {:induction false} TicksStayHigh(p: int, n: nat)
    requires 100 <= p <= 150
    ensures 100 <= Ticks(p, n) <= 150
  {
    if n > 0 {
      TicksStayHigh(p, n - 1);
      NextPercentStaysHigh(Ticks(p, n - 1));
    }
  }

  /** Any number of ticks from a valid percent gives a valid percent. */
  lemma {:induction false} TicksValid(p: int, n: nat)
    requires ValidPercent(p)
    ensures ValidPercent(Ticks(p, n))
  {
    if n > 0 {
      TicksValid(p, n - 1);
      NextPercentValid(Ticks(p, n - 1));
    }
  }

  /** Counting ticks from `p + 5` is counting them from `p`, one later, while
    * the bar climbs without wrapping. */
  lemma {:induction false} TicksClimb(p: int, n: nat)
    requires p + 5 * n <= 150
    ensures Ticks(p, n) == p + 5 * n
  {
    if n > 0 {
      TicksClimb(p, n - 1);
    }
  }

  /** From -50 the bar reaches 100 after 30 ticks and from then on cycles
    * 100, 105, ..., 150, 100 with period 11. */
  lemma LoadingBarCycle()
    ensures Ticks(-50, 30) == 100
    ensures Ticks(100, 10) == 150
    ensures Ticks(100, 11) == 100
  {
    TicksClimb(-50, 30);
    TicksClimb(100, 10);
  }

  /** The loading bar: `percent` starts at -50 and each timer tick moves it. */
  class LoadingBar {
    var percent: int

    ghost predicate Valid()
      reads this
    {
      ValidPercent(percent)
    }

    constructor()
      ensures percent == -50 && Valid()
    {
      percent := -50;
    }

    /** `setPercent((prev) => prev + 5 > 150 ? 100 : prev + 5)`. */
    method Tick()
      requires Valid()
      modifies this
      ensures percent == NextPercent(old(percent))
      ensures Valid()
      ensures old(percent) >= 100 ==> 100 <= percent <= 150
    {
      var next := percent + 5;
      percent := if next > 150 then 100 else next;
    }
  }

  /** A year enrollment: its id, the year's name and the class acronym. */
  datatype YearEnrollment = YearEnrollment(id: int, yearName: string, classAcronym: string)

  /** `(y) => y.id === yid`; an unset stored year matches nothing. */
  function HasId(yid: Option<int>): YearEnrollment -> bool
  {
    (y: YearEnrollment) => yid.Some? && y.id == yid.value
  }

  /** `checkYidInYears`: false while the enrollments are undefined, and
    * otherwise true exactly when no enrollment has the stored year id. */
  function CheckYidInYears(yid: Option<int>, enrollments: Option<seq<YearEnrollment>>): (r: bool)
    ensures enrollments.None? ==> !r
    ensures enrollments.Some? ==>
              (r <==> forall i :: 0 <= i < |enrollments.value| ==> !(yid.Some? && enrollments.value[i].id == yid.value))
    ensures enrollments.Some? && yid.None? ==> r
  {
    match enrollments
    case None => false
    case Some(es) => !Any(es, HasId(yid))
  }

  /** `getEnrollmentsAsOptions`: the id as value and `year (class)` as label. */
  function EnrollmentsAsOptions(enrollments: Option<seq<YearEnrollment>>): (r: Option<seq<SelectOption<int>>>)
    ensures r.None? <==> enrollments.None?
    ensures enrollments.Some? ==> |r.value| == |enrollments.value|
    ensures enrollments.Some? ==> forall i :: 0 <= i < |enrollments.value| ==>
              r.value[i] == SelectOption(enrollments.value[i].id,
                                         Parenthesized(enrollments.value[i].yearName, enrollments.value[i].classAcronym))
  {
    match enrollments
    case None => None
    case Some(es) => Some(Map(es, (e: YearEnrollment) => SelectOption(e.id, Parenthesized(e.yearName, e.classAcronym))))
  }

  /** The stored year is flagged as missing exactly when no option has its id. */
  lemma MissingYearHasNoOption(yid: int, enrollments: seq<YearEnrollment>)
    ensures CheckYidInYears(Some(yid), Some(enrollments)) <==>
              forall i :: 0 <= i < |enrollments| ==> EnrollmentsAsOptions(Some(enrollments)).value[i].value != yid
  {
    var o := EnrollmentsAsOptions(Some(enrollments)).value;
    assert forall i :: 0 <= i < |enrollments| ==> o[i].value == enrollments[i].id;
  }
}
