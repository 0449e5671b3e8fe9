/** The period list of the student's course page
  * (src/app/app/courses/page.tsx): which periods are listed, the enrollment
  * each is matched with, and what each list item shows. */
module CoursesPage {
  import opened Wrappers
  import opened Seqs
  import opened Labels
  import opened Records
  import Years
  import Application

  /** `(p) => p.period.id === periodId`. */
  function ForPeriod(periodId: int): PeriodEnrollment -> bool
  {
    (e: PeriodEnrollment) => e.period.id == periodId
  }

  /** `checkPeriodInEnrollments`: the first enrollment in the period, if any. */
  function CheckPeriodInEnrollments(periodId: int, enrollments: Option<seq<PeriodEnrollment>>): (r: Option<PeriodEnrollment>)
    ensures enrollments.None? ==> r.None?
    ensures enrollments.Some? && r.None? ==> forall i :: 0 <= i < |enrollments.value| ==> enrollments.value[i].period.id != periodId
    ensures r.Some? ==>
              enrollments.Some? &&
              exists i :: 0 <= i < |enrollments.value| && enrollments.value[i] == r.value &&
                r.value.period.id == periodId &&
                forall j :: 0 <= j < i ==> enrollments.value[j].period.id != periodId
  {
    match enrollments
    case None => None
    case Some(es) =>
      var r := Find(es, ForPeriod(periodId));
      assert r.Some? ==> exists i :: 0 <= i < |es| && es[i] == r.value && ForPeriod(periodId)(es[i]) && FirstMatch(es, ForPeriod(periodId), i);
      r
  }

  /** A period whose enrollments are open or were: in progress or finished. */
  function IsOpened(p: Period): bool { p.status == "progress" || p.status == "finished" }

  /** `getOpenedPeriods`: the periods in progress or finished, in order,
    * one entry per such position (`Seqs.FilterDetermined`). */
  function OpenedPeriods(periods: Option<seq<Period>>): (r: Option<seq<Period>>)
    ensures r.None? <==> periods.None?
    ensures r.Some? ==> forall p :: p in r.value ==> p in periods.value && (p.status == "progress" || p.status == "finished")
    ensures r.Some? ==> forall p :: p in periods.value && (p.status == "progress" || p.status == "finished") ==> p in r.value
    ensures r.Some? ==> IsSubsequence(r.value, periods.value)
    ensures r.Some? ==> |r.value| == |IndicesWhere(periods.value, IsOpened)|
  {
    match periods
    case None => None
    case Some(ps) =>
      FilterLengthIsCardinality(ps, IsOpened);
      FilterMembers(ps, IsOpened);
      FilterIsSubsequence(ps, IsOpened);
      Some(Filter(ps, IsOpened))
  }

  /** What one list item shows. */
  datatype PeriodItemView = PeriodItemView(
    title: string,
    viewCoursesButton: bool,
    enrollButton: bool,
    unregisterMenu: bool,
    tagLabel: string,
    tagColor: Option<string>)

  /** `PeriodListItem`: the eye button for a validated enrollment; the
    * enroll button without an enrollment and the unregister menu with one,
    * both only while the period is not finished; the tag names the
    * enrollment's status, or else the period's. */
  function PeriodListItem(item: Period, enrollment: Option<PeriodEnrollment>): (r: PeriodItemView)
    ensures r.title == Parenthesized(item.name, item.acronym)
    ensures r.viewCoursesButton <==> enrollment.Some? && enrollment.value.status == "validated"
    ensures r.enrollButton <==> enrollment.None? && item.status != "finished"
    ensures r.unregisterMenu <==> enrollment.Some? && item.status != "finished"
    ensures enrollment.Some? ==>
              r.tagLabel == Application.ApplicationStatusName(enrollment.value.status) &&
              r.tagColor == Application.ApplicationStatusAlertType(enrollment.value.status)
    ensures enrollment.None? ==>
              r.tagLabel == Years.YearStatusName(item.status) && r.tagColor == Some(Years.YearStatusColor(item.status))
  {
    match enrollment
    case None =>
      PeriodItemView(Parenthesized(item.name, item.acronym), false, item.status != "finished", false,
                     Years.YearStatusName(item.status), Some(Years.YearStatusColor(item.status)))
    case Some(e) =>
      PeriodItemView(Parenthesized(item.name, item.acronym), e.status == "validated", false, item.status != "finished",
                     Application.ApplicationStatusName(e.status), Application.ApplicationStatusAlertType(e.status))
  }

  /** The list: one item per opened period, matched with its enrollment. */
  function PeriodList(periods: Option<seq<Period>>, enrollments: Option<seq<PeriodEnrollment>>): (r: seq<PeriodItemView>)
    ensures periods.None? ==> r == []
    ensures periods.Some? ==> |r| == |OpenedPeriods(periods).value|
    ensures periods.Some? ==> forall i :: 0 <= i < |r| ==>
              r[i] == PeriodListItem(OpenedPeriods(periods).value[i], CheckPeriodInEnrollments(OpenedPeriods(periods).value[i].id, enrollments))
  {
    match OpenedPeriods(periods)
    case None => []
    case Some(ps) => Map(ps, (p: Period) => PeriodListItem(p, CheckPeriodInEnrollments(p.id, enrollments)))
  }

  /** On a listed period the enroll button shows exactly when the student
    * has no enrollment in it and the period is in progress; at most one of
    * the enroll button and the unregister menu shows, and one does exactly
    * when the period is in progress. */
  lemma ListedItemRules(periods: seq<Period>, enrollments: Option<seq<PeriodEnrollment>>, i: int)
    requires 0 <= i < |PeriodList(Some(periods), enrollments)|
    ensures var p := OpenedPeriods(Some(periods)).value[i];
            var v := PeriodList(Some(periods), enrollments)[i];
            (v.enrollButton <==> CheckPeriodInEnrollments(p.id, enrollments).None? && p.status == "progress") &&
            !(v.enrollButton && v.unregisterMenu) &&
            (v.enrollButton || v.unregisterMenu <==> p.status == "progress")
  {
    var ps := OpenedPeriods(Some(periods)).value;
    assert ps[i] in ps;
  }

  /** The eye button shows only for a validated enrollment, so never beside
    * the enroll button. */
  lemma ViewCoursesNeedsEnrollment(item: Period, enrollment: Option<PeriodEnrollment>)
    ensures PeriodListItem(item, enrollment).viewCoursesButton ==> !PeriodListItem(item, enrollment).enrollButton
    ensures PeriodListItem(item, enrollment).viewCoursesButton ==> PeriodListItem(item, enrollment).unregisterMenu || item.status == "finished"
  {
  }
}
