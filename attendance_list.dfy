/** Attendance sheets: counts and percentages of present, absent and
  * justified items, and the "everyone present" sheet built from a course's
  * enrollments (src/lib/api/attendance-list.ts). */
module AttendanceList {
  import opened Wrappers
  import opened Seqs
  import opened Records
  import opened Labels

  /** One student's line on a sheet; the id is left out, as the builder
    * below makes items without one. */
  datatype AttendanceItem = AttendanceItem(student: PeriodEnrollment, status: string, note: Option<string>)

  predicate IsPresent(x: AttendanceItem) { x.status == "present" }
  predicate IsAbsent(x: AttendanceItem) { x.status == "absent" }
  predicate IsJustified(x: AttendanceItem) { x.status == "justified" }

  /** The one status every item carries, per the record's schema. */
  predicate WellFormed(items: seq<AttendanceItem>)
  {
    forall i :: 0 <= i < |items| ==> items[i].status == "present" || items[i].status == "absent" || items[i].status == "justified"
  }

  function AttendancePresentCount(items: Option<seq<AttendanceItem>>): (r: Option<nat>)
    ensures r.None? <==> items.None?
    ensures items.Some? ==> r.value == |IndicesWhere(items.value, IsPresent)|
  {
    match items
    case None => None
    case Some(s) =>
      FilterLengthIsCardinality(s, IsPresent);
      Some(|Filter(s, IsPresent)|)
  }

  function AttendanceAbsentCount(items: Option<seq<AttendanceItem>>): (r: Option<nat>)
    ensures r.None? <==> items.None?
    ensures items.Some? ==> r.value == |IndicesWhere(items.value, IsAbsent)|
  {
    match items
    case None => None
    case Some(s) =>
      FilterLengthIsCardinality(s, IsAbsent);
      Some(|Filter(s, IsAbsent)|)
  }

  function AttendanceJustifiedCount(items: Option<seq<AttendanceItem>>): (r: Option<nat>)
    ensures r.None? <==> items.None?
    ensures items.Some? ==> r.value == |IndicesWhere(items.value, IsJustified)|
  {
    match items
    case None => None
    case Some(s) =>
      FilterLengthIsCardinality(s, IsJustified);
      Some(|Filter(s, IsJustified)|)
  }

  /** `items?.length || 0`. */
  function TotalCount(items: Option<seq<AttendanceItem>>): nat
  {
    if items.Some? then |items.value| else 0
  }

  /** `count / total * 100` (unrounded), or 0 when there is nothing to divide by. */
  function Percentage(count: Option<nat>, total: nat): (r: real)
    requires total > 0 ==> count.Some? && count.value <= total
    ensures total == 0 ==> r == 0.0
    ensures total > 0 ==> r == (count.value as real) / (total as real) * 100.0
    ensures 0.0 <= r <= 100.0
  {
    if total > 0 then
      var c, t := count.value as real, total as real;
      assert c / t <= 1.0;
      (c / t) * 100.0
    else 0.0
  }

  /** The count of a status never exceeds the number of items. */
  lemma CountsBounded(items: Option<seq<AttendanceItem>>)
    requires items.Some?
    ensures AttendancePresentCount(items).value <= |items.value|
    ensures AttendanceAbsentCount(items).value <= |items.value|
    ensures AttendanceJustifiedCount(items).value <= |items.value|
  {
    var s := items.value;
    FilterLengthIsCardinality(s, IsPresent);
    FilterLengthIsCardinality(s, IsAbsent);
    FilterLengthIsCardinality(s, IsJustified);
  }

  function AttendancePresentPercentage(items: Option<seq<AttendanceItem>>): (r: real)
    ensures TotalCount(items) == 0 ==> r == 0.0
    ensures TotalCount(items) > 0 ==> r == (AttendancePresentCount(items).value as real) / (|items.value| as real) * 100.0
    ensures 0.0 <= r <= 100.0
  {
    if items.Some? then CountsBounded(items); Percentage(AttendancePresentCount(items), TotalCount(items))
    else Percentage(None, 0)
  }

  function AttendanceAbsentPercentage(items: Option<seq<AttendanceItem>>): (r: real)
    ensures TotalCount(items) == 0 ==> r == 0.0
    ensures TotalCount(items) > 0 ==> r == (AttendanceAbsentCount(items).value as real) / (|items.value| as real) * 100.0
    ensures 0.0 <= r <= 100.0
  {
    if items.Some? then CountsBounded(items); Percentage(AttendanceAbsentCount(items), TotalCount(items))
    else Percentage(None, 0)
  }

  function AttendanceJustifiedPercentage(items: Option<seq<AttendanceItem>>): (r: real)
    ensures TotalCount(items) == 0 ==> r == 0.0
    ensures TotalCount(items) > 0 ==> r == (AttendanceJustifiedCount(items).value as real) / (|items.value| as real) * 100.0
    ensures 0.0 <= r <= 100.0
  {
    if items.Some? then CountsBounded(items); Percentage(AttendanceJustifiedCount(items), TotalCount(items))
    else Percentage(None, 0)
  }

  /** On a sheet whose items all carry one of the three statuses, the
    * three counts add up to the number of items. */
  lemma {:induction false} CountsSumToLength(items: seq<AttendanceItem>)
    requires WellFormed(items)
    ensures AttendancePresentCount(Some(items)).value + AttendanceAbsentCount(Some(items)).value
            + AttendanceJustifiedCount(Some(items)).value == |items|
  {
    var any := (x: AttendanceItem) => true;
    FilterLengthIsCardinality(items, IsPresent);
    FilterLengthIsCardinality(items, IsAbsent);
    FilterLengthIsCardinality(items, IsJustified);
    FilterLengthsPartition(items, IsPresent, IsAbsent, IsJustified, any);
    FilterAll(items, any);
  }

  /** On a non-empty well-formed sheet the three percentages add up to 100. */
  lemma PercentagesSumTo100(items: seq<AttendanceItem>)
    requires |items| > 0 && WellFormed(items)
    ensures AttendancePresentPercentage(Some(items)) + AttendanceAbsentPercentage(Some(items))
            + AttendanceJustifiedPercentage(Some(items)) == 100.0
  {
    CountsSumToLength(items);
    SharesSumTo100(AttendancePresentCount(Some(items)).value as real, AttendanceAbsentCount(Some(items)).value as real,
                   AttendanceJustifiedCount(Some(items)).value as real, |items| as real);
  }

  /** Three parts of a positive whole, as percentages of it, add up to 100. */
  lemma SharesSumTo100(a: real, b: real, c: real, n: real)
    requires n > 0.0 && a + b + c == n
    ensures a / n * 100.0 + b / n * 100.0 + c / n * 100.0 == 100.0
  {
    assert a / n + b / n + c / n == (a + b + c) / n;
  }

  lemma WholeIs100(n: real)
    requires n > 0.0
    ensures n / n * 100.0 == 100.0
  {
  }

  /** One "present" item without note per enrollment, in order, for the
    * same student; `[]` when there are no enrollments. */
  function AttendanceItemsFromCourseEnrollments(enrollments: Option<seq<CourseEnrollment>>): (r: seq<AttendanceItem>)
    ensures enrollments.None? ==> r == []
    ensures enrollments.Some? ==> |r| == |enrollments.value|
    ensures enrollments.Some? ==> forall i :: 0 <= i < |r| ==>
              r[i].student == enrollments.value[i].student && r[i].status == "present" && r[i].note.None?
  {
    match enrollments
    case None => []
    case Some(s) => Map(s, (e: CourseEnrollment) => AttendanceItem(e.student, "present", None))
  }

  /** A sheet built from a non-empty enrollment list is 100% present. */
  lemma {:induction false} BuiltSheetAllPresent(enrollments: seq<CourseEnrollment>)
    requires |enrollments| > 0
    ensures AttendancePresentPercentage(Some(AttendanceItemsFromCourseEnrollments(Some(enrollments)))) == 100.0
  {
    var items := AttendanceItemsFromCourseEnrollments(Some(enrollments));
    assert forall i :: 0 <= i < |items| ==> IsPresent(items[i]);
    FilterAll(items, IsPresent);
    assert AttendancePresentCount(Some(items)) == Some(|items|);
    WholeIs100(|items| as real);
  }

  const StudentStatutLabels: Table := map["present" := "Présent", "absent" := "Absent", "justified" := "Absence justifiée"]

  /** The label of an attendance status, an object-literal lookup. The
    * source's parameter type admits only the three statuses; for any other
    * string the model gives `undefined`, which is what a key absent from
    * the literal and from `Object.prototype` yields. */
  function AttendanceStudentStatut(status: string): (r: Option<string>)
    ensures status == "present" ==> r == Some("Présent")
    ensures status == "absent" ==> r == Some("Absent")
    ensures status == "justified" ==> r == Some("Absence justifiée")
    ensures r.None? <==> status != "present" && status != "absent" && status != "justified"
  {
    Lookup(StudentStatutLabels, status)
  }
}
