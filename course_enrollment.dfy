/** Course enrollments selected and counted by status
  * (src/lib/api/course-enrollment.ts). A stored status may be null; the
  * requested status may be left out (undefined). Strict equality makes
  * neither match anything but the same string. */
module CourseEnrollments {
  import opened Wrappers
  import opened Seqs
  import opened Records

  /** `(enrollment) => enrollment.status === status`. */
  function StatusIs(status: Option<string>): CourseEnrollment -> bool
  {
    (e: CourseEnrollment) => status.Some? && e.status == status
  }

  /** The enrollment carries a (non-null) status. */
  predicate IsStated(e: CourseEnrollment) { e.status.Some? }

  /** Every stored status is null or one of the schema's three values. */
  predicate WellFormed(s: seq<CourseEnrollment>)
  {
    forall i :: 0 <= i < |s| ==>
      s[i].status.None? || s[i].status.value in {"pending", "validated", "rejected"}
  }

  /** `enrollments?.filter(...)`: undefined stays undefined; otherwise
    * exactly the enrollments with the requested status, in order. The
    * last three clauses fix the list (`Seqs.FilterDetermined`): an order-kept
    * selection of matching enrollments, one per matching position. */
  function CourseEnrollmentsByStatus(enrollments: Option<seq<CourseEnrollment>>, status: Option<string>)
    : (r: Option<seq<CourseEnrollment>>)
    ensures r.None? <==> enrollments.None?
    ensures r.Some? ==> forall x :: x in r.value ==> x in enrollments.value && status.Some? && x.status == status
    ensures r.Some? ==> forall x :: x in enrollments.value && status.Some? && x.status == status ==> x in r.value
    ensures r.Some? ==> IsSubsequence(r.value, enrollments.value)
    ensures r.Some? ==> |r.value| == |IndicesWhere(enrollments.value, StatusIs(status))|
  {
    match enrollments
    case None => None
    case Some(s) =>
      FilterLengthIsCardinality(s, StatusIs(status));
      FilterIsSubsequence(s, StatusIs(status));
      FilterMembers(s, StatusIs(status));
      Some(Filter(s, StatusIs(status)))
  }

  /** `...?.length || 0`. Leaving the status out counts nothing, since no
    * stored status is undefined. */
  function CourseEnrollmentsCountByStatus(enrollments: Option<seq<CourseEnrollment>>, status: Option<string>): (r: nat)
    ensures enrollments.None? ==> r == 0
    ensures enrollments.Some? ==> r == |IndicesWhere(enrollments.value, StatusIs(status))|
    ensures enrollments.Some? ==> r <= |enrollments.value|
    ensures status.None? ==> r == 0
  {
    match CourseEnrollmentsByStatus(enrollments, status)
    case None => 0
    case Some(f) =>
      FilterLengthIsCardinality(enrollments.value, StatusIs(status));
      |f|
  }

  /** Selecting the same status twice selects what selecting once does. */
  lemma ByStatusIdempotent(enrollments: Option<seq<CourseEnrollment>>, status: Option<string>)
    ensures CourseEnrollmentsByStatus(CourseEnrollmentsByStatus(enrollments, status), status)
            == CourseEnrollmentsByStatus(enrollments, status)
  {
    if enrollments.Some? {
      FilterIdempotent(enrollments.value, StatusIs(status));
    }
  }

  /** The pending, validated and rejected counts add up to the number of
    * enrollments with a status; a null status is never counted. */
  lemma {:induction false} CountsSumToStated(s: seq<CourseEnrollment>)
    requires WellFormed(s)
    ensures CourseEnrollmentsCountByStatus(Some(s), Some("pending"))
            + CourseEnrollmentsCountByStatus(Some(s), Some("validated"))
            + CourseEnrollmentsCountByStatus(Some(s), Some("rejected")) == |Filter(s, IsStated)|
  {
    var p, v, j := StatusIs(Some("pending")), StatusIs(Some("validated")), StatusIs(Some("rejected"));
    forall x | x in s ensures IsStated(x) <==> p(x) || v(x) || j(x) {
      var k :| 0 <= k < |s| && s[k] == x;
    }
    FilterLengthsPartition(s, p, v, j, IsStated);
  }
}
