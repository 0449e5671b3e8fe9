/** Period enrollments selected and counted by status
  * (src/lib/api/period-enrollment.ts). The requested status may be left
  * out (undefined), which strict equality matches with nothing. */
module PeriodEnrollments {
  import opened Wrappers
  import opened Seqs
  import opened Records

  /** `(enrollment) => enrollment.status === status`. */
  function StatusIs(status: Option<string>): PeriodEnrollment -> bool
  {
    (e: PeriodEnrollment) => status.Some? && e.status == status.value
  }

  /** Every status is one of the schema's three values
    * (src/types/index.d.ts:375). */
  predicate WellFormed(s: seq<PeriodEnrollment>)
  {
    forall i :: 0 <= i < |s| ==> s[i].status in {"pending", "validated", "rejected"}
  }

  /** `enrollments?.filter(...)`: undefined stays undefined; otherwise
    * exactly the enrollments with the requested status, in order. The
    * last three clauses fix the list (`Seqs.FilterDetermined`): an order-kept
    * selection of matching enrollments, one per matching position. */
  function PeriodEnrollmentsByStatus(enrollments: Option<seq<PeriodEnrollment>>, status: Option<string>)
    : (r: Option<seq<PeriodEnrollment>>)
    ensures r.None? <==> enrollments.None?
    ensures r.Some? ==> forall x :: x in r.value ==> x in enrollments.value && status.Some? && x.status == status.value
    ensures r.Some? ==> forall x :: x in enrollments.value && status.Some? && x.status == status.value ==> x in r.value
    ensures r.Some? ==> IsSubsequence(r.value, enrollments.value)
    ensures r.Some? ==> |r.value| == |IndicesWhere(enrollments.value, StatusIs(status))|
  {
    match enrollments
    case None => None
    case Some(s) =>
      FilterLengthIsCardinality(s, StatusIs(status));
      FilterIsSubsequence(s, StatusIs(status));
      FilterMembers(s, StatusIs(status));
      Some(Filter(s, StatusIs(status)))
  }

  /** `...?.length || 0`. */
  function PeriodEnrollmentsCountByStatus(enrollments: Option<seq<PeriodEnrollment>>, status: Option<string>): (r: nat)
    ensures enrollments.None? ==> r == 0
    ensures enrollments.Some? ==> r == |IndicesWhere(enrollments.value, StatusIs(status))|
    ensures enrollments.Some? ==> r <= |enrollments.value|
    ensures status.None? ==> r == 0
  {
    match PeriodEnrollmentsByStatus(enrollments, status)
    case None => 0
    case Some(f) =>
      FilterLengthIsCardinality(enrollments.value, StatusIs(status));
      |f|
  }

  /** Selecting the same status twice selects what selecting once does. */
  lemma ByStatusIdempotent(enrollments: Option<seq<PeriodEnrollment>>, status: Option<string>)
    ensures PeriodEnrollmentsByStatus(PeriodEnrollmentsByStatus(enrollments, status), status)
            == PeriodEnrollmentsByStatus(enrollments, status)
  {
    if enrollments.Some? {
      FilterIdempotent(enrollments.value, StatusIs(status));
    }
  }

  /** With the schema's statuses, the pending, validated and rejected counts
    * add up to the number of enrollments. */
  lemma {:induction false} CountsSumToLength(s: seq<PeriodEnrollment>)
    requires WellFormed(s)
    ensures PeriodEnrollmentsCountByStatus(Some(s), Some("pending"))
            + PeriodEnrollmentsCountByStatus(Some(s), Some("validated"))
            + PeriodEnrollmentsCountByStatus(Some(s), Some("rejected")) == |s|
  {
    var p, v, j := StatusIs(Some("pending")), StatusIs(Some("validated")), StatusIs(Some("rejected"));
    var any := (x: PeriodEnrollment) => true;
    forall x | x in s ensures any(x) <==> p(x) || v(x) || j(x) {
      var k :| 0 <= k < |s| && s[k] == x;
    }
    FilterLengthsPartition(s, p, v, j, any);
    FilterAll(s, any);
  }
}
