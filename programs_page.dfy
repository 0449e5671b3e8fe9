/** The credit total of the student's programme page
  * (src/app/app/programs/page.tsx). */
module ProgramsPage {
  import opened Wrappers
  import opened Seqs

  /** A programme of the department; its credit count may be null. */
  datatype DepartmentProgram = DepartmentProgram(id: int, creditCount: Option<real>)

  /** What one programme adds: `total + null` is `total`. */
  function Credits(p: DepartmentProgram): real
  {
    if p.creditCount.Some? then p.creditCount.value else 0.0
  }

  /** `programs?.reduce((total, p) => total + p.credit_count, 0) || 0`: the
    * sum of the credit counts, and 0 without a list. A sum of 0 is already 0
    * for the `|| 0`. */
  function CountCredits(programs: Option<seq<DepartmentProgram>>): (r: real)
    ensures programs.None? ==> r == 0.0
    ensures programs.Some? ==> r == FoldSum(programs.value, Credits)
  {
    match programs
    case None => 0.0
    case Some(ps) =>
      var total := FoldSum(ps, Credits);
      if total == 0.0 then 0.0 else total
  }

  /** The empty list counts nothing, and a programme without a credit count
    * adds nothing. */
  lemma CountCreditsAppend(ps: seq<DepartmentProgram>, p: DepartmentProgram)
    ensures CountCredits(Some([])) == 0.0
    ensures CountCredits(Some(ps + [p])) == CountCredits(Some(ps)) + Credits(p)
    ensures p.creditCount.None? ==> CountCredits(Some(ps + [p])) == CountCredits(Some(ps))
  {
    assert (ps + [p])[..|ps + [p]| - 1] == ps;
  }

  /** The total does not depend on the order of the programmes. */
  lemma CountCreditsPermutation(a: seq<DepartmentProgram>, b: seq<DepartmentProgram>)
    requires multiset(a) == multiset(b)
    ensures CountCredits(Some(a)) == CountCredits(Some(b))
  {
    FoldSumPermutation(a, b, Credits);
  }

  /** With no negative credit count, the total is not negative. */
  lemma CountCreditsNonNegative(ps: seq<DepartmentProgram>)
    requires forall i :: 0 <= i < |ps| && ps[i].creditCount.Some? ==> ps[i].creditCount.value >= 0.0
    ensures CountCredits(Some(ps)) >= 0.0
  {
    assert forall x :: x in ps ==> Credits(x) >= 0.0;
    FoldSumNonNegative(ps, Credits);
  }
}
