/** Admission-test subjects as select options, all or one faculty's
  * (src/lib/api/test-course.ts). */
module TestCourses {
  import opened Wrappers
  import opened Seqs
  import opened Labels
  import opened Records

  function AsOption(c: TestCourse): SelectOption<int> { SelectOption(c.id, c.name) }

  /** `getTestCoursesAsOptions`: the id as value and the name as label, in order. */
  function TestCoursesAsOptions(courses: Option<seq<TestCourse>>): (r: Option<seq<SelectOption<int>>>)
    ensures r.None? <==> courses.None?
    ensures courses.Some? ==> |r.value| == |courses.value|
    ensures courses.Some? ==> forall i :: 0 <= i < |courses.value| ==>
              r.value[i] == SelectOption(courses.value[i].id, courses.value[i].name)
  {
    match courses
    case None => None
    case Some(cs) => Some(Map(cs, AsOption))
  }

  /** `(course) => course.faculty.id === faculty_id`. */
  function OfFaculty(facultyId: int): TestCourse -> bool
  {
    (c: TestCourse) => c.faculty.id == facultyId
  }

  /** `getTestCoursesByFacAsOptions`: the options of the faculty's courses,
    * in order, one per course of the faculty; a subsequence of all the
    * options. */
  function TestCoursesByFacAsOptions(facultyId: int, courses: Option<seq<TestCourse>>): (r: Option<seq<SelectOption<int>>>)
    ensures r.None? <==> courses.None?
    ensures r.Some? ==> IsSubsequence(r.value, TestCoursesAsOptions(courses).value)
    ensures r.Some? ==> |r.value| == |IndicesWhere(courses.value, OfFaculty(facultyId))|
  {
    match courses
    case None => None
    case Some(cs) =>
      FilterLengthIsCardinality(cs, OfFaculty(facultyId));
      FilterIsSubsequence(cs, OfFaculty(facultyId));
      MapPreservesSubsequence(Filter(cs, OfFaculty(facultyId)), cs, AsOption);
      Some(Map(Filter(cs, OfFaculty(facultyId)), AsOption))
  }

  /** The faculty's options are the options of the faculty's courses, taken
    * in order (the selection being fixed by `Seqs.FilterDetermined`), one
    * per course; so each option comes from one of its courses, and every
    * course of the faculty has its option. */
  lemma ByFacultyMembers(facultyId: int, cs: seq<TestCourse>)
    ensures TestCoursesByFacAsOptions(facultyId, Some(cs)).value
            == TestCoursesAsOptions(Some(Filter(cs, OfFaculty(facultyId)))).value
    ensures |TestCoursesByFacAsOptions(facultyId, Some(cs)).value| == |IndicesWhere(cs, OfFaculty(facultyId))|
    ensures forall o :: o in TestCoursesByFacAsOptions(facultyId, Some(cs)).value ==>
              exists c :: c in cs && c.faculty.id == facultyId && o == SelectOption(c.id, c.name)
    ensures forall c :: c in cs && c.faculty.id == facultyId ==>
              SelectOption(c.id, c.name) in TestCoursesByFacAsOptions(facultyId, Some(cs)).value
  {
    var f := Filter(cs, OfFaculty(facultyId));
    var r := Map(f, AsOption);
    FilterMembers(cs, OfFaculty(facultyId));
    forall o | o in r
      ensures exists c :: c in cs && c.faculty.id == facultyId && o == SelectOption(c.id, c.name)
    {
      var i :| 0 <= i < |r| && r[i] == o;
      assert f[i] in f;
    }
    forall c | c in cs && c.faculty.id == facultyId
      ensures SelectOption(c.id, c.name) in r
    {
      assert c in f;
      var i :| 0 <= i < |f| && f[i] == c;
      assert r[i] == SelectOption(c.id, c.name);
    }
  }
}
