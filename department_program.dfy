/** Courses offered to a programme, disabled once the programme has them
  * (src/lib/api/department-program.ts). */
module DepartmentPrograms {
  import opened Wrappers
  import opened Seqs
  import opened Labels
  import opened Records

  /** A course of a programme; the catalogue course it refers to may be null. */
  datatype CourseProgram = CourseProgram(availableCourse: Option<Course>)

  /** `(cp) => cp.available_course?.id === id`. */
  function Offers(id: int): CourseProgram -> bool
  {
    (cp: CourseProgram) => cp.availableCourse.Some? && cp.availableCourse.value.id == id
  }

  /** `coursesOfProgram?.some(...)`: undefined without a list. */
  function InProgram(id: int, coursesOfProgram: Option<seq<CourseProgram>>): (r: Option<bool>)
    ensures r.None? <==> coursesOfProgram.None?
    ensures r.Some? ==>
              (r.value <==>
                 exists i :: 0 <= i < |coursesOfProgram.value| &&
                   coursesOfProgram.value[i].availableCourse.Some? &&
                   coursesOfProgram.value[i].availableCourse.value.id == id)
  {
    match coursesOfProgram
    case None => None
    case Some(cps) => Some(Any(cps, Offers(id)))
  }

  /** A programme course without a catalogue course disables nothing. */
  lemma NullCourseDisablesNothing(id: int, cps: seq<CourseProgram>)
    ensures InProgram(id, Some(cps + [CourseProgram(None)])) == InProgram(id, Some(cps))
  {
    var e := cps + [CourseProgram(None)];
    assert forall i :: 0 <= i < |cps| ==> e[i] == cps[i];
  }

  /** `getCoursesAsOptionsWithDisabled`: one option per course, in order,
    * disabled when the programme already has the course. */
  function CoursesAsOptionsWithDisabled(courses: Option<seq<Course>>, coursesOfProgram: Option<seq<CourseProgram>>)
    : (r: Option<seq<ToggleOption<int>>>)
    ensures r.None? <==> courses.None?
    ensures courses.Some? ==> |r.value| == |courses.value|
    ensures courses.Some? ==> forall i :: 0 <= i < |courses.value| ==>
              r.value[i].value == courses.value[i].id && r.value[i].text == courses.value[i].name &&
              r.value[i].disabled == InProgram(courses.value[i].id, coursesOfProgram)
  {
    match courses
    case None => None
    case Some(cs) => Some(Map(cs, (c: Course) => ToggleOption(c.id, c.name, InProgram(c.id, coursesOfProgram))))
  }
}
