/** Courses and course types as select options (src/lib/api/course.ts). */
module Courses {
  import opened Wrappers
  import opened Seqs
  import opened Labels
  import opened Records

  /** `getCoursesAsOptions`: the id as value and the name as label. */
  function CoursesAsOptions(courses: Option<seq<Course>>): (r: Option<seq<SelectOption<int>>>)
    ensures r.None? <==> courses.None?
    ensures courses.Some? ==> |r.value| == |courses.value|
    ensures courses.Some? ==> forall i :: 0 <= i < |courses.value| ==>
              r.value[i] == SelectOption(courses.value[i].id, courses.value[i].name)
  {
    match courses
    case None => None
    case Some(cs) => Some(Map(cs, (c: Course) => SelectOption(c.id, c.name)))
  }

  /** `getCourseTypesAsOptions`. */
  const CourseTypesAsOptions: seq<SelectOption<string>> := [
    SelectOption("theoretical", "Théorique"),
    SelectOption("practical", "Pratique"),
    SelectOption("theoretical_and_practical", "Théorique et pratique")]

  const CourseTypeLabels: Table := map[
    "theoretical" := "Théorique", "practical" := "Pratique", "theoretical_and_practical" := "Théorique et pratique"]

  function CourseTypeName(courseType: string): (r: string)
    ensures r == Label(CourseTypeLabels, courseType, Unknown)
  {
    if courseType == "theoretical" then "Théorique"
    else if courseType == "practical" then "Pratique"
    else if courseType == "theoretical_and_practical" then "Théorique et pratique"
    else "Inconnu"
  }

  /** Every option carries the labeler's label for its value. */
  lemma CourseTypeOptionsAgree()
    ensures |CourseTypesAsOptions| == 3
    ensures AgreesWith(CourseTypesAsOptions, CourseTypeLabels)
    ensures forall i :: 0 <= i < |CourseTypesAsOptions| ==>
              CourseTypesAsOptions[i].text == CourseTypeName(CourseTypesAsOptions[i].value)
  {
    assert AgreesWith(CourseTypesAsOptions, CourseTypeLabels);
  }

  /** Each of the labeler's types appears as exactly one option. */
  lemma CourseTypeOptionsCover()
    ensures CoversOnce(CourseTypesAsOptions, CourseTypeLabels)
  {
    var o := CourseTypesAsOptions;
    assert o[0].value == "theoretical" && o[1].value == "practical" && o[2].value == "theoretical_and_practical";
  }
}
