/** Teachers as select options (src/lib/api/teacher.ts). */
module Teachers {
  import opened Wrappers
  import opened Seqs
  import opened Labels

  /** The user account of a teacher; the three name fields may be null. */
  datatype User = User(firstName: Option<string>, lastName: Option<string>, surname: Option<string>,
                       matricule: string, isActive: bool)

  datatype Teacher = Teacher(id: int, user: User)

  /** How a template literal renders a nullable string: null as "null". */
  function Rendered(s: Option<string>): (r: string)
    ensures s.Some? ==> r == s.value
    ensures s.None? ==> r == "null"
  {
    match s
    case None => "null"
    case Some(v) => v
  }

  /** `${first_name} ${last_name} ${surname} (${matricule})`. */
  function TeacherLabel(u: User): (r: string)
    ensures r == Parenthesized(Rendered(u.firstName) + " " + Rendered(u.lastName) + " " + Rendered(u.surname), u.matricule)
  {
    Rendered(u.firstName) + " " + Rendered(u.lastName) + " " + Rendered(u.surname) + " (" + u.matricule + ")"
  }

  /** The label starts with the first name, or "null" for a null one, and
    * ends with the matricule in parentheses. */
  lemma TeacherLabelParts(u: User)
    ensures TeacherLabel(u)[|TeacherLabel(u)| - |u.matricule| - 2..] == "(" + u.matricule + ")"
    ensures u.firstName.Some? ==> TeacherLabel(u)[..|u.firstName.value| + 1] == u.firstName.value + " "
    ensures u.firstName.None? ==> TeacherLabel(u)[..5] == "null "
  {
  }

  /** `getTeachersAsOptions`: one option per teacher, in order, disabled
    * exactly when the account is inactive. */
  function TeachersAsOptions(teachers: Option<seq<Teacher>>): (r: Option<seq<FlaggedOption<int>>>)
    ensures r.None? <==> teachers.None?
    ensures teachers.Some? ==> |r.value| == |teachers.value|
    ensures teachers.Some? ==> forall i :: 0 <= i < |teachers.value| ==>
              r.value[i].value == teachers.value[i].id &&
              r.value[i].text == TeacherLabel(teachers.value[i].user) &&
              (r.value[i].disabled <==> !teachers.value[i].user.isActive)
  {
    match teachers
    case None => None
    case Some(ts) => Some(Map(ts, (t: Teacher) => FlaggedOption(t.id, TeacherLabel(t.user), !t.user.isActive)))
  }
}
