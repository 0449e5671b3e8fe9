/** Room types and classrooms as select options (src/lib/api/classroom.ts). */
module Classrooms {
  import opened Wrappers
  import opened Seqs
  import opened Labels

  /** A classroom; the status is "occupied", "unoccupied" or null. */
  datatype Classroom = Classroom(id: int, name: string, status: Option<string>)

  /** `getRoomsTypeAsOptions`: the eight room types offered in forms. */
  const RoomsTypeAsOptions: seq<SelectOption<string>> := [
    SelectOption("amphitheater", "Amphithéâtre"),
    SelectOption("classroom", "Salle de cours"),
    SelectOption("laboratory", "Laboratoire"),
    SelectOption("computer-room", "Salle informatique"),
    SelectOption("meeting-room", "Salle de réunion"),
    SelectOption("chapel", "Chapelle"),
    SelectOption("office", "Bureau"),
    SelectOption("other", "Autre")]

  /** The seven room types the labeler knows. */
  const ClassroomTypeLabels: Table := map[
    "amphitheater" := "Amphithéâtre", "classroom" := "Salle de cours", "laboratory" := "Laboratoire",
    "computer-room" := "Salle informatique", "meeting-room" := "Salle de réunion", "chapel" := "Chapelle",
    "office" := "Bureau"]

  /** `getClassroomTypeName`, as written: no case for "other". */
  function ClassroomTypeName(roomType: string): (r: string)
    ensures r == Label(ClassroomTypeLabels, roomType, Unknown)
  {
    if roomType == "amphitheater" then "Amphithéâtre"
    else if roomType == "classroom" then "Salle de cours"
    else if roomType == "laboratory" then "Laboratoire"
    else if roomType == "computer-room" then "Salle informatique"
    else if roomType == "meeting-room" then "Salle de réunion"
    else if roomType == "chapel" then "Chapelle"
    else if roomType == "office" then "Bureau"
    else "Inconnu"
  }

  /** The first seven options carry the labeler's labels. */
  lemma FirstSevenAgree()
    ensures |RoomsTypeAsOptions| == 8
    ensures AgreesWith(RoomsTypeAsOptions[..7], ClassroomTypeLabels)
  {
  }

  /** The first seven options name each of the labeler's types once. */
  lemma FirstSevenCover()
    ensures CoversOnce(RoomsTypeAsOptions[..7], ClassroomTypeLabels)
  {
    var o := RoomsTypeAsOptions[..7];
    assert o[0].value == "amphitheater" && o[1].value == "classroom" && o[2].value == "laboratory";
    assert o[3].value == "computer-room" && o[4].value == "meeting-room" && o[5].value == "chapel";
    assert o[6].value == "office";
  }

  /** The eighth option, "other", is labelled "Autre" by the list but
    * "Inconnu" by the labeler. */
  lemma OtherLabelDisagrees()
    ensures RoomsTypeAsOptions[7] == SelectOption("other", "Autre")
    ensures ClassroomTypeName(RoomsTypeAsOptions[7].value) == Unknown != RoomsTypeAsOptions[7].text
  {
  }

  /** The labeler the option list implies: the same table plus "other". */
  const IntendedClassroomTypeLabels: Table := ClassroomTypeLabels["other" := "Autre"]

  /** `getClassroomTypeName` with the "other" case the option list implies. */
  function ClassroomTypeNameIntended(roomType: string): (r: string)
    ensures r == Label(IntendedClassroomTypeLabels, roomType, Unknown)
  {
    if roomType == "other" then "Autre" else ClassroomTypeName(roomType)
  }

  /** With the "other" case, every option carries the labeler's label. */
  lemma IntendedLabelsAgree()
    ensures AgreesWith(RoomsTypeAsOptions, IntendedClassroomTypeLabels)
    ensures forall i :: 0 <= i < |RoomsTypeAsOptions| ==>
              RoomsTypeAsOptions[i].text == ClassroomTypeNameIntended(RoomsTypeAsOptions[i].value)
  {
    assert AgreesWith(RoomsTypeAsOptions, IntendedClassroomTypeLabels);
  }

  /** With the "other" case, each of the eight types appears once. */
  lemma IntendedLabelsCover()
    ensures CoversOnce(RoomsTypeAsOptions, IntendedClassroomTypeLabels)
  {
    var o := RoomsTypeAsOptions;
    assert o[0].value == "amphitheater" && o[1].value == "classroom" && o[2].value == "laboratory";
    assert o[3].value == "computer-room" && o[4].value == "meeting-room" && o[5].value == "chapel";
    assert o[6].value == "office" && o[7].value == "other";
  }

  /** `getClassroomsAsOptions`: id as value, name as label, in order. */
  function ClassroomsAsOptions(classrooms: Option<seq<Classroom>>): (r: Option<seq<SelectOption<int>>>)
    ensures r.None? <==> classrooms.None?
    ensures classrooms.Some? ==> |r.value| == |classrooms.value|
    ensures classrooms.Some? ==> forall i :: 0 <= i < |classrooms.value| ==>
              r.value[i] == SelectOption(classrooms.value[i].id, classrooms.value[i].name)
  {
    match classrooms
    case None => None
    case Some(cs) => Some(Map(cs, (c: Classroom) => SelectOption(c.id, c.name)))
  }

  /** `getClassroomsAsOptionsWithDisabled`: an occupied room is disabled;
    * an unoccupied room or one with a null status is not. */
  function ClassroomsAsOptionsWithDisabled(classrooms: Option<seq<Classroom>>): (r: Option<seq<FlaggedOption<int>>>)
    ensures r.None? <==> classrooms.None?
    ensures classrooms.Some? ==> |r.value| == |classrooms.value|
    ensures classrooms.Some? ==> forall i :: 0 <= i < |classrooms.value| ==>
              r.value[i].value == classrooms.value[i].id && r.value[i].text == classrooms.value[i].name &&
              (r.value[i].disabled <==> classrooms.value[i].status == Some("occupied"))
  {
    match classrooms
    case None => None
    case Some(cs) => Some(Map(cs, (c: Classroom) => FlaggedOption(c.id, c.name, c.status == Some("occupied"))))
  }

  /** The two option lists agree on values and labels. */
  lemma WithDisabledExtendsOptions(classrooms: Option<seq<Classroom>>)
    requires classrooms.Some?
    ensures forall i :: 0 <= i < |classrooms.value| ==>
              ClassroomsAsOptionsWithDisabled(classrooms).value[i].value == ClassroomsAsOptions(classrooms).value[i].value &&
              ClassroomsAsOptionsWithDisabled(classrooms).value[i].text == ClassroomsAsOptions(classrooms).value[i].text
  {
  }
}
