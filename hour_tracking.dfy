/** Hours logged against a taught course: the cumulative total and the
  * activity-type labels (src/lib/api/hour-tracking.ts). */
module HoursTracking {
  import opened Wrappers
  import opened Seqs
  import opened Labels

  /** One logged block of teaching. `hoursCompleted` is what
    * `Number(hours_completed)` yields: a number, or nothing for NaN. */
  datatype HourTracking = HourTracking(hoursCompleted: Option<real>, activityType: string)

  /** What one record adds to the total: its number, or 0 for NaN. */
  function Contribution(t: HourTracking): real
  {
    if t.hoursCompleted.Some? then t.hoursCompleted.value else 0.0
  }

  /** The sum of the coercible `hours_completed` values; 0 for a missing
    * or empty list. */
  function CumulativeHours(trackings: Option<seq<HourTracking>>): (r: real)
    ensures trackings.None? ==> r == 0.0
    ensures trackings.Some? ==> r == FoldSum(trackings.value, Contribution)
  {
    if trackings.None? || |trackings.value| == 0 then 0.0
    else FoldSum(trackings.value, Contribution)
  }

  /** Appending a record adds its number, or nothing when it is NaN. */
  lemma CumulativeHoursAppend(s: seq<HourTracking>, t: HourTracking)
    ensures CumulativeHours(Some(s + [t])) == CumulativeHours(Some(s)) + Contribution(t)
    ensures t.hoursCompleted.None? ==> CumulativeHours(Some(s + [t])) == CumulativeHours(Some(s))
  {
    assert (s + [t])[..|s + [t]| - 1] == s;
  }

  /** The total does not depend on the order of the records. */
  lemma CumulativeHoursPermutation(a: seq<HourTracking>, b: seq<HourTracking>)
    requires multiset(a) == multiset(b)
    ensures CumulativeHours(Some(a)) == CumulativeHours(Some(b))
  {
    FoldSumPermutation(a, b, Contribution);
  }

  /** With no negative number among the records, the total is not negative. */
  lemma CumulativeHoursNonNegative(s: seq<HourTracking>)
    requires forall i :: 0 <= i < |s| && s[i].hoursCompleted.Some? ==> s[i].hoursCompleted.value >= 0.0
    ensures CumulativeHours(Some(s)) >= 0.0
  {
    assert forall x :: x in s ==> Contribution(x) >= 0.0;
    FoldSumNonNegative(s, Contribution);
  }

  /** Hours 2, NaN and 3 add up to 5. */
  lemma MixedRecordsExample(kind: string)
    ensures CumulativeHours(Some([HourTracking(Some(2.0), kind), HourTracking(None, kind), HourTracking(Some(3.0), kind)])) == 5.0
  {
    var a, b, c := HourTracking(Some(2.0), kind), HourTracking(None, kind), HourTracking(Some(3.0), kind);
    CumulativeHoursAppend([], a);
    CumulativeHoursAppend([a], b);
    CumulativeHoursAppend([a, b], c);
    assert [] + [a] == [a] && [a] + [b] == [a, b] && [a, b] + [c] == [a, b, c];
  }

  const ActivityTypeLabels: Table := map[
    "lecture" := "Cours magistral (CM)",
    "tutorial" := "Travaux dirigés (TD)",
    "practical" := "Travaux pratiques (TP)",
    "practical_tutorial" := "Travaux pratiques et dirigés"]

  function HourTrackingActivityTypeName(activityType: string): (r: string)
    ensures r == Label(ActivityTypeLabels, activityType, Unknown)
  {
    if activityType == "lecture" then "Cours magistral (CM)"
    else if activityType == "tutorial" then "Travaux dirigés (TD)"
    else if activityType == "practical" then "Travaux pratiques (TP)"
    else if activityType == "practical_tutorial" then "Travaux pratiques et dirigés"
    else "Inconnu"
  }

  /** The four activity types, each labelled as the labeler labels it. */
  function HourTrackingActivityTypeOptions(): (r: seq<SelectOption<string>>)
    ensures |r| == 4
    ensures AgreesWith(r, ActivityTypeLabels) && CoversOnce(r, ActivityTypeLabels)
  {
    var r := [
      SelectOption("lecture", "Cours magistral (CM)"),
      SelectOption("tutorial", "Travaux dirigés (TD)"),
      SelectOption("practical", "Travaux pratiques (TP)"),
      SelectOption("practical_tutorial", "Travaux pratiques et dirigés")];
    assert r[0].value == "lecture" && r[1].value == "tutorial" && r[2].value == "practical" && r[3].value == "practical_tutorial";
    r
  }

  /** Each option is labelled as the labeler labels its value. */
  lemma ActivityTypeOptionsAgree()
    ensures forall i :: 0 <= i < |HourTrackingActivityTypeOptions()| ==>
              HourTrackingActivityTypeOptions()[i].text == HourTrackingActivityTypeName(HourTrackingActivityTypeOptions()[i].value)
  {
    var r := HourTrackingActivityTypeOptions();
    assert AgreesWith(r, ActivityTypeLabels);
  }
}
