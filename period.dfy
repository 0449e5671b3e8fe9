/** Period types and current periods as select options (src/lib/api/period.ts). */
module Periods {
  import opened Wrappers
  import opened Seqs
  import opened Labels
  import opened Records

  /** `getPeriodTypesAsOptions`. */
  const PeriodTypesAsOptions: seq<SelectOption<string>> := [
    SelectOption("semester", "Semestre"),
    SelectOption("block_semester", "Bloc de semestre"),
    SelectOption("quarter", "Trimestre"),
    SelectOption("term", "Période")]

  const PeriodTypeLabels: Table := map[
    "semester" := "Semestre", "block_semester" := "Bloc de semestre", "quarter" := "Trimestre", "term" := "Période"]

  function PeriodTypeName(periodType: string): (r: string)
    ensures r == Label(PeriodTypeLabels, periodType, Unknown)
  {
    if periodType == "semester" then "Semestre"
    else if periodType == "block_semester" then "Bloc de semestre"
    else if periodType == "quarter" then "Trimestre"
    else if periodType == "term" then "Période"
    else "Inconnu"
  }

  /** Every option carries the labeler's label for its value. */
  lemma PeriodTypeOptionsAgree()
    ensures |PeriodTypesAsOptions| == 4
    ensures AgreesWith(PeriodTypesAsOptions, PeriodTypeLabels)
    ensures forall i :: 0 <= i < |PeriodTypesAsOptions| ==>
              PeriodTypesAsOptions[i].text == PeriodTypeName(PeriodTypesAsOptions[i].value)
  {
    assert AgreesWith(PeriodTypesAsOptions, PeriodTypeLabels);
  }

  /** Each of the labeler's types appears as exactly one option. */
  lemma PeriodTypeOptionsCover()
    ensures CoversOnce(PeriodTypesAsOptions, PeriodTypeLabels)
  {
    var o := PeriodTypesAsOptions;
    assert o[0].value == "semester" && o[1].value == "block_semester" && o[2].value == "quarter" && o[3].value == "term";
  }

  /** `getCurrentPeriodsAsOptions`: the id as value and `acronym (name)` as label. */
  function CurrentPeriodsAsOptions(periods: Option<seq<Period>>): (r: Option<seq<SelectOption<int>>>)
    ensures r.None? <==> periods.None?
    ensures periods.Some? ==> |r.value| == |periods.value|
    ensures periods.Some? ==> forall i :: 0 <= i < |periods.value| ==>
              r.value[i] == SelectOption(periods.value[i].id, Parenthesized(periods.value[i].acronym, periods.value[i].name))
  {
    match periods
    case None => None
    case Some(ps) => Some(Map(ps, (p: Period) => SelectOption(p.id, Parenthesized(p.acronym, p.name))))
  }

  /** Two periods whose acronyms have no space share a label only when they
    * share both acronym and name. */
  lemma CurrentPeriodLabelsDistinguish(periods: seq<Period>, i: int, j: int)
    requires 0 <= i < |periods| && 0 <= j < |periods|
    requires forall k :: 0 <= k < |periods[i].acronym| ==> periods[i].acronym[k] != ' '
    requires forall k :: 0 <= k < |periods[j].acronym| ==> periods[j].acronym[k] != ' '
    requires CurrentPeriodsAsOptions(Some(periods)).value[i].text == CurrentPeriodsAsOptions(Some(periods)).value[j].text
    ensures periods[i].acronym == periods[j].acronym && periods[i].name == periods[j].name
  {
    var p, q := periods[i], periods[j];
    ParenthesizedInjective(p.acronym, p.name, q.acronym, q.name);
  }
}
