/** Teaching-unit categories and teaching units as select options
  * (src/lib/api/teaching-unit.ts). */
module TeachingUnits {
  import opened Wrappers
  import opened Seqs
  import opened Labels
  import opened Records

  const CategoryLabels: Table := map[
    "required" := "Obligatoire", "optional" := "Optionnelle", "free" := "Libre", "transversal" := "Transversale"]

  function TeachingUnitCategoryName(category: string): (r: string)
    ensures r == Label(CategoryLabels, category, Unknown)
  {
    if category == "required" then "Obligatoire"
    else if category == "optional" then "Optionnelle"
    else if category == "free" then "Libre"
    else if category == "transversal" then "Transversale"
    else "Inconnu"
  }

  /** The four schema categories get four different labels, none of them the fallback. */
  lemma CategoryLabelsDistinct()
    ensures forall c, d :: c in CategoryLabels && d in CategoryLabels && c != d ==>
              TeachingUnitCategoryName(c) != TeachingUnitCategoryName(d)
    ensures forall c :: c in CategoryLabels ==> TeachingUnitCategoryName(c) != Unknown
  {
  }

  /** `getTeachingUnitsAsOptions`: the id as value and `name (code)` as label. */
  function TeachingUnitsAsOptions(units: Option<seq<TeachingUnit>>): (r: Option<seq<SelectOption<int>>>)
    ensures r.None? <==> units.None?
    ensures units.Some? ==> |r.value| == |units.value|
    ensures units.Some? ==> forall i :: 0 <= i < |units.value| ==>
              r.value[i] == SelectOption(units.value[i].id, Parenthesized(units.value[i].name, units.value[i].code))
  {
    match units
    case None => None
    case Some(us) => Some(Map(us, (u: TeachingUnit) => SelectOption(u.id, Parenthesized(u.name, u.code))))
  }
}
