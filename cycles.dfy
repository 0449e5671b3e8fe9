/** The three LMD cycles and the option lists built from them
  * (src/lib/data/cycles.ts). */
module Cycles {
  import opened Wrappers
  import opened Seqs
  import opened Labels

  /** A cycle. Its descriptive purpose text is left out. */
  datatype CycleLMD = CycleLMD(
    name: string, symbol: string, plannedCredits: int, plannedYears: int, plannedSemester: int, orderNumber: int)

  const CyclesLMD: seq<CycleLMD> := [
    CycleLMD("Licence", "L", 180, 3, 6, 1),
    CycleLMD("Master", "M", 120, 2, 4, 2),
    CycleLMD("Doctorat", "D", 180, 3, 6, 3)]

  function CycleName(c: CycleLMD): string { c.name }

  function CycleNames(): seq<string> { Map(CyclesLMD, CycleName) }

  /** Licence, Master and Doctorat, numbered 1 to 3 and worth 180, 120 and
    * 180 credits, each planned over twice as many semesters as years. */
  lemma CyclesTable()
    ensures CycleNames() == ["Licence", "Master", "Doctorat"]
    ensures Map(CyclesLMD, (c: CycleLMD) => c.symbol) == ["L", "M", "D"]
    ensures forall i :: 0 <= i < |CyclesLMD| ==> CyclesLMD[i].orderNumber == i + 1
    ensures Map(CyclesLMD, (c: CycleLMD) => c.plannedCredits) == [180, 120, 180]
    ensures forall i :: 0 <= i < |CyclesLMD| ==> CyclesLMD[i].plannedSemester == 2 * CyclesLMD[i].plannedYears
  {
  }

  /** `getCyclesLMDAsOptions`: the names as values and labels, in order. */
  function CyclesLMDAsOptions(): (r: seq<SelectOption<string>>)
    ensures |r| == |CyclesLMD|
    ensures forall i :: 0 <= i < |r| ==> r[i].value == CyclesLMD[i].name && r[i].text == CyclesLMD[i].name
  {
    NameOptions(CycleNames())
  }

  /** `getCyclesLMDAsOptionsWithDisabled`: disabled when a current cycle
    * has the name, `undefined` without a list. */
  function CyclesLMDAsOptionsWithDisabled(currentCycles: Option<seq<string>>): (r: seq<ToggleOption<string>>)
    ensures |r| == |CyclesLMD|
    ensures forall i :: 0 <= i < |r| ==> r[i].value == CyclesLMD[i].name && r[i].text == CyclesLMD[i].name
    ensures forall i :: 0 <= i < |r| ==> (r[i].disabled.None? <==> currentCycles.None?)
    ensures forall i :: 0 <= i < |r| && currentCycles.Some? ==>
              (r[i].disabled == Some(true) <==> CyclesLMD[i].name in currentCycles.value)
  {
    NameOptionsWithDisabled(CycleNames(), currentCycles)
  }

  /** `getCycleLMD`: the entry with that name, if any. */
  function GetCycleLMD(name: string): (r: Option<CycleLMD>)
    ensures r.Some? <==> name in CycleNames()
    ensures r.Some? ==> r.value in CyclesLMD && r.value.name == name
  {
    Find(CyclesLMD, (c: CycleLMD) => c.name == name)
  }

  /** Each of the three names the parameter type allows finds its entry. */
  lemma GetCycleOfEachName()
    ensures GetCycleLMD("Licence") == Some(CyclesLMD[0])
    ensures GetCycleLMD("Master") == Some(CyclesLMD[1])
    ensures GetCycleLMD("Doctorat") == Some(CyclesLMD[2])
  {
    CyclesTable();
  }
}
