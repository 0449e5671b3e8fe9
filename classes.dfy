/** The nine study years of the LMD system (Licence, Master, Doctorat) and
  * the option lists built from them (src/lib/data/classes.ts). */
module Classes {
  import opened Wrappers
  import opened Seqs
  import opened Labels

  /** The type `"Licence" | "Master" | "Doctorat"`. */
  datatype CycleName = Licence | Master | Doctorat

  /** A study year. The descriptive text of each entry is left out. */
  datatype ClassLMD = ClassLMD(name: string, acronym: string, orderNumber: int, cycleName: CycleName)

  const LicenceClassesLMD: seq<ClassLMD> := [
    ClassLMD("Année préparatoire", "L0", 0, Licence),
    ClassLMD("Licence 1", "L1", 1, Licence),
    ClassLMD("Licence 2", "L2", 2, Licence),
    ClassLMD("Licence 3", "L3", 3, Licence)]

  const MasterClassesLMD: seq<ClassLMD> := [
    ClassLMD("Master 1", "M1", 1, Master),
    ClassLMD("Master 2", "M2", 2, Master)]

  const DoctoratClassesLMD: seq<ClassLMD> := [
    ClassLMD("Doctorat 1", "D1", 1, Doctorat),
    ClassLMD("Doctorat 2", "D2", 2, Doctorat),
    ClassLMD("Doctorat 3", "D3", 3, Doctorat)]

  /** `classesLMD`, the nine entries in the source's order. */
  const ClassesLMD: seq<ClassLMD> := LicenceClassesLMD + MasterClassesLMD + DoctoratClassesLMD

  function ClassName(c: ClassLMD): string { c.name }

  /** The names, in table order. */
  function ClassNames(): seq<string> { Map(ClassesLMD, ClassName) }

  /** Each entry in order: its acronym, order number and cycle. */
  lemma ClassesTable()
    ensures |ClassesLMD| == 9
    ensures Map(ClassesLMD, (c: ClassLMD) => c.acronym) == ["L0", "L1", "L2", "L3", "M1", "M2", "D1", "D2", "D3"]
    ensures Map(ClassesLMD, (c: ClassLMD) => c.orderNumber) == [0, 1, 2, 3, 1, 2, 1, 2, 3]
    ensures forall i :: 0 <= i < 4 ==> ClassesLMD[i].cycleName == Licence
    ensures forall i :: 4 <= i < 6 ==> ClassesLMD[i].cycleName == Master
    ensures forall i :: 6 <= i < 9 ==> ClassesLMD[i].cycleName == Doctorat
  {
  }

  /** No two entries share a name. */
  lemma ClassNamesDistinct()
    ensures forall i, j :: 0 <= i < j < |ClassesLMD| ==> ClassesLMD[i].name != ClassesLMD[j].name
  {
  }

  /** `getClassesAsOptions`: one option per entry, its name as value and label. */
  function ClassesAsOptions(): (r: seq<SelectOption<string>>)
    ensures |r| == |ClassesLMD|
    ensures forall i :: 0 <= i < |r| ==> r[i].value == ClassesLMD[i].name && r[i].text == ClassesLMD[i].name
  {
    NameOptions(ClassNames())
  }

  /** `getClassesAsOptionsWithDisabled`: the same options, disabled when a
    * current class has the name (`undefined` without a list). */
  function ClassesAsOptionsWithDisabled(currentClasses: Option<seq<string>>): (r: seq<ToggleOption<string>>)
    ensures |r| == |ClassesLMD|
    ensures forall i :: 0 <= i < |r| ==> r[i].value == ClassesLMD[i].name && r[i].text == ClassesLMD[i].name
    ensures forall i :: 0 <= i < |r| ==> (r[i].disabled.None? <==> currentClasses.None?)
    ensures forall i :: 0 <= i < |r| && currentClasses.Some? ==>
              (r[i].disabled == Some(true) <==> ClassesLMD[i].name in currentClasses.value)
  {
    NameOptionsWithDisabled(ClassNames(), currentClasses)
  }

  /** The filter of `getClassesByCycleAsOptionsWithDisabled`: an entry of
    * the requested cycle whose order number lies in that cycle's range. */
  function InCycle(cycle: CycleName): ClassLMD -> bool
  {
    (c: ClassLMD) =>
      (cycle == Licence && c.cycleName == Licence && 0 <= c.orderNumber <= 3) ||
      (cycle == Master && c.cycleName == Master && 1 <= c.orderNumber <= 2) ||
      (cycle == Doctorat && c.cycleName == Doctorat && 1 <= c.orderNumber <= 3)
  }

  /** The entries of one cycle, in table order, as options disabled when a
    * current class has the name. */
  function ClassesByCycleAsOptionsWithDisabled(cycle: CycleName, currentClasses: Option<seq<string>>)
    : (r: seq<ToggleOption<string>>)
    ensures |r| <= |ClassesLMD|
    ensures forall i :: 0 <= i < |r| ==> r[i].value == r[i].text
    ensures forall i :: 0 <= i < |r| ==> r[i].disabled == InUse(r[i].value, currentClasses)
  {
    NameOptionsWithDisabled(Map(Filter(ClassesLMD, InCycle(cycle)), ClassName), currentClasses)
  }

  /** The values of a list of options. */
  function OptionNames(options: seq<ToggleOption<string>>): seq<string>
  {
    seq(|options|, i requires 0 <= i < |options| => options[i].value)
  }

  /** The options of a cycle are named after its entries, in table order. */
  lemma OptionNamesOfCycle(cycle: CycleName, current: Option<seq<string>>)
    ensures OptionNames(ClassesByCycleAsOptionsWithDisabled(cycle, current))
            == Map(Filter(ClassesLMD, InCycle(cycle)), ClassName)
  {
  }

  /** Filtering the table filters each cycle's block. */
  lemma CycleBlocks(cycle: CycleName)
    ensures Filter(ClassesLMD, InCycle(cycle))
            == Filter(LicenceClassesLMD, InCycle(cycle)) + Filter(MasterClassesLMD, InCycle(cycle))
               + Filter(DoctoratClassesLMD, InCycle(cycle))
  {
    FilterConcat(LicenceClassesLMD + MasterClassesLMD, DoctoratClassesLMD, InCycle(cycle));
    FilterConcat(LicenceClassesLMD, MasterClassesLMD, InCycle(cycle));
  }

  /** Selecting Licence keeps exactly the Licence block, in order. */
  lemma LicenceKeepsBlock()
    ensures Filter(ClassesLMD, InCycle(Licence)) == LicenceClassesLMD
  {
    var p := InCycle(Licence);
    CycleBlocks(Licence);
    FilterAll(LicenceClassesLMD, p);
    FilterNone(MasterClassesLMD, p);
    FilterNone(DoctoratClassesLMD, p);
    assert LicenceClassesLMD + [] + [] == LicenceClassesLMD;
  }

  /** Selecting Master keeps exactly the Master block, in order. */
  lemma MasterKeepsBlock()
    ensures Filter(ClassesLMD, InCycle(Master)) == MasterClassesLMD
  {
    var p := InCycle(Master);
    CycleBlocks(Master);
    FilterNone(LicenceClassesLMD, p);
    FilterAll(MasterClassesLMD, p);
    FilterNone(DoctoratClassesLMD, p);
    assert [] + MasterClassesLMD + [] == MasterClassesLMD;
  }

  /** Selecting Doctorat keeps exactly the Doctorat block, in order. */
  lemma DoctoratKeepsBlock()
    ensures Filter(ClassesLMD, InCycle(Doctorat)) == DoctoratClassesLMD
  {
    var p := InCycle(Doctorat);
    CycleBlocks(Doctorat);
    FilterNone(LicenceClassesLMD, p);
    FilterNone(MasterClassesLMD, p);
    FilterAll(DoctoratClassesLMD, p);
    assert [] + [] + DoctoratClassesLMD == DoctoratClassesLMD;
  }

  /** Licence lists its four years from the preparatory year, Master its
    * two and Doctorat its three. */
  lemma ClassesByCycle(current: Option<seq<string>>)
    ensures OptionNames(ClassesByCycleAsOptionsWithDisabled(Licence, current))
            == ["Année préparatoire", "Licence 1", "Licence 2", "Licence 3"]
    ensures OptionNames(ClassesByCycleAsOptionsWithDisabled(Master, current)) == ["Master 1", "Master 2"]
    ensures OptionNames(ClassesByCycleAsOptionsWithDisabled(Doctorat, current))
            == ["Doctorat 1", "Doctorat 2", "Doctorat 3"]
  {
    LicenceKeepsBlock();
    MasterKeepsBlock();
    DoctoratKeepsBlock();
    OptionNamesOfCycle(Licence, current);
    OptionNamesOfCycle(Master, current);
    OptionNamesOfCycle(Doctorat, current);
  }

  /** `getClass`: the entry with that name, if there is one. */
  function GetClass(name: string): (r: Option<ClassLMD>)
    ensures r.Some? <==> name in ClassNames()
    ensures r.Some? ==> r.value in ClassesLMD && r.value.name == name
  {
    Find(ClassesLMD, (c: ClassLMD) => c.name == name)
  }

  /** Every option's value finds its own entry. */
  lemma GetClassOfOption(i: int)
    requires 0 <= i < |ClassesAsOptions()|
    ensures GetClass(ClassesAsOptions()[i].value) == Some(ClassesLMD[i])
  {
    ClassNamesDistinct();
  }
}
