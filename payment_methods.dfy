/** The accepted payment methods and the option lists built from them
  * (src/lib/data/paymentMethods.ts). */
module PaymentMethods {
  import opened Wrappers
  import opened Seqs
  import opened Labels

  /** A payment method. Its descriptive text is left out. */
  datatype PaymentMethod = PaymentMethod(name: string)

  const AvailablePaymentMethods: seq<PaymentMethod> := [
    PaymentMethod("Espèce"), PaymentMethod("Mobile Money"), PaymentMethod("Virement bancaire"),
    PaymentMethod("Carte bancaire"), PaymentMethod("Chèque")]

  function MethodName(m: PaymentMethod): string { m.name }

  function MethodNames(): seq<string> { Map(AvailablePaymentMethods, MethodName) }

  /** Five methods, no two with the same name. */
  lemma PaymentMethodsTable()
    ensures MethodNames() == ["Espèce", "Mobile Money", "Virement bancaire", "Carte bancaire", "Chèque"]
    ensures forall i, j :: 0 <= i < j < |AvailablePaymentMethods| ==>
              AvailablePaymentMethods[i].name != AvailablePaymentMethods[j].name
  {
  }

  /** `getPaymentMethodsAsOptions`: the names as values and labels, in order. */
  function PaymentMethodsAsOptions(): (r: seq<SelectOption<string>>)
    ensures |r| == |AvailablePaymentMethods|
    ensures forall i :: 0 <= i < |r| ==>
              r[i].value == AvailablePaymentMethods[i].name && r[i].text == AvailablePaymentMethods[i].name
  {
    NameOptions(MethodNames())
  }

  /** `getPaymentMethodsAsOptionsWithDisabled`: disabled when a current
    * method has the name, `undefined` without a list. */
  function PaymentMethodsAsOptionsWithDisabled(currentMethods: Option<seq<string>>): (r: seq<ToggleOption<string>>)
    ensures |r| == |AvailablePaymentMethods|
    ensures forall i :: 0 <= i < |r| ==>
              r[i].value == AvailablePaymentMethods[i].name && r[i].text == AvailablePaymentMethods[i].name
    ensures forall i :: 0 <= i < |r| ==> (r[i].disabled.None? <==> currentMethods.None?)
    ensures forall i :: 0 <= i < |r| && currentMethods.Some? ==>
              (r[i].disabled == Some(true) <==> AvailablePaymentMethods[i].name in currentMethods.value)
  {
    NameOptionsWithDisabled(MethodNames(), currentMethods)
  }

  /** `getPaymentMethod`: the method with that name, if any. */
  function GetPaymentMethod(name: string): (r: Option<PaymentMethod>)
    ensures r.Some? <==> name in MethodNames()
    ensures r.Some? ==> r.value == PaymentMethod(name)
  {
    Find(AvailablePaymentMethods, (m: PaymentMethod) => m.name == name)
  }

  /** A method is found exactly for the five names. */
  lemma GetPaymentMethodDefined(name: string)
    ensures GetPaymentMethod(name).Some? <==>
              name in {"Espèce", "Mobile Money", "Virement bancaire", "Carte bancaire", "Chèque"}
  {
    PaymentMethodsTable();
  }
}
