/** The accepted currencies and the option lists built from them
  * (src/lib/data/currencies.ts). */
module Currencies {
  import opened Wrappers
  import opened Seqs
  import opened Labels

  datatype Currency = Currency(name: string, isoCode: string, symbol: string)

  const AvailableCurrencies: seq<Currency> := [
    Currency("Dollar américain", "USD", "$"),
    Currency("Franc congolais", "CDF", "Fr")]

  function CurrencyName(c: Currency): string { c.name }

  function CurrencyNames(): seq<string> { Map(AvailableCurrencies, CurrencyName) }

  /** `getCurrenciesAsOptions`: the names as values and labels, in order. */
  function CurrenciesAsOptions(): (r: seq<SelectOption<string>>)
    ensures |r| == |AvailableCurrencies|
    ensures forall i :: 0 <= i < |r| ==>
              r[i].value == AvailableCurrencies[i].name && r[i].text == AvailableCurrencies[i].name
  {
    NameOptions(CurrencyNames())
  }

  /** `getCurrenciesAsOptionsWithDisabled`: disabled when a current
    * currency has the name, `undefined` without a list. */
  function CurrenciesAsOptionsWithDisabled(currentCurrencies: Option<seq<string>>): (r: seq<ToggleOption<string>>)
    ensures |r| == |AvailableCurrencies|
    ensures forall i :: 0 <= i < |r| ==>
              r[i].value == AvailableCurrencies[i].name && r[i].text == AvailableCurrencies[i].name
    ensures forall i :: 0 <= i < |r| ==> (r[i].disabled.None? <==> currentCurrencies.None?)
    ensures forall i :: 0 <= i < |r| && currentCurrencies.Some? ==>
              (r[i].disabled == Some(true) <==> AvailableCurrencies[i].name in currentCurrencies.value)
  {
    NameOptionsWithDisabled(CurrencyNames(), currentCurrencies)
  }

  /** `getCurrency`: the currency with that name, if any. */
  function GetCurrency(name: string): (r: Option<Currency>)
    ensures r.Some? <==> name in CurrencyNames()
    ensures r.Some? ==> r.value in AvailableCurrencies && r.value.name == name
  {
    Find(AvailableCurrencies, (c: Currency) => c.name == name)
  }

  /** The lookup goes by name, not by ISO code. */
  lemma GetCurrencyByName()
    ensures GetCurrency("Dollar américain") == Some(Currency("Dollar américain", "USD", "$"))
    ensures GetCurrency("Franc congolais") == Some(Currency("Franc congolais", "CDF", "Fr"))
    ensures GetCurrency("USD").None? && GetCurrency("CDF").None?
  {
    assert CurrencyNames() == ["Dollar américain", "Franc congolais"];
  }
}
