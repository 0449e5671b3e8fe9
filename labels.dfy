/** Closed code-to-label tables with a fallback, and the option records the
  * source hands to its select widgets. A labeler in the source is a
  * `switch` over a string with a `default` branch; here each one is proved
  * equal, for every input string, to a lookup in its table. */
module Labels {
  import opened Wrappers
  import Seqs

  type Table = map<string, string>

  /** The fallback label of most labelers. */
  const Unknown := "Inconnu"

  /** The table's label for `code`, or nothing (JavaScript's `undefined`). */
  function Lookup(table: Table, code: string): (r: Option<string>)
    ensures r.Some? <==> code in table
    ensures r.Some? ==> r.value == table[code]
  {
    if code in table then Some(table[code]) else None
  }

  /** The table's label for `code`, or `fallback` for any other string. */
  function Label(table: Table, code: string, fallback: string): (r: string)
    ensures code in table ==> r == table[code]
    ensures code !in table ==> r == fallback
  {
    Lookup(table, code).GetOr(fallback)
  }

  /** `{ value, label }`. */
  datatype SelectOption<V> = SelectOption(value: V, text: string)

  /** `{ value, label, disabled }` with a boolean `disabled`. */
  datatype FlaggedOption<V> = FlaggedOption(value: V, text: string, disabled: bool)

  /** `{ value, label, disabled }` where `disabled` may be `undefined`
    * (absent, or the result of `some` on an undefined list). */
  datatype ToggleOption<V> = ToggleOption(value: V, text: string, disabled: Option<bool>)

  /** The values of an option list. */
  function Values<V>(options: seq<SelectOption<V>>): (r: seq<V>)
    ensures |r| == |options|
    ensures forall i :: 0 <= i < |r| ==> r[i] == options[i].value
  {
    seq(|options|, i requires 0 <= i < |options| => options[i].value)
  }

  /** Every option carries the label the table gives its value. */
  predicate AgreesWith(options: seq<SelectOption<string>>, table: Table)
  {
    forall i :: 0 <= i < |options| ==> options[i].value in table && options[i].text == table[options[i].value]
  }

  /** Each code of the table appears as exactly one option. */
  predicate CoversOnce(options: seq<SelectOption<string>>, table: Table)
  {
    (forall code :: code in table ==> exists i :: 0 <= i < |options| && options[i].value == code) &&
    (forall i, j :: 0 <= i < j < |options| ==> options[i].value != options[j].value)
  }

  /** `(current) => current.name === name`. */
  function IsNamed(name: string): string -> bool
  {
    (current: string) => current == name
  }

  /** `table.map((x) => ({ value: x.name, label: x.name }))`. */
  function NameOptions(names: seq<string>): (r: seq<SelectOption<string>>)
    ensures |r| == |names|
    ensures forall i :: 0 <= i < |r| ==> r[i].value == names[i] && r[i].text == names[i]
  {
    seq(|names|, i requires 0 <= i < |names| => SelectOption(names[i], names[i]))
  }

  /** Whether an entry is already in use: `current?.some(...)` over the
    * names of the current entries, so `undefined` without a list. */
  function InUse(name: string, current: Option<seq<string>>): (r: Option<bool>)
    ensures r.None? <==> current.None?
    ensures r.Some? ==> (r.value <==> name in current.value)
  {
    match current
    case None => None
    case Some(names) => Some(Seqs.Any(names, IsNamed(name)))
  }

  /** The same options, each disabled when its name is already in use. */
  function NameOptionsWithDisabled(names: seq<string>, current: Option<seq<string>>): (r: seq<ToggleOption<string>>)
    ensures |r| == |names|
    ensures forall i :: 0 <= i < |r| ==> r[i].value == names[i] && r[i].text == names[i]
    ensures forall i :: 0 <= i < |r| ==> r[i].disabled == InUse(names[i], current)
  {
    seq(|names|, i requires 0 <= i < |names| => ToggleOption(names[i], names[i], InUse(names[i], current)))
  }

  /** The label `${head} (${tail})`. */
  function Parenthesized(head: string, tail: string): (r: string)
    ensures |r| == |head| + |tail| + 3
    ensures r[..|head|] == head && r[|head| + 2..|r| - 1] == tail
  {
    head + " (" + tail + ")"
  }

  /** The index of the first space of `s`, or its length. */
  function FirstSpace(s: string): (r: nat)
    ensures r <= |s|
    ensures forall i :: 0 <= i < r ==> s[i] != ' '
    ensures r < |s| ==> s[r] == ' '
  {
    if s == [] || s[0] == ' ' then 0 else 1 + FirstSpace(s[1..])
  }

  /** The first space after a spaceless head is the one that follows it. */
  lemma {:induction false} FirstSpaceAfter(head: string, rest: string)
    requires forall i :: 0 <= i < |head| ==> head[i] != ' '
    requires rest != [] && rest[0] == ' '
    ensures FirstSpace(head + rest) == |head|
  {
    if head != [] {
      assert (head + rest)[1..] == head[1..] + rest;
      FirstSpaceAfter(head[1..], rest);
    }
  }

  /** A head without a space ends at the label's first space, so such a
    * label gives back both its parts. */
  lemma ParenthesizedInjective(h1: string, t1: string, h2: string, t2: string)
    requires forall i :: 0 <= i < |h1| ==> h1[i] != ' '
    requires forall i :: 0 <= i < |h2| ==> h2[i] != ' '
    requires Parenthesized(h1, t1) == Parenthesized(h2, t2)
    ensures h1 == h2 && t1 == t2
  {
    var l := Parenthesized(h1, t1);
    FirstSpaceAfter(h1, " (" + t1 + ")");
    FirstSpaceAfter(h2, " (" + t2 + ")");
    assert h1 + (" (" + t1 + ")") == l && h2 + (" (" + t2 + ")") == l;
    assert h1 == l[..|h1|] && h2 == l[..|h2|];
  }
}
