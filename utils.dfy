/** Colour from a name, marital-status labels and the select filter
  * (src/lib/utils.ts). A JavaScript string is a sequence of UTF-16 code
  * units; `charCodeAt` reads one, so the hash works on code units. */
module Utils {
  import opened Wrappers
  import opened Seqs
  import opened Text
  import opened Labels

  /** One UTF-16 code unit, as `charCodeAt` returns it. */
  type CodeUnit = x: int | 0 <= x < 0x1_0000

  const TwoTo31: int := 0x8000_0000
  const TwoTo32: int := 0x1_0000_0000

  /** ECMAScript's ToInt32 on an integral number: wrap into [-2^31, 2^31). */
  function ToInt32(x: int): (r: int)
    ensures -TwoTo31 <= r < TwoTo31
    ensures (r - x) % TwoTo32 == 0
  {
    (x + TwoTo31) % TwoTo32 - TwoTo31
  }

  /** `Math.abs` on an integer. */
  function Abs(x: int): nat { if x < 0 then -x else x }

  /** One turn of the loop: `code + ((hash << 5) - hash)`, where `<<`
    * converts `hash` to a signed 32-bit integer and wraps the product
    * back into 32 bits; the subtraction and addition are exact. */
  function HashStep(hash: int, code: CodeUnit): int
  {
    code + (ToInt32(ToInt32(hash) * 32) - hash)
  }

  /** The value the loop leaves in `hash` after visiting every code unit
    * of `s`, left to right, from 0. */
  function HashFold(s: seq<CodeUnit>): int
  {
    if s == [] then 0 else HashStep(HashFold(s[..|s| - 1]), s[|s| - 1])
  }

  /** `getHashOfString`: fold the code units into `hash`, then take its
    * absolute value. */
  method GetHashOfString(str: seq<CodeUnit>) returns (hash: int)
    ensures hash == Abs(HashFold(str))
    ensures hash >= 0
  {
    hash := 0;
    var i := 0;
    while i < |str|
      invariant 0 <= i <= |str|
      invariant hash == HashFold(str[..i])
    {
      assert str[..i + 1][..i] == str[..i];
      hash := str[i] + (ToInt32(ToInt32(hash) * 32) - hash);
      i := i + 1;
    }
    assert str[..i] == str;
    hash := if hash < 0 then -hash else hash;
  }

  /** The hash as a function, for the pure code that uses it. */
  function Hash(s: seq<CodeUnit>): nat
  {
    Abs(HashFold(s))
  }

  /** The hash of the empty string is 0, and each step adds the code unit
    * to 31 times the previous hash while that stays within 32 bits. */
  lemma HashExamples()
    ensures Hash([]) == 0
    ensures Hash([97]) == 97
    ensures Hash([97, 98]) == 3105
  {
    assert [97, 98][..1] == [97];
  }

  /** Each step moves the hash by at most 2^31 + 2^16, so after n code
    * units it is at most n times that in size. */
  lemma {:induction false} HashFoldBound(s: seq<CodeUnit>)
    ensures Abs(HashFold(s)) <= |s| * (TwoTo31 + 0x1_0000)
  {
    if s != [] {
      HashFoldBound(s[..|s| - 1]);
    }
  }

  /** JavaScript numbers hold every integer below 2^53 exactly, so for
    * strings of up to 2^21 code units the exact fold above is what the
    * source computes. */
  lemma HashExactInDoubles(s: seq<CodeUnit>)
    requires |s| <= 0x20_0000
    ensures Abs(HashFold(s)) < 0x20_0000_0000_0000
  {
    HashFoldBound(s);
  }

  /** JavaScript's `%` on integers: the remainder takes the sign of the
    * dividend. */
  function JsRem(a: int, b: int): (r: int)
    requires b != 0
    ensures Abs(r) < Abs(b)
    ensures a >= 0 ==> 0 <= r
    ensures a <= 0 ==> r <= 0
    ensures 0 <= a < Abs(b) ==> r == a
    ensures (a - r) % Abs(b) == 0
  {
    var m := Abs(b);
    var n := if a >= 0 then a else -a;
    ModOfNatural(n, m);
    if a >= 0 then n % m else -(n % m)
  }

  /** Dafny's `%` by a positive divisor on a natural number, and what the
    * remainder of `n` and of `-n` leave out: a multiple of the divisor. */
  lemma ModOfNatural(n: int, m: int)
    requires n >= 0 && m > 0
    ensures 0 <= n % m < m
    ensures n < m ==> n % m == n
    ensures (n - n % m) % m == 0
    ensures (-n + n % m) % m == 0
  {
    var q := n / m;
    assert n == q * m + n % m;
    assert n - n % m == q * m;
    assert -n + n % m == (-q) * m;
    MultipleMod(q, m);
    MultipleMod(-q, m);
  }

  /** A multiple of `m` leaves no remainder. */
  lemma MultipleMod(k: int, m: int)
    requires m > 0
    ensures (k * m) % m == 0
  {
    var x := k * m;
    var d := k - x / m;
    assert x == m * (x / m) + x % m;
    assert x % m == m * d;
    assert d >= 1 ==> m * d >= m * 1;
    assert d <= -1 ==> m * d <= m * -1;
  }

  /** Negating the dividend negates the remainder, unlike Dafny's `%`. */
  lemma JsRemOdd(a: int, b: int)
    requires b != 0
    ensures JsRem(-a, b) == -JsRem(a, b)
  {
  }

  /** `Math.floor((hash % (max - min)) + min)`; `None` is the NaN that
    * `% 0` gives when `min == max`. */
  function NormalizeHash(hash: int, min: int, max: int): (r: Option<int>)
    ensures r.None? <==> min == max
    ensures hash >= 0 && min < max ==> r.Some? && min <= r.value < max
    ensures 0 <= hash < max - min ==> r == Some(hash + min)
    ensures hash >= 0 && min != max ==> r == Some(hash % Abs(max - min) + min)
  {
    if min == max then None else Some(JsRem(hash, max - min) + min)
  }

  /** `[h, s, l]`. */
  datatype HSL = HSL(h: int, s: int, l: int)

  /** Hue, saturation and lightness from the hash of `name`, each reduced
    * into its fixed range. */
  function GenerateHSL(name: seq<CodeUnit>): (r: HSL)
    ensures 0 <= r.h < 360 && 50 <= r.s < 75 && 25 <= r.l < 60
  {
    var hash := Hash(name);
    HSL(NormalizeHash(hash, 0, 360).value, NormalizeHash(hash, 50, 75).value, NormalizeHash(hash, 25, 60).value)
  }

  /** The three components share one hash: each is that hash reduced
    * modulo the width of its range and shifted to its start. */
  lemma GenerateHSLFromHash(name: seq<CodeUnit>)
    ensures GenerateHSL(name).h == Hash(name) % 360
    ensures GenerateHSL(name).s == 50 + Hash(name) % 25
    ensures GenerateHSL(name).l == 25 + Hash(name) % 35
  {
  }

  /** `hsl(h, s%, l%)` with the numbers in decimal. */
  function GetHSLColor(name: seq<CodeUnit>): (r: string)
    ensures |r| >= |"hsl(0, 00%, 00%)"|
    ensures r[..4] == "hsl(" && r[|r| - 2..] == "%)"
  {
    var c := GenerateHSL(name);
    "hsl(" + Decimal(c.h) + ", " + Decimal(c.s) + "%, " + Decimal(c.l) + "%)"
  }

  /** The colour string reads back as the three components. */
  lemma HSLColorReadsBack(name: seq<CodeUnit>)
    ensures exists h, s, l ::
              IsDigits(h) && IsDigits(s) && IsDigits(l) &&
              GetHSLColor(name) == "hsl(" + h + ", " + s + "%, " + l + "%)" &&
              DecimalValue(h) == GenerateHSL(name).h &&
              DecimalValue(s) == GenerateHSL(name).s &&
              DecimalValue(l) == GenerateHSL(name).l
  {
    var c := GenerateHSL(name);
    DecimalRoundTrip(c.h);
    DecimalRoundTrip(c.s);
    DecimalRoundTrip(c.l);
    assert GetHSLColor(name) == "hsl(" + Decimal(c.h) + ", " + Decimal(c.s) + "%, " + Decimal(c.l) + "%)";
  }

  /** The empty name gets hue 0 at the bottom of both other ranges. */
  lemma EmptyNameColor()
    ensures GetHSLColor([]) == "hsl(0, 50%, 25%)"
  {
    assert GenerateHSL([]) == HSL(0, 50, 25);
    assert Decimal(5) == "5" && Decimal(2) == "2";
    assert Decimal(50) == "50" && Decimal(25) == "25";
  }

  const MaritalStatusLabels: Table := map[
    "single" := "Célibataire", "married" := "Marié(e)", "divorced" := "Divorcé(e)", "widowed" := "Veuf(ve)"]

  function MaritalStatusName(value: string): (r: string)
    ensures r == Label(MaritalStatusLabels, value, Unknown)
  {
    if value == "single" then "Célibataire"
    else if value == "married" then "Marié(e)"
    else if value == "divorced" then "Divorcé(e)"
    else if value == "widowed" then "Veuf(ve)"
    else "Inconnu"
  }

  /** `(option?.label ?? "").toLowerCase().includes(input.toLowerCase())`. */
  function FilterOption(input: string, option: Option<SelectOption<int>>): (r: bool)
    ensures input == "" ==> r
    ensures option.Some? ==> (r <==> exists i: nat :: OccursAt(Lower(option.value.text), Lower(input), i))
  {
    var text := if option.Some? then option.value.text else "";
    assert OccursAt(Lower(text), Lower(input), 0) <== input == "";
    Contains(Lower(text), Lower(input))
  }

  /** Lowering keeps every occurrence in place. */
  lemma LowerKeepsOccurrence(hay: string, needle: string, i: nat)
    requires OccursAt(hay, needle, i)
    ensures OccursAt(Lower(hay), Lower(needle), i)
  {
    assert Lower(hay)[i..i + |needle|] == Lower(needle);
  }

  /** An option whose label contains the input verbatim passes the filter. */
  lemma FilterOptionKeepsSubstrings(input: string, value: int, text: string, i: nat)
    requires OccursAt(text, input, i)
    ensures FilterOption(input, Some(SelectOption(value, text)))
  {
    LowerKeepsOccurrence(text, input, i);
  }

  /** Without an option, only the empty input passes. */
  lemma FilterOptionWithoutOption(input: string)
    ensures FilterOption(input, None) <==> input == ""
  {
    if input != "" {
      assert Lower("") == "";
    }
  }
}
