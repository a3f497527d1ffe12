/**
 The vocabulary both nutrition panels share: the product record as the
 product lookup returns it, the two choices of the unit selector, and the
 cells and rows of a nutrient grid.

 Numbers are `real`. The text a panel writes for a number comes from a
 formatter passed in as a parameter (`toFixed(2)` in one panel, JavaScript's
 default number-to-string in the other), so nothing here depends on how a
 formatter rounds or spells a number.
 */
module Nutrients {

  datatype Option<+T> = None | Some(value: T)

  /** The two bases a nutrient value can be expressed on. */
  datatype Unit = Per100g | PerServing

  /** The selector's value for a unit: `"100g"` or `"serving"`. */
  function UnitName(u: Unit): string {
    match u
    case Per100g => "100g"
    case PerServing => "serving"
  }

  /** Reads a selector value back as a unit; any other string names no unit. */
  function UnitFromName(s: string): (r: Option<Unit>)
    ensures r.Some? ==> UnitName(r.value) == s
    ensures forall u: Unit :: UnitName(u) == s ==> r == Some(u)
  {
    if s == "100g" then Some(Per100g)
    else if s == "serving" then Some(PerServing)
    else None
  }

  /**
   A product record. A string field the record lacks is the empty string:
   each such field is tested for JavaScript truthiness (image URL, serving
   size), compared with `"serving"` (the data basis) or rendered (the name),
   and in each of these uses `undefined` and `""` behave alike.
   */
  datatype Product = Product(
    name: string,
    imageUrl: string,
    nutriments: map<string, real>,
    servingSize: string,
    nutritionDataPer: string)

  /** `nutriments[key]`: the stored number, or `None` for `undefined`. */
  function Get(m: map<string, real>, key: string): Option<real> {
    if key in m then Some(m[key]) else None
  }

  /** JavaScript truthiness of a number that may be `undefined`: `undefined` and `0` are falsy. */
  predicate Truthy(v: Option<real>) {
    v.Some? && v.value != 0.0
  }

  /** JavaScript `a || b` on numbers that may be `undefined`. */
  function JsOr(a: Option<real>, b: Option<real>): (r: Option<real>)
    ensures Truthy(r) <==> Truthy(a) || Truthy(b)
    ensures Truthy(a) ==> r == a
    ensures !Truthy(a) ==> r == b
  {
    if Truthy(a) then a else b
  }

  /** What a panel shows for one nutrient: `N/A`, or a number followed by a unit text. */
  datatype Cell = NA | Shown(value: real, unitText: string)

  /** The cell as text: `N/A`, or the formatted number, a space and the unit text. */
  function CellText(c: Cell, fmt: real -> string): string {
    match c
    case NA => "N/A"
    case Shown(v, t) => fmt(v) + " " + t
  }

  /**
   Whatever the formatter writes, a shown cell never reads exactly `N/A`,
   provided its unit text does not itself end in `A`: the text of a shown
   cell ends in the unit text's last character, or in the separating space.
   */
  lemma {:induction false} CellTextIsNAOnlyForNA(c: Cell, fmt: real -> string)
    requires c.Shown? && c.unitText != [] ==> c.unitText[|c.unitText| - 1] != 'A'
    ensures CellText(c, fmt) == "N/A" <==> c == NA
  {
    if c.Shown? {
      var s := CellText(c, fmt);
      var t := c.unitText;
      if t == [] {
        assert s[|s| - 1] == ' ';
      } else {
        assert s[|s| - 1] == t[|t| - 1];
      }
      assert "N/A"[2] == 'A';
    }
  }

  /** A cell's text with ` kcal` written after it, as the energy row of both panels does. */
  lemma KcalText(c: Cell, fmt: real -> string)
    ensures c == NA ==> CellText(c, fmt) + " kcal" == "N/A kcal"
    ensures c.Shown? ==> CellText(c, fmt) + " kcal" == fmt(c.value) + (" " + c.unitText + " kcal")
  {
  }

  /** The nutrients the panels know of. */
  datatype Nutrient =
    | EnergyKcal | Proteins | Carbohydrates | Fat | Fiber | Sugars | SaturatedFat | Salt

  /** The nutrient's key in the record's `nutriments`. */
  function Key(n: Nutrient): string {
    match n
    case EnergyKcal => "energy-kcal"
    case Proteins => "proteins"
    case Carbohydrates => "carbohydrates"
    case Fat => "fat"
    case Fiber => "fiber"
    case Sugars => "sugars"
    case SaturatedFat => "saturated-fat"
    case Salt => "salt"
  }

  /** No nutrient's bare key ends in `_serving`, so a per-serving key is never mistaken for a bare one. */
  lemma {:induction false} KeyIsNotServingKey(n: Nutrient)
    ensures !EndsWith(Key(n), "_serving")
  {
    var k := Key(n);
    if |k| >= 8 {
      assert k[|k| - 1] != 'g';
    }
  }

  /** A filled place in a grid: the nutrient and what is shown for it. */
  datatype Row = Row(nutrient: Nutrient, cell: Cell)

  /** The text written after a row's value: ` kcal` after energy, nothing after the rest. */
  function Trailer(n: Nutrient): string {
    if n == EnergyKcal then " kcal" else ""
  }

  /** The row's value text: the cell's text followed by the trailer. */
  function RowText(r: Row, fmt: real -> string): string {
    CellText(r.cell, fmt) + Trailer(r.nutrient)
  }

  /** `suffix` is a final segment of `s`. */
  predicate EndsWith(s: string, suffix: string) {
    |suffix| <= |s| && s[|s| - |suffix|..] == suffix
  }
}
