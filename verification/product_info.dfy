/**
 The product card of the scan page (`components/ProductInfo.tsx`): it starts
 per 100g, reads the unit-suffixed key and falls back to the bare key, and
 shows a six-row grid whose values carry the unit's own name.
 */
module ProductInfo {
  import opened Nutrients

  /** The unit the card starts with. */
  const DefaultUnit: Unit := Per100g

  /** The key tried first for nutrient `n`: `n`, an underscore, and the unit's selector value. */
  function SuffixedKey(u: Unit, n: string): string {
    n + "_" + UnitName(u)
  }

  /**
   `getNutrientValue`: the suffixed key's value when truthy, else the bare
   key's; `N/A` when neither is truthy; a value is followed by the unit's
   selector value (`100g` or `serving`).
   */
  function NutrientValue(p: Product, u: Unit, n: string): (c: Cell)
    ensures c == NA <==> !Truthy(Get(p.nutriments, SuffixedKey(u, n))) && !Truthy(Get(p.nutriments, n))
    ensures c.Shown? ==> c.unitText == UnitName(u)
    ensures Truthy(Get(p.nutriments, SuffixedKey(u, n))) ==> c.value == p.nutriments[SuffixedKey(u, n)]
    ensures !Truthy(Get(p.nutriments, SuffixedKey(u, n))) && c.Shown? ==> c.value == p.nutriments[n]
  {
    var v := JsOr(Get(p.nutriments, SuffixedKey(u, n)), Get(p.nutriments, n));
    if Truthy(v) then Shown(v.value, UnitName(u)) else NA
  }

  /** A non-zero value under the suffixed key wins over whatever the bare key holds. */
  lemma {:induction false} SuffixedKeyTakesPrecedence(p: Product, u: Unit, n: string, v: real, w: real)
    requires v != 0.0
    ensures NutrientValue(p.(nutriments := p.nutriments[n := w][SuffixedKey(u, n) := v]), u, n)
         == Shown(v, UnitName(u))
  {
  }

  /** With the suffixed key missing or zero, the card shows the bare key's value, in the selected unit's name. */
  lemma {:induction false} FallsBackToBareKey(p: Product, u: Unit, n: string, w: real)
    requires !Truthy(Get(p.nutriments, SuffixedKey(u, n)))
    requires w != 0.0
    ensures NutrientValue(p.(nutriments := p.nutriments[n := w]), u, n) == Shown(w, UnitName(u))
  {
    assert SuffixedKey(u, n) != n by {
      assert |SuffixedKey(u, n)| > |n|;
    }
  }

  /**
   The text of a cell, with JavaScript's number-to-string given as `show`:
   exactly `N/A` when neither key holds a truthy number, otherwise the
   unrounded number, a space and `100g` or `serving`.
   */
  lemma CellTextCases(p: Product, u: Unit, n: string, show: real -> string)
    ensures CellText(NutrientValue(p, u, n), show) == "N/A" <==>
      !Truthy(Get(p.nutriments, SuffixedKey(u, n))) && !Truthy(Get(p.nutriments, n))
    ensures NutrientValue(p, u, n).Shown? ==>
      CellText(NutrientValue(p, u, n), show) == show(NutrientValue(p, u, n).value) + " " + UnitName(u)
  {
    CellTextIsNAOnlyForNA(NutrientValue(p, u, n), show);
  }

  /** The row for nutrient `n`: the nutrient with its value read by the card's rule. */
  function RowOf(p: Product, u: Unit, n: Nutrient): Row {
    Row(n, NutrientValue(p, u, Key(n)))
  }

  /** The card's grid: always six rows in a fixed order; saturated fat and salt never appear. */
  function Table(p: Product, u: Unit): (rows: seq<Row>)
    ensures |rows| == 6
    ensures && rows[0].nutrient == EnergyKcal && rows[1].nutrient == Proteins
            && rows[2].nutrient == Carbohydrates && rows[3].nutrient == Fat
            && rows[4].nutrient == Fiber && rows[5].nutrient == Sugars
    ensures forall i :: 0 <= i < |rows| ==> rows[i].nutrient != SaturatedFat && rows[i].nutrient != Salt
    ensures forall i :: 0 <= i < |rows| ==> rows[i] == RowOf(p, u, rows[i].nutrient)
  {
    [ RowOf(p, u, EnergyKcal), RowOf(p, u, Proteins), RowOf(p, u, Carbohydrates),
      RowOf(p, u, Fat), RowOf(p, u, Fiber), RowOf(p, u, Sugars) ]
  }

  /** The energy row reads `N/A kcal` with no value, and `<v> 100g kcal` or `<v> serving kcal` with one. */
  lemma EnergyRowText(p: Product, u: Unit, show: real -> string)
    ensures NutrientValue(p, u, "energy-kcal") == NA ==> RowText(Table(p, u)[0], show) == "N/A kcal"
    ensures NutrientValue(p, u, "energy-kcal").Shown? && u == Per100g ==>
      RowText(Table(p, u)[0], show) == show(NutrientValue(p, u, "energy-kcal").value) + " 100g kcal"
    ensures NutrientValue(p, u, "energy-kcal").Shown? && u == PerServing ==>
      RowText(Table(p, u)[0], show) == show(NutrientValue(p, u, "energy-kcal").value) + " serving kcal"
  {
    assert Table(p, u)[0] == Row(EnergyKcal, NutrientValue(p, u, "energy-kcal"));
    EnergyCellText(NutrientValue(p, u, "energy-kcal"), show);
  }

  /** ` kcal` after a cell of this card: `N/A kcal`, `<v> 100g kcal` or `<v> serving kcal`. */
  lemma EnergyCellText(c: Cell, show: real -> string)
    ensures c == NA ==> CellText(c, show) + " kcal" == "N/A kcal"
    ensures c.Shown? && c.unitText == "100g" ==> CellText(c, show) + " kcal" == show(c.value) + " 100g kcal"
    ensures c.Shown? && c.unitText == "serving" ==>
      CellText(c, show) + " kcal" == show(c.value) + " serving kcal"
  {
    KcalText(c, show);
    assert " " + "100g" + " kcal" == " 100g kcal";
    assert " " + "serving" + " kcal" == " serving kcal";
  }
}
