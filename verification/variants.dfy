/**
 How the two panels relate: the card on the scan page reads the same
 record as the panel on the home page but by a different rule, so the two
 can show different values for the same nutrient and unit.
 */
module Variants {
  import opened Nutrients
  import ProductDisplay
  import ProductInfo

  /**
   The panel starts per serving and switches to the record's basis on load;
   the card starts per 100g and keeps that unit, whatever record it shows,
   until the user picks another.
   */
  lemma StartingUnits(p: Product)
    ensures ProductDisplay.UnitAfter([]) == PerServing
    ensures ProductDisplay.UnitAfter([ProductDisplay.Fetching, ProductDisplay.Loaded(p)]) == PerServing
        <==> p.nutritionDataPer == "serving"
    ensures ProductInfo.DefaultUnit == Per100g
  {
  }

  /** Per serving, the card's first key is exactly the key the panel reads. */
  lemma ServingKeysCoincide(n: string)
    ensures ProductInfo.SuffixedKey(PerServing, n) == ProductDisplay.ProbedKey(PerServing, n)
  {
    assert n + "_" + "serving" == n + ("_" + "serving");
  }

  /**
   Per serving, the card shows what the panel shows per serving; where the
   panel shows `N/A`, the card shows what the panel shows per 100g; only
   when both are `N/A` does the card show `N/A`.
   */
  lemma ServingCardFallsBackToPer100gPanel(p: Product, n: string)
    ensures var d := ProductDisplay.NutrientValue(p, PerServing, n);
            var h := ProductDisplay.NutrientValue(p, Per100g, n);
            var c := ProductInfo.NutrientValue(p, PerServing, n);
      && (d.Shown? ==> c == Shown(d.value, "serving"))
      && (d == NA && h.Shown? ==> c == Shown(h.value, "serving"))
      && (d == NA && h == NA ==> c == NA)
  {
    ServingKeysCoincide(n);
  }

  /**
   Per 100g, the card and the panel agree on whether a value shows and on
   the value itself unless the record holds a non-zero `n_100g`, which the
   card prefers and the panel never reads.
   */
  lemma Per100gCardAgreesUnlessSuffixed(p: Product, n: string)
    ensures var d := ProductDisplay.NutrientValue(p, Per100g, n);
            var c := ProductInfo.NutrientValue(p, Per100g, n);
      && (!Truthy(Get(p.nutriments, n + "_100g")) ==> (c == NA <==> d == NA))
      && (!Truthy(Get(p.nutriments, n + "_100g")) && d.Shown? ==> c == Shown(d.value, "100g"))
      && (Truthy(Get(p.nutriments, n + "_100g")) ==> c == Shown(p.nutriments[n + "_100g"], "100g"))
  {
    assert ProductInfo.SuffixedKey(Per100g, n) == n + "_100g" by {
      assert n + "_" + "100g" == n + ("_" + "100g");
    }
  }

  /**
   The card's six rows name the panel's first six nutrients in the same
   order; the panel's last two rows, saturated fat and salt, are the ones
   the card leaves out.
   */
  lemma CardGridIsPrefixOfPanelGrid(p: Product, u: Unit, v: Unit)
    ensures |ProductInfo.Table(p, u)| + 2 == |ProductDisplay.Table(p, v)|
    ensures forall i :: 0 <= i < |ProductInfo.Table(p, u)| ==>
      ProductInfo.Table(p, u)[i].nutrient == ProductDisplay.Table(p, v)[i].nutrient
    ensures forall i :: 0 <= i < |ProductInfo.Table(p, u)| ==>
      ProductInfo.Table(p, u)[i].nutrient != ProductDisplay.Table(p, v)[6].nutrient &&
      ProductInfo.Table(p, u)[i].nutrient != ProductDisplay.Table(p, v)[7].nutrient
  {
    var c, d := ProductInfo.Table(p, u), ProductDisplay.Table(p, v);
    forall i | 0 <= i < |c|
      ensures c[i].nutrient == d[i].nutrient
    {
      assert i == 0 || i == 1 || i == 2 || i == 3 || i == 4 || i == 5;
    }
  }
}
