/**
 The product panel of the home page (`components/ProductDisplay.tsx`): the
 unit it starts with and resets on every load, the nutrient it reads for
 each grid place, and the eight-row grid with its image and serving-size
 lines.
 */
module ProductDisplay {
  import opened Nutrients

  /** The unit before any product has loaded. */
  const InitialUnit: Unit := PerServing

  /** The unit set when a product loads: per serving exactly when the record says its data is per serving. */
  function UnitAfterLoad(p: Product): (u: Unit)
    ensures u == PerServing <==> UnitFromName(p.nutritionDataPer) == Some(PerServing)
    ensures UnitFromName(p.nutritionDataPer).Some? ==> u == UnitFromName(p.nutritionDataPer).value
  {
    if p.nutritionDataPer == "serving" then PerServing else Per100g
  }

  /** What happens to the panel, as far as its unit is concerned. */
  datatype Event =
    | Fetching                 // a new barcode: product and error are cleared, the unit is kept
    | Loaded(product: Product) // the lookup found the product
    | Failed                   // the lookup found nothing, or failed
    | Selected(choice: Unit)   // the user picked a unit in the selector

  /** The unit an event sets, if it sets one. */
  function UnitSetBy(e: Event): Option<Unit> {
    match e
    case Loaded(p) => Some(UnitAfterLoad(p))
    case Selected(c) => Some(c)
    case _ => None
  }

  /** The unit after a history of events: the last event that sets a unit wins, and with none it is the initial unit. */
  function UnitAfter(events: seq<Event>): (u: Unit)
    ensures (forall i :: 0 <= i < |events| ==> UnitSetBy(events[i]).None?) ==> u == InitialUnit
    ensures forall i :: 0 <= i < |events| && UnitSetBy(events[i]).Some? &&
                        (forall j :: i < j < |events| ==> UnitSetBy(events[j]).None?)
                        ==> u == UnitSetBy(events[i]).value
  {
    if events == [] then InitialUnit
    else
      match UnitSetBy(events[|events| - 1])
      case Some(u) => u
      case None =>
        var earlier := events[..|events| - 1];
        assert forall i :: 0 <= i < |earlier| ==> earlier[i] == events[i];
        UnitAfter(earlier)
  }

  /** A product load sets the unit from the record, whatever the user had selected before. */
  lemma {:induction false} LoadOverridesSelection(events: seq<Event>, choice: Unit, p: Product)
    ensures UnitAfter(events + [Selected(choice), Loaded(p)]) == UnitAfterLoad(p)
    ensures UnitAfter(events + [Loaded(p), Selected(choice)]) == choice
  {
  }

  /** Scanning a new barcode, or a failed lookup, leaves the unit as it was. */
  lemma {:induction false} FetchKeepsUnit(events: seq<Event>)
    ensures UnitAfter(events + [Fetching]) == UnitAfter(events)
    ensures UnitAfter(events + [Failed]) == UnitAfter(events)
  {
    assert (events + [Fetching])[..|events|] == events;
    assert (events + [Failed])[..|events|] == events;
  }

  /** The key read for nutrient `n`: `n_serving` per serving, the bare `n` per 100g. */
  function ProbedKey(u: Unit, n: string): string {
    if u == PerServing then n + "_serving" else n
  }

  /**
   `getNutrientValue`: `N/A` unless the probed key holds a truthy number;
   a number is followed by `g` per 100g and by nothing per serving.
   */
  function NutrientValue(p: Product, u: Unit, n: string): (c: Cell)
    ensures u == PerServing ==>
      (c.Shown? <==> n + "_serving" in p.nutriments && p.nutriments[n + "_serving"] != 0.0)
    ensures u == Per100g ==> (c.Shown? <==> n in p.nutriments && p.nutriments[n] != 0.0)
    ensures c.Shown? && u == PerServing ==> c == Shown(p.nutriments[n + "_serving"], "")
    ensures c.Shown? && u == Per100g ==> c == Shown(p.nutriments[n], "g")
  {
    var v := Get(p.nutriments, ProbedKey(u, n));
    if Truthy(v) then Shown(v.value, if u == Per100g then "g" else "") else NA
  }

  /** Per serving, the bare key is never read, even when it holds a value. */
  lemma ServingIgnoresBareKey(p: Product, n: string, v: real)
    ensures NutrientValue(p.(nutriments := p.nutriments[n := v]), PerServing, n)
         == NutrientValue(p, PerServing, n)
  {
    assert n + "_serving" != n by {
      assert |n + "_serving"| != |n|;
    }
  }

  /** Per 100g, the `_serving` key is never read, even when it holds a value. */
  lemma Per100gIgnoresServingKey(p: Product, n: string, v: real)
    ensures NutrientValue(p.(nutriments := p.nutriments[n + "_serving" := v]), Per100g, n)
         == NutrientValue(p, Per100g, n)
  {
    assert n + "_serving" != n by {
      assert |n + "_serving"| != |n|;
    }
  }

  /**
   The text of a cell, with `toFixed(2)` given as `fixed2`: exactly `N/A`
   when the probed key is missing or zero, otherwise the rounded number and
   ` g` per 100g, or the rounded number and a lone space per serving.
   */
  lemma CellTextCases(p: Product, u: Unit, n: string, fixed2: real -> string)
    ensures var k := ProbedKey(u, n);
      && (CellText(NutrientValue(p, u, n), fixed2) == "N/A" <==> !Truthy(Get(p.nutriments, k)))
      && (Truthy(Get(p.nutriments, k)) && u == Per100g ==>
            CellText(NutrientValue(p, u, n), fixed2) == fixed2(p.nutriments[k]) + " g")
      && (Truthy(Get(p.nutriments, k)) && u == PerServing ==>
            CellText(NutrientValue(p, u, n), fixed2) == fixed2(p.nutriments[k]) + " ")
  {
    CellTextIsNAOnlyForNA(NutrientValue(p, u, n), fixed2);
  }

  /** The row for nutrient `n`: the nutrient with its value read from the nutrient's key. */
  function RowOf(p: Product, u: Unit, n: Nutrient): Row {
    Row(n, NutrientValue(p, u, Key(n)))
  }

  /** The nutrient grid: always eight rows in a fixed order, whatever the record holds. */
  function Table(p: Product, u: Unit): (rows: seq<Row>)
    ensures |rows| == 8
    ensures && rows[0].nutrient == EnergyKcal && rows[1].nutrient == Proteins
            && rows[2].nutrient == Carbohydrates && rows[3].nutrient == Fat
            && rows[4].nutrient == Fiber && rows[5].nutrient == Sugars
            && rows[6].nutrient == SaturatedFat && rows[7].nutrient == Salt
    ensures forall i :: 0 <= i < |rows| ==> rows[i] == RowOf(p, u, rows[i].nutrient)
  {
    [ RowOf(p, u, EnergyKcal), RowOf(p, u, Proteins), RowOf(p, u, Carbohydrates), RowOf(p, u, Fat),
      RowOf(p, u, Fiber), RowOf(p, u, Sugars), RowOf(p, u, SaturatedFat), RowOf(p, u, Salt) ]
  }

  /** The grid depends on nothing but the eight keys the current unit probes. */
  lemma TableReadsOnlyProbedKeys(p: Product, q: Product, u: Unit)
    requires forall n: Nutrient :: Get(p.nutriments, ProbedKey(u, Key(n))) == Get(q.nutriments, ProbedKey(u, Key(n)))
    ensures Table(p, u) == Table(q, u)
  {
    var a, b := Table(p, u), Table(q, u);
    forall i | 0 <= i < 8
      ensures a[i] == b[i]
    {
      assert a[i].nutrient == b[i].nutrient by {
        assert i == 0 || i == 1 || i == 2 || i == 3 || i == 4 || i == 5 || i == 6 || i == 7;
      }
    }
  }

  /** Per serving, a key that does not end in `_serving` never changes the grid. */
  lemma ServingTableIgnoresOtherKeys(p: Product, k: string, v: real)
    requires !EndsWith(k, "_serving")
    ensures Table(p.(nutriments := p.nutriments[k := v]), PerServing) == Table(p, PerServing)
  {
    var q := p.(nutriments := p.nutriments[k := v]);
    forall n: Nutrient
      ensures Get(p.nutriments, ProbedKey(PerServing, Key(n))) == Get(q.nutriments, ProbedKey(PerServing, Key(n)))
    {
      var key := Key(n) + "_serving";
      assert EndsWith(key, "_serving") by {
        assert key[|key| - 8..] == "_serving";
      }
    }
    TableReadsOnlyProbedKeys(p, q, PerServing);
  }

  /** Per 100g, a `_serving` key never changes the grid: no bare nutrient key ends in `_serving`. */
  lemma Per100gTableIgnoresServingKeys(p: Product, k: string, v: real)
    requires EndsWith(k, "_serving")
    ensures Table(p.(nutriments := p.nutriments[k := v]), Per100g) == Table(p, Per100g)
  {
    var q := p.(nutriments := p.nutriments[k := v]);
    forall n: Nutrient
      ensures Get(p.nutriments, ProbedKey(Per100g, Key(n))) == Get(q.nutriments, ProbedKey(Per100g, Key(n)))
    {
      KeyIsNotServingKey(n);
    }
    TableReadsOnlyProbedKeys(p, q, Per100g);
  }

  /** A record with no nutrients shows `N/A` in every row, followed only by the row's trailer. */
  lemma EmptyRecordShowsNA(p: Product, u: Unit, fixed2: real -> string)
    requires p.nutriments == map[]
    ensures forall i :: 0 <= i < |Table(p, u)| ==> Table(p, u)[i].cell == NA
    ensures forall i :: 0 <= i < |Table(p, u)| ==>
      RowText(Table(p, u)[i], fixed2) == "N/A" + Trailer(Table(p, u)[i].nutrient)
  {
    var t := Table(p, u);
    forall i | 0 <= i < |t|
      ensures t[i].cell == NA
    {
      assert Get(p.nutriments, ProbedKey(u, Key(t[i].nutrient))) == None;
    }
  }

  /**
   The energy row appends ` kcal` to whatever the cell says: `N/A kcal`
   when there is no value, `<v> g kcal` per 100g, `<v>  kcal` per serving.
   */
  lemma EnergyRowText(p: Product, u: Unit, fixed2: real -> string)
    ensures Table(p, u)[0] == RowOf(p, u, EnergyKcal)
    ensures NutrientValue(p, u, "energy-kcal") == NA ==> RowText(RowOf(p, u, EnergyKcal), fixed2) == "N/A kcal"
    ensures NutrientValue(p, u, "energy-kcal").Shown? && u == Per100g ==>
      RowText(RowOf(p, u, EnergyKcal), fixed2) == fixed2(NutrientValue(p, u, "energy-kcal").value) + " g kcal"
    ensures NutrientValue(p, u, "energy-kcal").Shown? && u == PerServing ==>
      RowText(RowOf(p, u, EnergyKcal), fixed2) == fixed2(NutrientValue(p, u, "energy-kcal").value) + "  kcal"
  {
    assert Table(p, u)[0].nutrient == EnergyKcal;
    EnergyCellText(NutrientValue(p, u, "energy-kcal"), fixed2);
  }

  /** ` kcal` after a cell of this panel: `N/A kcal`, `<v> g kcal` or `<v>  kcal`. */
  lemma EnergyCellText(c: Cell, fixed2: real -> string)
    ensures c == NA ==> CellText(c, fixed2) + " kcal" == "N/A kcal"
    ensures c.Shown? && c.unitText == "g" ==> CellText(c, fixed2) + " kcal" == fixed2(c.value) + " g kcal"
    ensures c.Shown? && c.unitText == "" ==> CellText(c, fixed2) + " kcal" == fixed2(c.value) + "  kcal"
  {
    KcalText(c, fixed2);
    assert " " + "g" + " kcal" == " g kcal";
    assert " " + "" + " kcal" == "  kcal";
  }

  /** What the panel shows for a loaded product. */
  datatype View = View(title: string, image: Option<string>, servingLine: Option<string>, rows: seq<Row>)

  /** The loaded panel: title, image only with a URL, serving-size line only per serving and with a size, then the grid. */
  function Render(p: Product, u: Unit): (v: View)
    ensures v.title == p.name
    ensures v.image.Some? <==> p.imageUrl != ""
    ensures v.image.Some? ==> v.image.value == p.imageUrl
    ensures v.servingLine.Some? <==> u == PerServing && p.servingSize != ""
    ensures v.servingLine.Some? ==> v.servingLine.value == "Serving size: " + p.servingSize
    ensures v.rows == Table(p, u)
  {
    View(
      p.name,
      if p.imageUrl != "" then Some(p.imageUrl) else None,
      if u == PerServing && p.servingSize != "" then Some("Serving size: " + p.servingSize) else None,
      Table(p, u))
  }

  /** Right after a load, the serving-size line shows exactly for a per-serving record that names a size. */
  lemma ServingLineAfterLoad(p: Product)
    ensures Render(p, UnitAfterLoad(p)).servingLine.Some? <==>
      p.nutritionDataPer == "serving" && p.servingSize != ""
  {
  }
}
