# Nutrition panels of the Nutrition Tracker

The Nutrition Tracker looks up a scanned barcode in a product database and
shows the product's nutrition facts, per 100 g or per serving. Two screens
do this, each with its own rules:

- **ProductDisplay**, on the home page
  (`components/ProductDisplay.tsx`). It starts per serving. On every load it
  switches to the record's own basis (`nutrition_data_per`). For each nutrient
  it reads one key: `n_serving` per serving, the bare `n` per 100g. It formats
  the value with `toFixed(2)` and follows it with ` g` per 100g and with a lone
  space per serving. Its grid always has eight rows. It shows the image only
  when there is an image URL. It shows the serving-size line only per serving
  and only when the record names a size.
- **ProductInfo**, on the scan page (`components/ProductInfo.tsx`). It
  starts per 100g. It tries `n_100g` or `n_serving` first and falls back to
  the bare `n`. It shows the value unrounded, followed by the unit's own name
  (`100g` or `serving`). Its grid always has six rows.

In both screens a value that is missing or `0` shows as `N/A`, because the
code tests a value with JavaScript truthiness. The energy row writes ` kcal`
after whatever the cell says. So `N/A kcal`, `<v> g kcal` and
`<v> 100g kcal` are all possible outputs.

Files:

- `nutrients.dfy` holds the shared vocabulary: `Product`, `Unit`, the
  eight `Nutrient`s and their keys, `Cell`, `Row`, JavaScript truthiness
  and `||`, and cell text.
- `product_display.dfy` holds `ProductDisplay`: the unit history, the
  single-key lookup, the 8-row grid and the loaded view.
- `product_info.dfy` holds `ProductInfo`: the default unit, the
  suffixed-then-bare lookup and the 6-row grid.
- `variants.dfy` holds `Variants`: what the two screens show for the same
  record.

Modelling choices:

- The product record is an immutable datatype. `nutriments` is a
  `map<string, real>`, and a missing key plays the role of `undefined`. A
  missing string field is `""`. Each string field is either tested for
  truthiness (`image_front_url`, `serving_size`), compared with `'serving'`
  (`nutrition_data_per`) or rendered as text (`product_name`), and in each
  of these uses `undefined` and `""` behave alike.
- The number formatters are parameters of type `real -> string`. These are
  `toFixed(2)` in ProductDisplay and JavaScript's number-to-string in
  ProductInfo. They are left uninterpreted: no property depends on how a
  number is rounded or written.
- ProductDisplay's unit is modelled as the result of a history of events.
  The events are a new barcode being fetched, a product being loaded, a
  failed lookup and a user selection. The last event that sets a unit
  decides it.

Behaviour of the code worth noting:

- ProductDisplay shows `product_name` as it is, with no placeholder.
- Values are formatted with `toFixed(2)`, and only in ProductDisplay;
  ProductInfo shows the number unrounded.
- A value of `0` shows as `N/A`, exactly like a missing one.
- Per serving, ProductDisplay writes no `g` after the value.
- The user may pick "per serving" for a record whose data is per 100g. The
  panel then reads the `n_serving` keys.

## Model

| member | source | states |
|---|---|---|
| `ProductDisplay.UnitAfterLoad` | components/ProductDisplay.tsx:39 | A load sets the unit to per serving exactly when the record's `nutrition_data_per` is the selector value `serving`. Any other basis, including a missing one, gives per 100g. |
| `ProductDisplay.UnitAfter` | components/ProductDisplay.tsx:25-83 | With no unit-setting event the unit is the initial per serving. Otherwise it is the unit set by the last load or the last user selection. |
| `ProductDisplay.LoadOverridesSelection` | components/ProductDisplay.tsx:39-83 | A load resets the unit from the record even after the user chose one. A later selection overrides the load. |
| `ProductDisplay.FetchKeepsUnit` | components/ProductDisplay.tsx:29-44 | Fetching a new barcode, or a failed lookup (product not found or a failed request), leaves the unit unchanged. |
| `ProductDisplay.NutrientValue` | components/ProductDisplay.tsx:69-72 | Per serving a value shows exactly when `n_serving` holds a non-zero number, and it is that number with no unit text. Per 100g it shows exactly when `n` holds a non-zero number, and it is that number with `g`. |
| `ProductDisplay.ServingIgnoresBareKey` | components/ProductDisplay.tsx:70 | Per serving, changing the bare key `n` never changes nutrient `n`'s cell. |
| `ProductDisplay.Per100gIgnoresServingKey` | components/ProductDisplay.tsx:70 | Per 100g, changing `n_serving` never changes nutrient `n`'s cell. |
| `ProductDisplay.CellTextCases` | components/ProductDisplay.tsx:71 | For any `toFixed(2)`, the cell text is exactly `N/A` if and only if the probed key is missing or zero. Otherwise it is the rounded number followed by ` g` per 100g, or by a single space per serving. |
| `ProductDisplay.Table` | components/ProductDisplay.tsx:96-129 | For any record the grid has exactly 8 rows. They come in the order energy-kcal, proteins, carbohydrates, fat, fiber, sugars, saturated-fat, salt. Each row's cell is the panel's value for that nutrient's key. |
| `ProductDisplay.TableReadsOnlyProbedKeys` | components/ProductDisplay.tsx:96-129 | Two records that agree on the eight keys probed for the current unit produce the same grid. |
| `ProductDisplay.ServingTableIgnoresOtherKeys` | components/ProductDisplay.tsx:70 | Per serving, adding or changing a key that does not end in `_serving` leaves the whole grid unchanged. |
| `ProductDisplay.Per100gTableIgnoresServingKeys` | components/ProductDisplay.tsx:70 | Per 100g, adding or changing any key ending in `_serving` leaves the whole grid unchanged. |
| `ProductDisplay.EmptyRecordShowsNA` | components/ProductDisplay.tsx:96-129 | A record with no nutrients shows `N/A` in every row. Each row's text is `N/A` followed only by its trailer: ` kcal` for energy, nothing for the rest. |
| `ProductDisplay.EnergyRowText` | components/ProductDisplay.tsx:99 | The grid's first row is the energy row. It is `N/A kcal` when there is no value. Otherwise it is the rounded number followed by ` g kcal` per 100g, or by two spaces and `kcal` per serving. |
| `ProductDisplay.EnergyCellText` | components/ProductDisplay.tsx:99 | Appending ` kcal` to a cell of this panel gives `N/A kcal`, `<v> g kcal` or `<v>  kcal`. |
| `ProductDisplay.Render` | components/ProductDisplay.tsx:74-131 | The title is the product name. The image is present exactly when the URL is non-empty. The serving-size line, `Serving size: <size>`, appears exactly per serving with a non-empty size. The rows are the grid. |
| `ProductDisplay.ServingLineAfterLoad` | components/ProductDisplay.tsx:93 | Right after a load, the serving-size line shows exactly for a per-serving record that names a size. |
| `ProductInfo.NutrientValue` | components/ProductInfo.tsx:12-15 | The cell is `N/A` exactly when neither `n_<unit>` nor `n` holds a non-zero number. A non-zero `n_<unit>` is shown first, otherwise `n`. The unit text is `100g` or `serving`. |
| `ProductInfo.SuffixedKeyTakesPrecedence` | components/ProductInfo.tsx:13 | A non-zero value under `n_<unit>` is shown whatever the bare key holds. |
| `ProductInfo.FallsBackToBareKey` | components/ProductInfo.tsx:13 | When `n_<unit>` is missing or zero, a non-zero bare `n` is shown, labelled with the selected unit's name. |
| `ProductInfo.CellTextCases` | components/ProductInfo.tsx:14 | For any number-to-string, the text is exactly `N/A` if and only if neither key is truthy. Otherwise it is the unrounded number, a space and `100g` or `serving`. |
| `ProductInfo.Table` | components/ProductInfo.tsx:34-41 | For any record the grid has exactly 6 rows. They come in the order energy-kcal, proteins, carbohydrates, fat, fiber, sugars. Saturated fat and salt never appear. Each row's cell is the card's value for that nutrient's key. |
| `ProductInfo.EnergyCellText` | components/ProductInfo.tsx:35 | Appending ` kcal` to a cell of this card gives `N/A kcal`, `<v> 100g kcal` or `<v> serving kcal`. |
| `ProductInfo.EnergyRowText` | components/ProductInfo.tsx:35 | The energy row reads `N/A kcal` with no value. Otherwise it reads `<v> 100g kcal` or `<v> serving kcal`. |
| `Variants.StartingUnits` | components/ProductInfo.tsx:10 | The card starts per 100g. The panel starts per serving, and after a load it is per serving only for a per-serving record. |
| `Variants.ServingKeysCoincide` | components/ProductInfo.tsx:13 | Per serving, the card's first key is the very key the panel reads. |
| `Variants.ServingCardFallsBackToPer100gPanel` | components/ProductInfo.tsx:12-15 | Per serving, the card shows the panel's per-serving value. Where the panel shows `N/A`, the card shows the panel's per-100g value. The card shows `N/A` only when both do. |
| `Variants.Per100gCardAgreesUnlessSuffixed` | components/ProductInfo.tsx:13 | Per 100g, the card and the panel show the same value unless `n_100g` is non-zero. In that case the card shows `n_100g`, a key the panel never reads. |
| `Variants.CardGridIsPrefixOfPanelGrid` | components/ProductInfo.tsx:34-41 | The card's six rows name the panel's first six nutrients in the same order. The panel's last two rows are the nutrients the card leaves out. |
| `Nutrients.UnitFromName` | components/ProductDisplay.tsx:88-89 | Only `100g` and `serving` name a unit, and reading a unit's name back gives that unit. |
| `Nutrients.JsOr` | components/ProductInfo.tsx:13 | `a \|\| b` is truthy exactly when one of its operands is. It is `a` when `a` is truthy, and `b` otherwise. |
| `Nutrients.CellTextIsNAOnlyForNA` | components/ProductDisplay.tsx:71 | Whatever the formatter writes, a shown cell whose unit text does not end in `A` never reads exactly `N/A`. |
| `Nutrients.KeyIsNotServingKey` | components/ProductDisplay.tsx:96-129 | None of the eight nutrient keys the grid reads ends in `_serving`. |

## Left out

- BarcodeScanner (`components/BarcodeScanner.tsx`) is not modelled. It is camera, file and canvas plumbing around the `html5-qrcode` and `jsQR` libraries. The code holds no symbol decoding of its own. So there is no luminance conversion, thresholding, checksum check or decode result to model.
- The product fetch and the handling of its response status are not modelled (ProductDisplay.tsx lines 27-49, `app/scan/page.tsx`). They are network I/O. Their outcome is modelled only as the `Loaded` and `Failed` events.
- The screen choice of ProductDisplay (the prompt, error and loading screens, lines 51-67) is not modelled. Neither is `app/page.tsx`. These are component wiring and markup.
- The JSX markup, styling and the React state and effect lifecycle are not modelled beyond the unit history. The grid headings ("Energy", "Protein: ", and so on) are markup and are left out; a row carries its nutrient, its cell and, for energy, the ` kcal` written after the value.
- Floating point is not modelled: `toFixed(2)`, JavaScript's number-to-string, NaN (also falsy) and non-number values under `nutriments` (the card types the product as `any`). Numbers are `real`, and falsy means missing or `0`.
- A record without a `nutriments` object is not modelled. Both screens would throw on it.
- ProductInfo's own title (`product_name`, line 20) and its unit selector state (lines 10 and 24) are modelled only through `ProductInfo.DefaultUnit` and the `u` parameter. Those lines only display the name and store the selected value.
