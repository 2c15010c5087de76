# Dessert clicker sales state machine

A Dafny model of the sales logic of the dessert clicker app. The app has two
dessert lines. Tapping a line's dessert sells one unit of it. The sale adds
the dessert's price to the revenue. Once the line's sold count crosses a
threshold in the shared catalog, the line shows a new dessert with its own
price and image.

- `dessert_data.dfy` (module `DessertData`) models the catalog entry
  `Dessert` and the immutable record `DessertDataClass`. The record's
  default values are modelled, and its `copy` is Dafny's datatype update.
- `dessert_selection.dfy` (module `DessertSelection`) specifies the tier
  rule of `determineDessertToShow`. The rule starts from
  `desserts[startIndex % size]` and walks the catalog from `startIndex`. It
  keeps each entry whose threshold the sold count meets and stops at the
  first one it does not meet. The module describes the result through the
  run of met thresholds (`RunEnd`, `SelectedIndex`). It proves the rule
  equal to a full scan that keeps the last match when thresholds ascend,
  and not equal without that. It also proves that more sales never move a
  line backwards.
- `dessert_view_model.dfy` (module `DessertViewModel`) models the view model
  as the class `DessertSharingViewModel`:
  - The class holds the current snapshot in the field `uiState`.
  - The two click methods replace that snapshot with a copy.
  - `DetermineDessertToShow` keeps the source's loop, including the early
    `break`.
  - `FirstClicked` and `SecondClicked` are the pure copies the click
    handlers build, and `Replay` runs a sequence of clicks.
  - The lemmas give the sold counts, the revenue and the displayed dessert
    after any interleaving of clicks.

The catalog (`Datasource.dessertList`) is a parameter. The view model's
constructor takes it. `WithDefaults` takes it for the record's default
expressions.

Each sale is charged the price shown *before* the click
(`DessertViewModel.kt:43`). With thresholds 0, 5, 10, … the fifth sale is
made at four units sold, while the first tier is still shown, so
`FiveFirstSales` proves the revenue of five first-line sales is
`5 * desserts[0].price`.

## Model

| member | source | states |
|---|---|---|
| `DessertData.WithDefaults` | dessert-clicker/app/src/main/java/com/example/dessertclicker/data/DessertDataClass.kt:7-23 | The record built from defaults has indices 0 and 1, both sold counts and the revenue 0, and the first and second prices and images of `dessertList[0]` and `dessertList[1]`. This needs a catalog of at least two entries. `desserts` is always supplied. |
| `DessertData.DessertsSold` | dessert-clicker/app/src/main/java/com/example/dessertclicker/MainActivity.kt:114 | The total sold over both lines, as the screen and the share text report it. With non-negative counts it is at least each line's own count. Its partners are `Clicked` and `Replay`: a click adds exactly one to it. |
| `DessertSelection.RunEnd` | dessert-clicker/app/src/main/java/com/example/dessertclicker/ui/DessertViewModel.kt:81-88 | The scan's stopping position lies between `startIndex` and the catalog size. It is `startIndex` itself when the loop range is empty. |
| `DessertSelection.RunEndCloses` | dessert-clicker/app/src/main/java/com/example/dessertclicker/ui/DessertViewModel.kt:81-88 | Every entry the loop passes has its threshold met by the sold count. The entry it stops at, if any, does not. |
| `DessertSelection.RunEndUnique` | dessert-clicker/app/src/main/java/com/example/dessertclicker/ui/DessertViewModel.kt:81-88 | Any position with those two properties is where the loop stops, so the early exit is characterised exactly. |
| `DessertSelection.SelectedIndex` | dessert-clicker/app/src/main/java/com/example/dessertclicker/ui/DessertViewModel.kt:75-90 | The chosen dessert is a catalog element: either `desserts[startIndex % size]` or some `desserts[i]` with `startIndex <= i < size`. |
| `DessertSelection.SelectedIndexIsRunLast` | dessert-clicker/app/src/main/java/com/example/dessertclicker/ui/DessertViewModel.kt:80-89 | The result is the initial pick `startIndex % size` in two cases: `startIndex` is past the catalog, or the sold count is below the threshold of `desserts[startIndex]`. Otherwise it is the last entry of the run of met thresholds from `startIndex`, and the next entry, if any, is not met. |
| `DessertSelection.Selected` | dessert-clicker/app/src/main/java/com/example/dessertclicker/ui/DessertViewModel.kt:75-90 | The dessert `determineDessertToShow` returns. Its threshold is met by the sold count unless it is the initial pick `desserts[startIndex % size]`. `SelectedIndexIsRunLast` gives the full characterisation. |
| `DessertSelection.LastMatchNoneLeft` | dessert-clicker/app/src/main/java/com/example/dessertclicker/ui/DessertViewModel.kt:81-88 | A scan without early exit keeps its current pick once no remaining threshold is met. |
| `DessertSelection.LastMatchFromRun` | dessert-clicker/app/src/main/java/com/example/dessertclicker/ui/DessertViewModel.kt:81-88 | With ascending thresholds, a full scan resumed anywhere inside the run of met thresholds ends on the early-exit result. |
| `DessertSelection.EarlyExitMatchesFullScan` | dessert-clicker/app/src/main/java/com/example/dessertclicker/ui/DessertViewModel.kt:80-89 | With ascending thresholds, the early-exit scan equals a full scan from `startIndex` that keeps the last entry whose threshold is met. |
| `DessertSelection.EarlyExitNeedsAscendingThresholds` | dessert-clicker/app/src/main/java/com/example/dessertclicker/ui/DessertViewModel.kt:81-88 | With thresholds 0, 5, 3 and four sales, the two scans give different desserts, so the equivalence depends on ascending thresholds. |
| `DessertSelection.RunEndMonotone` | dessert-clicker/app/src/main/java/com/example/dessertclicker/ui/DessertViewModel.kt:81-88 | A larger sold count never stops the scan earlier. |
| `DessertSelection.SelectedIndexMonotone` | dessert-clicker/app/src/main/java/com/example/dessertclicker/ui/DessertViewModel.kt:80-89 | `s1 <= s2` implies the catalog position chosen for `s1` is at most the one chosen for `s2`. This holds for any catalog. |
| `DessertSelection.SelectedThresholdMonotone` | dessert-clicker/app/src/main/java/com/example/dessertclicker/ui/DessertViewModel.kt:80-89 | With ascending thresholds, more sales never show a dessert with a lower threshold. |
| `DessertViewModel.InitialState` | dessert-clicker/app/src/main/java/com/example/dessertclicker/ui/DessertViewModel.kt:17-28 | The starting snapshot has revenue and both sold counts 0 and default indices 0 and 1. The first line shows `dessertList[0]`. The second shows `dessertList[1]`, or `dessertList[0]` for a one-entry catalog. With two or more entries it equals the record built from defaults. |
| `DessertViewModel.InitialStateShown` | dessert-clicker/app/src/main/java/com/example/dessertclicker/ui/DessertViewModel.kt:17-28 | Take a catalog that starts at threshold 0 and strictly increases. The starting snapshot shows on each line exactly what the tier rule picks for zero sales. |
| `DessertViewModel.FirstClicked` | dessert-clicker/app/src/main/java/com/example/dessertclicker/ui/DessertViewModel.kt:35-47 | A first-dessert click adds 1 to `firstDessertsSold` and adds the pre-click `firstDessertPrice` to revenue. It shows the dessert the new count selects from position 0. No other field changes. |
| `DessertViewModel.SecondClicked` | dessert-clicker/app/src/main/java/com/example/dessertclicker/ui/DessertViewModel.kt:55-68 | The same for the second line, selecting from position 1. No first-line field, index or catalog changes. |
| `DessertViewModel.Clicked` | dessert-clicker/app/src/main/java/com/example/dessertclicker/ui/DessertViewModel.kt:34-70 | Either click keeps the catalog and adds exactly one to the total sold over both lines (`MainActivity.kt:114` reports that total). |
| `DessertViewModel.Replay` | dessert-clicker/app/src/main/java/com/example/dessertclicker/ui/DessertViewModel.kt:34-70 | After any sequence of clicks the catalog is unchanged, and the total sold has grown by the number of clicks. |
| `DessertViewModel.ClicksCommute` | dessert-clicker/app/src/main/java/com/example/dessertclicker/ui/DessertViewModel.kt:42-47 | A first click then a second click gives the same snapshot as the other order. |
| `DessertViewModel.ClickedKeepsShown` | dessert-clicker/app/src/main/java/com/example/dessertclicker/ui/DessertViewModel.kt:34-70 | A click keeps both lines showing what their sold counts select. |
| `DessertViewModel.ReplayKeepsShown` | dessert-clicker/app/src/main/java/com/example/dessertclicker/ui/DessertViewModel.kt:34-70 | Any sequence of clicks does the same. |
| `DessertViewModel.FirstClickedSale` | dessert-clicker/app/src/main/java/com/example/dessertclicker/ui/DessertViewModel.kt:35-47 | On a consistent snapshot, a first-line sale is charged the price the pre-click count selects, and the second line's count is untouched. |
| `DessertViewModel.SecondClickedSale` | dessert-clicker/app/src/main/java/com/example/dessertclicker/ui/DessertViewModel.kt:55-68 | On a consistent snapshot, a second-line sale is charged the price the pre-click count selects, and the first line's count is untouched. |
| `DessertViewModel.ReplaySold` | dessert-clicker/app/src/main/java/com/example/dessertclicker/ui/DessertViewModel.kt:36-44 | After any interleaving, each line's sold count has grown by exactly its own number of clicks. |
| `DessertViewModel.ReplayRevenue` | dessert-clicker/app/src/main/java/com/example/dessertclicker/ui/DessertViewModel.kt:34-70 | From a consistent snapshot, the revenue after any interleaving is the prices of each line's consecutive tiers summed per line. The interleaving does not matter. |
| `DessertViewModel.ReplayRevenueFirst` | dessert-clicker/app/src/main/java/com/example/dessertclicker/ui/DessertViewModel.kt:35-47 | The revenue statement for a replay that starts with a first-line click. |
| `DessertViewModel.ReplayRevenueSecond` | dessert-clicker/app/src/main/java/com/example/dessertclicker/ui/DessertViewModel.kt:55-68 | The revenue statement for a replay that starts with a second-line click. |
| `DessertViewModel.SecondClicksKeepFirstLine` | dessert-clicker/app/src/main/java/com/example/dessertclicker/ui/DessertViewModel.kt:63-68 | Any number of second-line clicks leave the first line's index, count, price and image unchanged. |
| `DessertViewModel.FirstClicksKeepSecondLine` | dessert-clicker/app/src/main/java/com/example/dessertclicker/ui/DessertViewModel.kt:42-47 | Any number of first-line clicks leave the second line's index, count, price and image unchanged. |
| `DessertViewModel.FirstFiveSalePrices` | dessert-clicker/app/src/main/java/com/example/dessertclicker/ui/DessertViewModel.kt:80-89 | Take a valid catalog whose second threshold is 5. The first line selects entry 0 for 0 to 4 sales and entry 1 at 5 sales, so the first five sales cost five times entry 0's price. |
| `DessertViewModel.FiveFirstSales` | dessert-clicker/app/src/main/java/com/example/dessertclicker/ui/DessertViewModel.kt:17-47 | Five first-line clicks from the starting snapshot of such a catalog give 5 sold and entry 1 shown. The revenue is `5 * desserts[0].price`. |
| `DessertViewModel.DessertSharingViewModel.constructor` | dessert-clicker/app/src/main/java/com/example/dessertclicker/ui/DessertViewModel.kt:17-28 | A new view model holds the starting snapshot of the catalog it is given. |
| `DessertViewModel.DessertSharingViewModel.OnFirstDessertClicked` | dessert-clicker/app/src/main/java/com/example/dessertclicker/ui/DessertViewModel.kt:34-49 | Replaces `uiState` with `FirstClicked` of the old snapshot. The first count grows by 1, the revenue by the old first price, and the first line shows what the new count selects. The second line is unchanged. |
| `DessertViewModel.DessertSharingViewModel.OnSecondDessertClicked` | dessert-clicker/app/src/main/java/com/example/dessertclicker/ui/DessertViewModel.kt:54-70 | Replaces `uiState` with `SecondClicked` of the old snapshot, with the symmetric effects. The first line is unchanged. |
| `DessertViewModel.DessertSharingViewModel.DetermineDessertToShow` | dessert-clicker/app/src/main/java/com/example/dessertclicker/ui/DessertViewModel.kt:75-90 | The loop with its early `break` returns exactly `Selected(dessertsSold, desserts, startIndex)`, the tier rule specified above. |

## Left out

- The `MutableStateFlow`/`StateFlow` holder, its observers and the atomic
  compare-and-set inside `update` are not modelled. The snapshot is a plain
  field that each click overwrites. There is no concurrency in the source's
  use of it.
- Kotlin's 32-bit `Int` is modelled as an unbounded `int`. Overflow of
  `revenue` or the sold counts is not modelled.
- `startIndex` is a `nat`. The source only passes 0 and 1. A negative start
  would make the source index the list out of bounds, and the model does not
  cover that.
- `Datasource.dessertList` and the `Dessert` class are not part of this
  model. The catalog is a parameter. `Dessert` keeps only `imageId`, `price`
  and `startProductionAmount`, and image ids are opaque integers.
- An empty catalog is excluded by `requires`: the source's initial state
  reads `dessertList[0]` and `determineDessertToShow` takes `% size`, so it
  cannot run on one.
- The record's `firstDessertIndex` and `secondDessertIndex` are carried but
  not read: the click handlers use the literal start positions 0 and 1, and
  the model does the same.
- Everything in `MainActivity.kt` is not part of this model: layout, theming,
  resource lookup, lifecycle logging, and the share intent with its
  chooser/`Toast` fallback. The only piece kept is the total sold,
  `DessertsSold`, which is the `firstDessertsSold + secondDessertsSold` it
  passes to the share text.
