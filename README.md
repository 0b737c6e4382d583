# Territory reallocation map — Dafny model

This project models the data core of `em_app.py`, a Dash application that
shows sales opportunities on a map and lets an analyst move the zipcodes
inside drawn polygons from one sales territory to another.

The model covers:

- **The long-format table** (`read_og_df`). This is one record per opportunity,
  followed by the synthetic placeholder row. That row is all zeros except the
  territory, which is "New".
- **The totals table** (`totalstable`). Per territory or per postal code it
  holds the value of each opportunity type, their sum, and the opportunity
  count. The count is lowered by one in the placeholder's group.
- **The zipcode hover table** (`zipcodetable`, `update_zip`). Per site it holds
  the number of distinct producers, joined with the totals of its postal code,
  and the colour category of the site's territory. The placeholder site
  counts no producers.
- **The category map** (`setup_data`). `factorize` numbers the territories
  0..n-1, and `cat_terr_map` maps each name to its number.
- **`find_geo`**. It walks a drawn GeoJSON value and keeps the coordinates of
  every Polygon feature, in order. It gives None when anything on the way
  raises.
- **`hoverdict`**. It writes the tooltip label of every zipcode row, in place.
- **Reassignment**. A mask ORs the drawn polygons together, and the two masked
  writes move the selected records to the edit target's territory and
  category.
- **The `everything_everywhere` callback**. It chooses between four cases:
  - selection only;
  - selection plus polygons plus a target;
  - a selection that lacks either the polygons or the target;
  - nothing selected.
- **`toggle_select`**. It is modelled as a class whose `selected` field holds
  at most one zipcode.

Modules follow the program's structure:

| module | file | what it holds |
|---|---|---|
| `Seqs` | seqs.dfy | shared helpers: `Option`, `NoDups`, first-occurrence `IndexOf`, first-appearance `Distinct` |
| `Records` | records.dfy | the record, the placeholder row and the loaded table |
| `Grouping` | grouping.dfy | group keys, groups, sums and conservation |
| `Totals` | totals.dfy | the totals table |
| `Zipcodes` | zipcodes.dfy | the zipcode table and `update_zip` |
| `Categories` | categories.dfy | `factorize` and the category map |
| `Shapes` | shapes.dfy | JSON values, `find_geo` and polygon rings |
| `Hover` | hover.dfy | number rendering, the tooltip, the `hoverdict` loop |
| `Reassignment` | reassignment.dfy | the intersection mask and the masked writes |
| `Orchestrator` | orchestrator.dfy | `setup_data` and the four-case callback |
| `Selection` | selection.dfy | the side table and the click toggle |

### Where the design notes and the code differ (the model follows the code)

- Each call of the callback starts again from the start-up table (`res = df`,
  em_app.py:311). Edits from earlier calls do not accumulate, even though the
  design describes cumulative reallocation.
- An edit target that is not among the selected territories is treated as no
  target (em_app.py:315-316). Selecting one territory and targeting another
  therefore reassigns nothing.
- `edit_control['features']` is read outside any `try` (em_app.py:318). A
  drawing control value without `features` makes the callback raise
  (`CallbackError`).
- In the nothing-selected case the dropdown options are always emptied. Only
  the toolbar clear depends on what triggered the call (em_app.py:378-381).

## Model

| member | source | states |
|---|---|---|
| Records.Load | em_app.py:19-20 | the loaded table is the file's rows followed by one extra row; when every file row is a real opportunity, that placeholder row occurs exactly once |
| Seqs.Distinct | em_app.py:111 | the de-duplicated column holds no duplicates and exactly the values of the input |
| Seqs.DistinctCountsValues | em_app.py:111 | `nunique`: the number of distinct values equals the size of the set of values |
| Seqs.DistinctKeepsFirstAppearance | em_app.py:152 | one value precedes another among the uniques exactly when it first appears earlier in the input |
| Grouping.Keys | em_app.py:83 | the group keys are listed without duplicates |
| Grouping.KeysCover | em_app.py:83 | every record's key is one of the group keys |
| Grouping.KeyHasRecord | em_app.py:83 | every group key is the key of some record (no empty groups) |
| Grouping.GroupMembers | em_app.py:83 | a group holds exactly the records of the table that have its key |
| Grouping.SumOfRowsIsLength | em_app.py:92 | `count()` over a group is its number of rows |
| Grouping.AssetsSplitByType | em_app.py:83-85 | the value of any set of records is the sum of its per-type values, the placeholder's type included |
| Grouping.GroupSumsConserve | em_app.py:83-85 | the per-group sums, added over all groups, equal the sum over the whole table |
| Grouping.GroupMultiplicity | em_app.py:83 | a group holds every copy of each record with its key, and no other record |
| Grouping.GroupOfPermutation | em_app.py:83 | reordering the table only reorders each group |
| Grouping.SumOfRemove | em_app.py:83 | removing one record from a table removes its weight from the sum |
| Grouping.MultisetRemove | em_app.py:83 | removing one record from a table removes one copy of it from the table's multiset |
| Grouping.SumOfPermutation | em_app.py:83 | sums do not depend on the order of the rows |
| Totals.RowFor | em_app.py:83-97 | a group's row carries its key, and its count is the group's size less one for the placeholder group |
| Totals.RowsFor | em_app.py:83-99 | one totals row per key, in key order, each carrying its key |
| Totals.TotalsTable | em_app.py:70-99 | one row per group present, keys pairwise distinct, each row the value, type values and discounted count of its group |
| Totals.TotalsRowOfRecord | em_app.py:92-99 | every record has its group's row in the table, at the first appearance of its key |
| Totals.TotalsRowsArePresentGroups | em_app.py:83-99 | every row of the table is the group of some record |
| Totals.PlaceholderInPlaceholderGroup | em_app.py:94-97 | the placeholder row falls in the group whose count is discounted ("New" by territory, 0 by postal code) |
| Totals.ZeroTypeSumsToZero | em_app.py:19 | records of the placeholder's type carry no value when none of them has assets |
| Totals.AbsentTypeIsZero | em_app.py:83-88 | a type with no record in a group sums to 0 there, as `fillna(0)` and the reindex fill give it |
| Totals.AbsentTypeColumnIsZero | em_app.py:83-89 | a row's Type A, B or C column is 0 when its group has no record of that type |
| Totals.LoadedCarriesNothing | em_app.py:17-20 | in the loaded table, records of the placeholder's type carry no value |
| Totals.TotalIsSumOfTypes | em_app.py:83-89 | every row's TotalOpptyValue equals Type A + Type B + Type C |
| Totals.CountDiscountsPlaceholder | em_app.py:92-97 | every count is the group's size, less one in the placeholder group, and never negative |
| Totals.WithoutPlaceholder | em_app.py:93 | the real opportunities of a group are its records other than the placeholder row |
| Totals.WithoutPlaceholderSize | em_app.py:93 | dropping the placeholder's copies shortens a group by exactly their number |
| Totals.CountExcludesPlaceholder | em_app.py:92-97 | with the placeholder row present once, every count is the number of real opportunities in its group |
| Totals.ColumnSumOverKeys | em_app.py:83-99 | each column of the rows for distinct keys adds up to the per-group sums, less one on the count column when the placeholder group is among them |
| Totals.TotalsConserve | em_app.py:70-99 | each column of the totals table adds up to the sum over the whole table, with the count lowered by one when the placeholder group is present |
| Totals.CountsAddUpToRealRecords | em_app.py:92-97 | with the placeholder present once, the counts add up to the number of real opportunities |
| Totals.RowOrderIrrelevant | em_app.py:83-92 | every group's totals row is the same for any reordering of the table |
| Zipcodes.ProducerCounts | em_app.py:111-112 | one row per (territory, postal code, latitude, longitude) site, with its distinct-producer count |
| Zipcodes.ClearPlaceholderProducers | em_app.py:113-118 | the all-zero "New" site gets 0 producers and every other row is unchanged |
| Zipcodes.ZeroPlaceholderProducers | em_app.py:114-118 | the in-place two-loop pass leaves exactly the rows of `ClearPlaceholderProducers` |
| Zipcodes.LookupFindsUniqueKey | em_app.py:122 | in a table with distinct keys, looking up a row's key finds that row |
| Zipcodes.JoinTotalsKeepsAll | em_app.py:122 | when every site has a totals row, the inner join keeps every site, in order, each with its own row |
| Zipcodes.SitePostalCodeHasTotals | em_app.py:121-122 | every site's postal code has the totals row of its group |
| Zipcodes.SiteRowHasTotals | em_app.py:121-122 | the i-th site finds the totals row of its postal code |
| Zipcodes.SitesJoin | em_app.py:121-122 | the inner join of the producer count with the postal-code totals keeps every site, in order, each with its own postal code's totals row |
| Zipcodes.ZipcodeTable | em_app.py:101-122 | `zipcodetable` has one row per site, and every site carries its own postal code's totals |
| Zipcodes.ZipcodeTableJoin | em_app.py:101-122 | the zipcode table is the producer count, row for row, each joined with its postal code's totals; no site is lost |
| Zipcodes.ProducerCountIsDistinctNames | em_app.py:111 | a site's producer count is the number of different producer names among its records |
| Zipcodes.ZipSiteAt | em_app.py:111-122 | row i of the zipcode table carries the i-th site's territory, postal code and coordinates |
| Zipcodes.ZipcodeRowAt | em_app.py:110-122 | row i has the i-th site, its distinct-producer count (0 for the placeholder site) and its postal code's totals |
| Zipcodes.ZipSiteHasRecord | em_app.py:111 | every row's territory is the territory of some record |
| Zipcodes.RecordHasZipSite | em_app.py:111-122 | every record's site is in the zipcode table, with its territory |
| Zipcodes.WithCategories | em_app.py:36 | the category lookup succeeds exactly when every territory of the table is in the map, and then keeps every row and adds its territory's category |
| Zipcodes.UpdateZip | em_app.py:26-37 | `update_zip` raises exactly when a site's territory has no category; otherwise it keeps one row per site, each with its postal code's totals and its territory's category |
| Zipcodes.UpdateZipSucceeds | em_app.py:26-37 | `update_zip` does not raise when every territory of the table has a category |
| Categories.Factorize | em_app.py:152 | the uniques are distinct and are exactly the input's values; there is one code per value, and each code indexes its own value among the uniques |
| Categories.CategoryMap | em_app.py:153 | the map's keys are exactly the territory names, and every number is below the number of distinct names |
| Categories.CategoryMapCoversRange | em_app.py:153 | every number 0..n-1 is assigned, number c to the c-th unique |
| Categories.CategoryMapInjective | em_app.py:153 | different territories get different numbers |
| Categories.CategoryMapMatchesCodes | em_app.py:152-154 | the map gives each row the same number `factorize` stored for it |
| Categories.CategoryMapFirstAppearance | em_app.py:152-153 | one territory gets a smaller number than another exactly when it first appears earlier |
| Categories.FirstNameIsZero | em_app.py:152-153 | the first territory of the table gets category 0 |
| Shapes.Subscript | em_app.py:43-45 | `x[key]` is defined exactly on an object holding the key, and then gives its value |
| Shapes.FeatureList | em_app.py:43 | a `for` over the features finishes only on a list, or on an empty string or object |
| Shapes.FindGeo | em_app.py:40-48 | `find_geo` gives None when `d` has no `features`; a result it gives is exactly the polygon coordinates of the features, in order |
| Shapes.FindGeoLoop | em_app.py:40-48 | the loop with its early return on an error computes `FindGeo` |
| Shapes.Raising | em_app.py:42-48 | once one iteration raises, the whole loop gives None |
| Shapes.PolygonCoords | em_app.py:44-45 | the polygons' coordinates are never more than the features |
| Shapes.PolygonCoordsAppend | em_app.py:44-45 | the polygon coordinates of two feature lists joined are those of each, in order |
| Shapes.WalkKeepsPolygons | em_app.py:43-47 | the walk succeeds exactly when every feature is readable, and then keeps exactly the polygon coordinates, in order |
| Shapes.FindGeoSpec | em_app.py:40-48 | `find_geo` is None exactly when `features` is missing, cannot be iterated, or holds an unreadable feature; otherwise it gives the polygon coordinates in order |
| Shapes.PolygonPosition | em_app.py:44-45 | the polygon at position i contributes its coordinates right after those of the earlier polygons |
| Shapes.PolygonCount | em_app.py:44-45 | the number of kept coordinates grows by one exactly at each polygon feature |
| Shapes.Positions | em_app.py:342 | a ring is built exactly when every position is well formed, one point per position, longitude first |
| Shapes.OuterRings | em_app.py:342 | `[Polygon(x[0]) for x in coords]` succeeds exactly when every polygon's outer ring can be built, one ring per polygon |
| Hover.NatTextDigits | em_app.py:137-142 | a rendered natural number is all digits, with no leading zero except in "0" |
| Hover.ParseNatText | em_app.py:137-142 | reading a rendered natural number back gives the number |
| Hover.IntTextRoundTrip | em_app.py:137-142 | a rendered integer is a sign (exactly when negative) then digits, and reads back as the same integer |
| Hover.IntTextInjective | em_app.py:137-142 | different numbers get different labels |
| Hover.IntTextShows | em_app.py:137-142 | a rendered integer is well-formed decimal text that reads back as the integer |
| Hover.Tooltip | em_app.py:136-143 | every label opens with the bold postal code and closes with the bold, bracketed territory name |
| Hover.Framed | em_app.py:136-143 | a label built head + body + tail starts with its head and ends with its tail |
| Hover.LineSlices | em_app.py:136-143 | in a label cut as head, caption, number, line break, rest and tail, each piece sits at its offset |
| Hover.TooltipParts | em_app.py:136-143 | a label is the bold postal code, then the producer-count line, then the totals lines, then the territory |
| Hover.TooltipShowsProducers | em_app.py:136-137 | right after the bold postal code and "Producer Count: " the label shows the count's decimal text, which reads back as the count, followed by a line break |
| Hover.HoverDicts | em_app.py:134-144 | one dict per zipcode row, in order, each holding its row and its label |
| Hover.HoverDictLoop | em_app.py:134-144 | the dicts built and labelled in place are exactly `HoverDicts` |
| Hover.SetLabels | em_app.py:135-143 | the loop gives every dict its own label and leaves its row alone |
| Reassignment.Mask | em_app.py:342-348 | one flag per record |
| Reassignment.IntersectionMask | em_app.py:344-348 | the OR over polygons of the per-polygon tests flags a record exactly when its point is inside some polygon |
| Reassignment.Reassigned | em_app.py:349-350 | the masked writes keep the table's length |
| Reassignment.ReassignInPlace | em_app.py:349-350 | the two masked column writes, in place, leave exactly the `Reassigned` table |
| Reassignment.ReassignFrame | em_app.py:349-350 | a masked record gets the target territory and category and keeps every other field; an unmasked one is unchanged |
| Reassignment.ReassignIdempotent | em_app.py:349-350 | repeating the writes with the same mask changes nothing more |
| Reassignment.MaskedJoinTarget | em_app.py:349-352 | every masked record ends in the target territory's group |
| Reassignment.ReassignCarriesNothing | em_app.py:349-352 | reassignment changes no type or asset, so records of the placeholder's type still carry no value |
| Reassignment.SameWeightsTail | em_app.py:349-353 | two tables that agree record by record on key and weights still agree after dropping their first records |
| Reassignment.GroupSumsAgree | em_app.py:349-353 | two tables that agree record by record on key and weights have the same group sums |
| Reassignment.KeysAgree | em_app.py:349-353 | such tables have the same group keys |
| Reassignment.TotalsAgree | em_app.py:349-353 | such tables have the same totals table |
| Reassignment.ReassignKeepsPostalTotals | em_app.py:349-353 | reassignment leaves the postal-code totals, and so every zipcode's shown totals, unchanged |
| Reassignment.SumOfAgree | em_app.py:349-352 | tables that agree record by record on weights have the same sums |
| Reassignment.ReassignConservesValue | em_app.py:349-352 | every value column of the territory table adds up to the same amount before and after |
| Orchestrator.Setup | em_app.py:148-160 | `setup_data` keeps the loaded table; the territory list has no duplicates and holds exactly the territories with a category; there is one map point per site |
| Orchestrator.CodedZipTable | em_app.py:151-154 | one coded entry per zipcode row |
| Orchestrator.SetupAgreesWithUpdateZip | em_app.py:148-156 | at start-up `update_zip` succeeds, and the start-up dicts equal `hoverdict(update_zip(df))` |
| Orchestrator.CodesAgree | em_app.py:152-154 | looking each row up in the map gives the code `factorize` stored for it |
| Orchestrator.SetupCoversTerritories | em_app.py:148-153 | every territory of the loaded table has a category |
| Orchestrator.Subset | em_app.py:321 | the selection holds exactly the records of the selected territories |
| Orchestrator.SubsetKeepsGroup | em_app.py:321-324 | a selected territory keeps its whole group |
| Orchestrator.SubsetKeepsTerritoryRow | em_app.py:321-324 | a selected territory's totals row is the same before and after selection |
| Orchestrator.View | em_app.py:324-330 | the map-and-table view succeeds exactly when `update_zip` does |
| Orchestrator.SelectedView | em_app.py:321-330 | showing a selection raises exactly when `update_zip` of the selected records does; otherwise the options are the selection and the toolbar is left alone |
| Orchestrator.ReassignedView | em_app.py:337-359 | malformed polygon coordinates or a target without a category raise; otherwise the options are the selection and the toolbar is left alone |
| Orchestrator.Orchestrate | em_app.py:304-381 | a response needs `features` in the drawing control; its options are always the selected territories; it clears the drawings only when nothing is selected and the territory selector triggered the call |
| Orchestrator.MissingFeaturesRaise | em_app.py:318 | without `features` the callback raises, whatever the other inputs |
| Orchestrator.StaleTargetIsUnset | em_app.py:315-316 | a target outside the selection behaves exactly as no target |
| Orchestrator.FalsyFeaturesHaveNoCoords | em_app.py:312-318 | empty features never yield polygon coordinates |
| Orchestrator.SelectedDispatch | em_app.py:318-373 | with a selection, the callback reassigns exactly when there are polygons and a selected target, and otherwise shows the selection unchanged |
| Orchestrator.NothingSelected | em_app.py:375-381 | with nothing selected: the start-up map and table, emptied options, and a toolbar clear exactly when the territory selector triggered the call |
| Orchestrator.SelectionShowsOriginalRows | em_app.py:321-324 | a selected territory's row equals its row in the start-up table |
| Orchestrator.SubsetCarriesNothing | em_app.py:321 | selecting territories keeps records of the placeholder's type free of value |
| Orchestrator.ShownTotalsAddUp | em_app.py:83-89 | every territory table the callback shows has Total Opportunity Value equal to Type A + Type B + Type C in every row |
| Orchestrator.SelectedViewShowsSelection | em_app.py:321-330 | the territory table shown for a selection lists selected territories only |
| Orchestrator.SelectedViewSucceeds | em_app.py:364-373 | a selection of categorised territories never raises, and offers the selection as options |
| Orchestrator.ReassignedViewSucceeds | em_app.py:337-359 | a reassignment with well-formed polygons and a selected target never raises |
| Orchestrator.StartupSelectionsSucceed | em_app.py:304-381 | with start-up territories selected, the callback raises only on malformed polygons |
| Selection.DetailRows | em_app.py:284-285 | one side-table row per (producer, type) key, carrying that key and the summed assets of that key's records |
| Selection.ZipDetail | em_app.py:284-285 | each side-table row holds the summed assets of the zipcode's records with its producer and type |
| Selection.DetailSumOverKeys | em_app.py:285 | the side-table rows add up to the per-pair sums |
| Selection.ZipDetailAddsUp | em_app.py:284-285 | the side table of a zipcode adds up to that zipcode's total opportunity value |
| Selection.ZipDetailPairs | em_app.py:284-285 | each (producer, type) pair appears once, and every record of the zipcode has its pair listed |
| Selection.Toggled | em_app.py:278-283 | the new selection holds at most one zipcode; it holds the clicked one exactly when that was not selected, and nothing else |
| Selection.ToggleTwice | em_app.py:274-283 | clicking a zipcode twice clears it; clicking a second one selects it alone |
| Selection.Hideout.constructor | em_app.py:192 | the hideout starts with nothing selected, so at most one zipcode is highlighted |
| Selection.Hideout.Click | em_app.py:274-289 | no click data changes nothing; otherwise the selection is toggled, and the title and side table are those of the clicked zipcode, or cleared; at most one zipcode stays highlighted |

## Left out

- Floating point: assets, latitudes and longitudes are whole numbers. Number
  rendering is Python's for integers; pandas would print float sums such as
  `1234.0`.
- Group order: pandas sorts group keys, but the model lists them in order of
  first appearance. The totals rows, the zipcode rows and so the category
  numbers come out in a different order. Contents, counts and the
  first-appearance relation proved for the category map are unaffected.
- The `category` column: the input file is taken to have none. The
  placeholder row and every loaded record start without a category, and
  only a reassignment writes one (em_app.py:350).
- Missing values: the rows dropped by `~isna()` and `dropna()`
  (em_app.py:18, 21, 155) are assumed already absent from the input.
- The point-in-polygon test is shapely's `intersects`, a function parameter
  `inside`. Shapely's own refusal of degenerate rings is not modelled; only
  malformed positions raise.
- Reading the CSV, the cache, the Dash layout and wiring, and the export
  callback `gen_terri_output` are not modelled. Neither are `dict_to_gpd`,
  `dict_to_pd`, the colour palette and its shuffle, the `print` calls, and
  GeoJSON/geobuf conversion (`dicts_to_geojson`). These are I/O, presentation
  or library code. The map points are the hover dicts themselves.
- The JavaScript that draws the points and outlines the selected zipcode is
  not part of this model.
- Selection.Hideout.Click: the clicked feature is reduced to its postal code.
  Missing `properties` or `PostalCode` keys in the click data are not modelled.
- Orchestrator.Orchestrate: the selected territories are a list of names,
  never None. `callback_context.triggered` is the list `changed`.
- Hover.SetLabels: takes the label function as a parameter; `HoverDictLoop`
  passes `Tooltip`, the only label `hoverdict` writes.
