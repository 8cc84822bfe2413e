# Panel data merger — a verified model

`merge_panel.py` merges the manufacturing data of several board designs into one
panel. A panel layout places copies ("instances") of one or more designs at an
offset and an angle. For every instance the tool re-emits the design's
pick-and-place rows and bill-of-materials (BOM) rows. Each designator gets the
prefix `B<n>_`, where `n` is the 1-based instance number. Each placement is turned
and moved into panel coordinates. The BOM rows are then grouped by part type
(`Footprint`, `Value`, `LCSC Part #`) into one row per part. That row lists all of
the part's designators and their total quantity.

This project models that data reshaping in Dafny:

- `records.dfy` (`Records`): a CSV row as an insertion-ordered dictionary
  (`Row`: key order plus a map). `Set` is `row[k] = v`.
- `strings.dfy` (`Strings`): Python's `str.strip()`, `str.split(',')`,
  `", ".join(...)` and `str(n)`.
- `angles.dfy` (`Angles`): `normalize_angle` on whole degrees.
- `bom_loader.dfy` (`BomLoader`): `load_bom`. A grouped designator field becomes
  one component per reference, each with quantity 1.
- `position_loader.dfy` (`PositionLoader`): `load_positions`. Rows whose numbers
  do not parse are dropped.
- `panel.dfy` (`Panel`): the instance loop of `main()`, with designator
  prefixing, placement transform and BOM copies.
- `bom_grouping.dfy` (`BomGrouping`): the `bom_grouped` aggregation loop, an
  insertion-ordered map from part key to group.
- `bom_output.dfy` (`BomOutput`): flattening the groups back to rows, and the
  BOM column list.
- `pipeline.dfy` (`Pipeline`): the whole merge once the layout has been read.

Each loop of the source is a method whose `ensures` ties its result to a
specification function. The functions for the appending loops (`ExpandAll`,
`PositionsOf`, `MergedPlacements`, `MergedBom`, `Aggregate`, `ExtendNames`)
recurse on the last element, the way an appending loop builds the list.
`ExpandRefs` recurses on the first element. `InstancePlacements`,
`InstanceBom` and `Flatten` are sequence comprehensions, and `SourceData` is a
map comprehension. Lemmas then prove what the source promises about those
functions.

Notes on what the code does:

- The prefix is `B{i+1}_`, the 1-based instance number.
- A group's quantity is the sum of its rows' `Quantity` cells.
  `UnitQuantities` proves this equals the row count, because `load_bom` sets
  every quantity to 1.
- The BOM columns come from the first merged row only (`BomFieldNames`).
  `Pipeline.MergePanel` returns this list and, beside it, the corrected list
  taken from every merged row (see Findings).
- A design missing from `source_data` cannot happen. `source_data` is filled
  from the paths of the very same instances, so it is a precondition (`Covers`).

## Model

| member | source | states |
|---|---|---|
| `Angles.NormalizeAngle` | merge_panel.py:36-38 | the result lies in [0, 360) and differs from the input by whole turns |
| `Angles.NormalFormUnique` | merge_panel.py:36-38 | any value in [0, 360) that differs from the angle by whole turns is its normal form |
| `Angles.NormalizePeriodic` | merge_panel.py:36-38 | adding any number of whole turns (360 degrees each) leaves the normal form unchanged |
| `Angles.NormalizeIdempotent` | merge_panel.py:36-38 | normalizing an already normalized angle changes nothing |
| `Angles.NormalizeSum` | merge_panel.py:166 | adding the panel angle to a normalized or a raw rotation gives the same normalized rotation |
| `Strings.Split` | merge_panel.py:49 | `split(',')` always gives at least one piece |
| `Strings.Join` | merge_panel.py:221 | `", ".join(refs)` starts with the first piece and has the pieces' characters plus one separator per gap |
| `Strings.Strip` | merge_panel.py:49 | `strip()` leaves no white space at either end |
| `Strings.StripAroundCore` | merge_panel.py:49 | stripping white space from around a trimmed string gives exactly that string |
| `Strings.StripEmpty` | merge_panel.py:49 | a string strips to nothing exactly when it is all white space |
| `Strings.SplitPiecesFree` | merge_panel.py:49 | no piece of `split(',')` contains a comma |
| `Strings.JoinSplit` | merge_panel.py:49 | joining the pieces of a split with the separator gives the string back |
| `Strings.SplitJoin` | merge_panel.py:49 | splitting a join of comma-free pieces gives the pieces back |
| `Strings.DecimalString` | merge_panel.py:146 | `str(n)` is a non-empty run of decimal digits whose value is `n` |
| `Strings.DecimalStringInjective` | merge_panel.py:146 | different instance numbers have different decimal strings |
| `Strings.IntString` | merge_panel.py:222 | `str(qty)` reads back as `qty` |
| `Records.GetOr` | merge_panel.py:47 | `row.get(k, d)` is the stored value when `k` is present and `d` when it is missing |
| `Records.Set` | merge_panel.py:60-61 | `row[k] = v` stores `v` under `k`, keeps every other entry, keeps an existing key's position and appends a new key |
| `Records.Lift` | merge_panel.py:59 | the copy of a CSV row holds the same keys in the same order with the same text |
| `BomLoader.Designators` | merge_panel.py:47-49 | every reference read from a designator field is non-empty, stripped and free of commas |
| `BomLoader.NoDesignatorsIffBlank` | merge_panel.py:47-49 | a field yields no reference exactly when it holds only commas and white space |
| `BomLoader.DesignatorsConcat` | merge_panel.py:49 | references keep their left-to-right order: those before a comma come before those after it |
| `BomLoader.DesignatorsOfJoin` | merge_panel.py:49 | a field written as `", ".join(refs)` of clean references reads back as exactly `refs` |
| `BomLoader.ThreeCapacitors` | merge_panel.py:47-49 | the field "C1, C2, C3" yields the three references C1, C2, C3 |
| `BomLoader.Component` | merge_panel.py:57-62 | a component is the row with `Designator` set to the reference and `Quantity` to the integer 1, and every other column unchanged |
| `BomLoader.ExpandRefs` | merge_panel.py:57-62 | one component is emitted per reference |
| `BomLoader.ExpandRowSpec` | merge_panel.py:47-62 | a row yields as many components as its field lists references; component `j` carries reference `j`, quantity 1 and the row's other columns |
| `BomLoader.ExpandRowLoaded` | merge_panel.py:47-62 | every component of a row has one clean reference and quantity 1 |
| `BomLoader.ExpandAllLoaded` | merge_panel.py:42-63 | the loaded components number the references of all rows, and each has one clean reference and quantity 1 |
| `BomLoader.ExpandAllAppend` | merge_panel.py:45-62 | the components of consecutive blocks of rows follow each other in row order |
| `BomLoader.AppendComponents` | merge_panel.py:57-62 | the inner loop appends the components of one row, in reference order |
| `BomLoader.LoadBom` | merge_panel.py:40-63 | the nested loops produce the components of every row, row after row |
| `PositionLoader.ParseRow` | merge_panel.py:72-78 | a row is kept exactly when all three numbers parse, and a kept row carries the parsed values |
| `PositionLoader.PositionsOf` | merge_panel.py:70-79 | no more positions than rows |
| `PositionLoader.LoadPositions` | merge_panel.py:65-79 | the loop keeps the parsed rows in file order |
| `PositionLoader.PositionsOfAppend` | merge_panel.py:70-78 | the kept rows of two consecutive blocks follow each other |
| `PositionLoader.PositionsOfMembers` | merge_panel.py:70-78 | a position is kept exactly when some row parses to it |
| `Panel.Prefix` | merge_panel.py:146 | the prefix starts with `B` and ends with `_` |
| `Panel.InstanceIndexOfPrefixed` | merge_panel.py:146 | the instance index can be read back from any prefixed designator |
| `Panel.PrefixedNeverCollide` | merge_panel.py:146-180 | designators of two different instances never collide, whatever the original references |
| `Panel.PrefixedClean` | merge_panel.py:180 | a prefixed clean reference is still one clean reference |
| `Panel.Place` | merge_panel.py:152-175 | a placed row has designator prefix + original, rotation `normalize_angle(rotation + angle)`, the same layer, and the point rotated by the instance angle and then moved by the instance offset |
| `Panel.Rename` | merge_panel.py:178-181 | a merged BOM row is the component with its designator prefixed and every other column unchanged |
| `Panel.InstancePlacements` | merge_panel.py:151-175 | an instance contributes one placed row per placement of its design, in design order |
| `Panel.InstanceBom` | merge_panel.py:178-181 | an instance contributes one renamed row per component of its design, in design order |
| `Panel.MergeInstances` | merge_panel.py:139-181 | the instance loop builds the placements and BOM rows of every instance, in instance order |
| `Panel.MergedPlacementsLength` | merge_panel.py:144-175 | the merged placement list has as many rows as the placement rows of the instances' designs together |
| `Panel.MergedBomLength` | merge_panel.py:144-181 | the merged BOM has as many rows as the components of the instances' designs together |
| `Panel.MergedPlacementsAt` | merge_panel.py:144-175 | placement `j` of instance `i` sits right after the rows of earlier instances and is that row placed by that instance |
| `Panel.MergedBomAt` | merge_panel.py:144-181 | component `j` of instance `i` sits right after the rows of earlier instances and is that row renamed by that instance |
| `Panel.MergedPlacementsTagged` | merge_panel.py:144-175 | every merged placement names the instance it came from |
| `Panel.MergedPlacementsDistinct` | merge_panel.py:144-175 | if each design names its placements distinctly, so does the merged placement list |
| `Panel.MergedBomLoaded` | merge_panel.py:177-181 | merged BOM rows still have one clean (now prefixed) designator and quantity 1 |
| `Panel.FirstCopy` | merge_panel.py:159-175 | an unturned instance at the origin leaves R1 at (5, 10), turned 90 degrees, as `B1_R1` |
| `Panel.SecondCopy` | merge_panel.py:159-175 | an instance at (100, 0) turned 180 degrees puts R1 at (95, -10), turned 270 degrees, as `B2_R1` |
| `Panel.TwoBoardsOfOneDesign` | merge_panel.py:144-175 | two copies of one design give `B1_R1` then `B2_R1` at those places |
| `BomGrouping.KeyOf` | merge_panel.py:193-197 | a row's part key is its `Footprint`, `Value` and `LCSC Part #` cells, with "" for a missing column |
| `BomGrouping.Add` | merge_panel.py:199-207 | one row: a new part type is appended to the key order with the row as its kept row; the group's designators get the row's designator appended and its quantity the row's quantity added; every other group is unchanged |
| `BomGrouping.AddRow` | merge_panel.py:197-207 | the loop body, which opens an empty entry for a new key and then appends and adds, performs that step |
| `BomGrouping.GroupBom` | merge_panel.py:188-207 | the loop that updates `bom_grouped` in place computes the aggregation |
| `BomGrouping.AddValid` | merge_panel.py:199-207 | one loop step keeps every key listed once and each group's row of its own part type |
| `BomGrouping.AggregateValid` | merge_panel.py:188-207 | the grouping is a well-formed insertion-ordered map whose groups keep rows of their own part type |
| `BomGrouping.KeysOf` | merge_panel.py:190-197 | lists the part key of every row, in row order |
| `BomGrouping.AggregateKeys` | merge_panel.py:193-204 | there is a group for a part key exactly when some row has that key |
| `BomGrouping.AggregateOrder` | merge_panel.py:199-204 | the groups come in the order their part keys first occur among the rows |
| `BomGrouping.AggregateGroupData` | merge_panel.py:199-201 | a group keeps the first row of its part type |
| `BomGrouping.AggregateGroup` | merge_panel.py:206-207 | a group lists the designators of all rows of its type in row order, without de-duplication, and sums their quantities |
| `BomGrouping.UnitQuantities` | merge_panel.py:206-207 | with every quantity 1, a group's quantity is its number of designators and the total is the row count |
| `BomGrouping.AddTotal` | merge_panel.py:206-207 | one loop step adds the row's quantity to the groups' total |
| `BomGrouping.AggregateTotal` | merge_panel.py:188-207 | the groups' quantities add up to the rows' quantities |
| `BomGrouping.AggregateDistinctKeys` | merge_panel.py:190-207 | rows whose part types are already distinct each become a group of their own, in row order |
| `BomOutput.FlattenGroup` | merge_panel.py:220-222 | an output row is its group's kept row with `Designator` and `Quantity` replaced, and its quantity text reads back as the group's quantity |
| `BomOutput.FlattenGroupRefs` | merge_panel.py:221 | the joined designator text reads back as the group's designators |
| `BomOutput.FlattenGroupKey` | merge_panel.py:220-222 | an output row has the part type of its group's kept row |
| `BomOutput.Flatten` | merge_panel.py:219-223 | one output row per group, in the grouping's insertion order |
| `BomOutput.FlattenBom` | merge_panel.py:210-223 | the flattening loop produces those rows |
| `BomOutput.AggregatedBom` | merge_panel.py:188-223 | the merged BOM has one row per group |
| `BomOutput.LoadedGroupable` | merge_panel.py:206-207 | components as `load_bom` leaves them have the designator and integer quantity the aggregation reads |
| `BomOutput.AggregatedBomRow` | merge_panel.py:188-223 | output row `m` is for the `m`-th part type seen: its designators read back as all designators of that type in order, its quantity as their number, and its other columns are the first such component's |
| `BomOutput.AggregatedBomDistinctParts` | merge_panel.py:199-223 | no two output rows share a part type, so aggregating again merges nothing |
| `BomOutput.ExtendNamesSpec` | merge_panel.py:213-217 | extending the column list keeps it in front, adds exactly the new keys, and adds each only once |
| `BomOutput.ExtendNamesOrder` | merge_panel.py:215-217 | the added columns come after the given ones in first-seen order: of two new keys, the one met first is placed first |
| `BomOutput.ExtendNamesAppend` | merge_panel.py:215-217 | extending by two key lists is extending by one and then the other |
| `BomOutput.AddColumns` | merge_panel.py:215-217 | the loop appends each key that is not yet in the list |
| `BomOutput.BomFieldNames` | merge_panel.py:211-217 | the columns are computed as the source does: the fixed five, then the first merged row's other keys |
| `BomOutput.FieldNamesAsWritten` | merge_panel.py:211-217 | the source's columns start with the fixed five, repeat none, and cover the first merged row's keys |
| `BomOutput.AllBomFieldNames` | merge_panel.py:211-217 | the corrected loop takes the fixed five, then every merged row's other keys, first seen first |
| `BomOutput.AllFieldNamesSpec` | merge_panel.py:211-217 | the corrected columns start with the fixed five, repeat none, cover every key of every row and extend the source's list |
| `BomOutput.AllFieldNamesAccepted` | merge_panel.py:236-240 | the BOM writer accepts every flattened row under the corrected columns |
| `BomOutput.FirstRowFieldNamesRejected` | merge_panel.py:211-240 | two designs with different BOM columns make the writer reject the source's column list |
| `BomOutput.U1Grouped` | merge_panel.py:188-207 | two components of one part type fall into one group listing both designators, with quantity 2 |
| `BomOutput.OnePartOnTwoBoards` | merge_panel.py:188-223 | `B1_U1` and `B2_U1` of one part type become one row "B1_U1, B2_U1" with quantity "2" |
| `Pipeline.LoadDesignValid` | merge_panel.py:133-136 | a loaded design has designators and layers on its placements, and one component per reference with quantity 1 |
| `Pipeline.SourceData` | merge_panel.py:123-136 | every design a layout instance names is loaded, as the instance loop requires |
| `Pipeline.LoadSources` | merge_panel.py:123-136 | loading the designs in any order of `unique_paths` gives the same map |
| `Pipeline.MergePanel` | merge_panel.py:123-223 | the whole merge gives the placements, the aggregated BOM, the columns lines 211-217 compute from the first merged row, and the corrected all-rows columns that the BOM writer always accepts |
| `Pipeline.PanelQuantity` | merge_panel.py:144-207 | the groups' quantities total the number of merged component rows |

## Left out

- `select_file` and the tkinter root: these are user interface code.
- Opening, reading and writing CSV files: the model takes rows already read and
  returns the row lists the writers would be given. Encoding handling and
  `csv.DictReader`'s extra-field key are left out too.
- Parsing the `.gerberset` XML: the layout is an ordered list of `Instance`
  values (path, X offset, Y offset, angle).
- `rotate_point`: floating-point trigonometry is a function parameter, `rotate`.
  The translation is exact real addition, not IEEE floating-point addition. The
  rigid-motion and identity properties of the transform depend on
  the trigonometry, so they are not proved.
- The `:.4f` / `:.1f` formatting of the output numbers: `Placed` holds the numbers
  themselves.
- `float()` in `load_positions`: the parsers are parameters returning `Option`.
  Rotations and instance angles are whole degrees. Fractional angles are not
  modelled.
- `int(float(row["Quantity"]))`: quantities are integers (`Count`), which is what
  `load_bom` stores.
- The dead `qty_str` / `try` block in `load_bom`.
- The iteration order of the `unique_paths` set: it only orders the file prompts,
  and `LoadSources` shows that the loaded map is the same in any order.
- Progress messages printed to the console.
- Missing columns in the input rows: the source's `KeyError` crashes are
  preconditions (`HasCoordinateColumns`, `Placeable`, `ReadableFiles`). Missing
  design data for an instance is the precondition `Covers`.
- Aggregating the flattened output a second time: its `Quantity` cells are text,
  and the model does not parse them. The fact behind the idempotence is proved
  at the level of part keys instead (`AggregatedBomDistinctParts` and
  `AggregateDistinctKeys`).

## Findings

| source | as written | input that shows it | evidently intended | confidence | as-written member | corrected member |
|---|---|---|---|---|---|---|
| merge_panel.py:213-217 | the BOM columns are the fixed five plus the keys of the first merged BOM row only | two designs whose BOM files have different columns, e.g. only the second has `Manufacturer`; the second design's group row carries a column missing from the field names, and `csv.DictWriter` (default `extrasaction='raise'`) raises at line 240 | the other columns of every merged row are preserved, as the comment on line 212 says | medium, not executed | `BomOutput.FirstRowFieldNamesRejected` | `BomOutput.AllFieldNamesAccepted` |
