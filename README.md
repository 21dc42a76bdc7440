# Stacked plot offsets and extent

This project models the stacking core of Plottable's abstract stacked plot
(`Abstract.Stacked`). The plot takes its datasets in stacking order and
reads a key and a numeric value from every datum. The key domain is the
union of all datum keys. For each dataset the plot builds one map from
every domain key to that dataset's value, with a missing key mapped to the
missing value 0. It splits every map into a positive part (max(0, v)) and
a negative part (min(v, 0)), and runs a zero-baseline stack layout over
each part. Every datum then gets one offset: the positive one when its
value is strictly positive, the negative one otherwise. The stacked extent
is [min(0, lowest value + offset), max(0, highest value + offset)]. The
plot registers that extent with its primary scale while it is anchored and
withdraws it otherwise. It restacks on a dataset change only once the
dataset order and both projectors exist.

The modules:

- `StackedSpec` (`stacked_spec.dfy`) holds the pure definitions.
  - The key domain, and the last value of duplicate keys in a dataset.
  - The default maps, the sign split, and the preceding sums that the
    zero-baseline stack produces.
  - The per-datum offset, the heights, and the extent.
  - Lemmas proving what these promise.
- `StackedPlot` (`stacked_plot.dfy`) holds the imperative part.
  - The loops building the domain, the default maps and the running sums.
  - The class `Stacked`, with its `stackedExtent` field and its per-datum
    offsets, and its update guard.
  - Registration of the extent with a `Scale`.
  - The loops and `Stack` are proved against the functions of
    `StackedSpec`. The scale registration is specified by the update of
    the scale's extent table. `StackReordered` goes through
    `StackedTotals`.
- `StackedTotals` (`stacked_totals.dfy`) characterises the extent by
  per-key column totals. From that it proves that, when no dataset repeats
  a key, restacking a permutation of the same datasets leaves the extent
  unchanged.
- `StackedScenarios` (`stacked_scenarios.dfy`) works through concrete
  inputs.

For {a: 3, b: -2} then {a: 1, b: 4}, the second dataset's offset is 3 at
"a" and 0 at "b": its value 4 is positive, and the only earlier value at
"b" is negative. The extent is [-2, 4] (`StackedScenarios.MixedSigns`).

## Model

| member | source | states |
|---|---|---|
| StackedSpec.KeysAreDatumKeys | src/components/plots/stackedPlot.ts:107-111 | a key is among one dataset's keys iff some datum of that dataset carries it |
| StackedSpec.DomainIsAllKeys | src/components/plots/stackedPlot.ts:101-111 | a key is in the domain iff some datum of some dataset carries it |
| StackedSpec.KeyInDomain | src/components/plots/stackedPlot.ts:107-111 | every datum's key is in the domain |
| StackedPlot.CollectDomainKeys | src/components/plots/stackedPlot.ts:101-111 | the nested loops over datasets and datums collect exactly the domain |
| StackedSpec.LastValueOfAbsentKey | src/components/plots/stackedPlot.ts:113-125 | a key no datum of the dataset carries keeps the missing value |
| StackedSpec.AbsentKeyMapsToZero | src/components/plots/stackedPlot.ts:143-145 | the missing value is 0: a domain key a dataset has no datum for maps to 0 in its default map |
| StackedSpec.LastValueOfLastDatum | src/components/plots/stackedPlot.ts:119-125 | with duplicate keys the last datum with the key wins |
| StackedPlot.GenerateDefaultMapArray | src/components/plots/stackedPlot.ts:100-128 | one map per dataset; every map's key set is the domain; each key maps to the dataset's last value there, or to the missing value 0 |
| StackedPlot.DefaultMapsDetermined | src/components/plots/stackedPlot.ts:100-128 | the maps are uniquely determined by the datasets |
| StackedSpec.SignSplit | src/components/plots/stackedPlot.ts:32-42 | the positive and negative parts keep the key set, are ≥ 0 and ≤ 0, add up to the value, and at most one is non-zero |
| StackedSpec.SignPartsKeys | src/components/plots/stackedPlot.ts:32-42 | splitting keeps the number of maps and their common key set |
| StackedPlot.StackLayout | src/components/plots/stackedPlot.ts:65-77 | one offset map per input map, same keys; each offset is the sum of the earlier maps' values at that key (first map: 0) |
| StackedSpec.SplitDefaultMapsColumn | src/components/plots/stackedPlot.ts:30-42 | the split default maps hold, at every domain key, the clamped last value of their dataset |
| StackedSpec.SplitColumnSum | src/components/plots/stackedPlot.ts:65-77 | the running sums over such a column equal the preceding sums of clamped last values |
| StackedPlot.LayoutGivesPrecedingSums | src/components/plots/stackedPlot.ts:30-44 | the layout over either split part gives every datum's key the preceding sum of that polarity |
| StackedSpec.PrecedingSumSign | src/components/plots/stackedPlot.ts:65-77 | positive offsets are never negative and negative offsets never positive |
| StackedSpec.PrecedingSumMonotone | src/components/plots/stackedPlot.ts:65-77 | positive sums grow and negative sums shrink as datasets are added |
| StackedSpec.StackOffsetSign | src/components/plots/stackedPlot.ts:32-44 | the first dataset's offsets are 0; a positive datum's offset is ≥ 0, a zero or negative datum's ≤ 0 |
| StackedSpec.SegmentEndsAtNextOffset | src/components/plots/stackedPlot.ts:65-77 | the last datum at a key ends where the next dataset's offset of its polarity starts |
| StackedSpec.NoOverlap | src/components/plots/stackedPlot.ts:32-44 | the last datum with its key in a dataset ends at or before where every later dataset's segment of its polarity starts |
| StackedPlot.Stacked.SetDatasetStackOffsets | src/components/plots/stackedPlot.ts:83-98 | one offset per datum; the positive one iff the value is > 0 (0 takes the negative one) |
| StackedSpec.MaxOf | src/components/plots/stackedPlot.ts:46-50 | the result is one of the heights and no height exceeds it |
| StackedSpec.MinOf | src/components/plots/stackedPlot.ts:52-56 | the result is one of the heights and no height is below it |
| StackedSpec.ExtentOf | src/components/plots/stackedPlot.ts:58 | two ends with lo ≤ 0 ≤ hi, every height inside, each end zero or an actual height |
| StackedSpec.HeightOfDatum | src/components/plots/stackedPlot.ts:46-56 | every datum's value + offset is among the heights the max and min range over |
| StackedSpec.DatumOfHeight | src/components/plots/stackedPlot.ts:46-56 | every height is some datum's value + offset |
| StackedSpec.HeightsAreDatumHeights | src/components/plots/stackedPlot.ts:46-56 | a number is a height iff it is some datum's value + offset |
| StackedSpec.HeightsEmpty | src/components/plots/stackedPlot.ts:46-56 | there is no height iff every dataset is empty |
| StackedSpec.ExtentFramesEveryDatum | src/components/plots/stackedPlot.ts:46-58 | every datum's value + offset lies within the extent |
| StackedPlot.Stacked.constructor | src/components/plots/stackedPlot.ts:14 | the extent starts as [0, 0] |
| StackedPlot.Stacked.Stack | src/components/plots/stackedPlot.ts:25-59 | every datum's offset is the preceding sum of its polarity; every value + offset lies in the extent; with a datum, the extent is [min(0, min), max(0, max)] of the heights |
| StackedPlot.Stacked.OnDatasetUpdate | src/components/plots/stackedPlot.ts:17-23 | restacks iff the dataset order and both projectors exist; otherwise offsets and extent are unchanged |
| StackedPlot.Scale.UpdateExtent | src/components/plots/stackedPlot.ts:137 | the extent is recorded under (plot id, attribute), nothing else changes |
| StackedPlot.Scale.RemoveExtent | src/components/plots/stackedPlot.ts:139 | the entry under (plot id, attribute) is withdrawn, nothing else changes |
| StackedPlot.Stacked.UpdateScaleExtents | src/components/plots/stackedPlot.ts:130-141 | on the y scale when vertical, else the x scale: registers the extent when anchored and non-empty, removes it otherwise; no primary scale, no change |
| StackedPlot.StackTwice | src/components/plots/stackedPlot.ts:25-59 | stacking the same datasets again leaves the same offsets and, when there is a datum, the same extent |
| StackedTotals.LastDatumOf | src/components/plots/stackedPlot.ts:119-125 | a key whose value differs from the missing value has a last datum carrying that value |
| StackedTotals.TotalIsReached | src/components/plots/stackedPlot.ts:65-77 | a non-zero column total of one polarity is the height at which some datum of that polarity ends |
| StackedTotals.HeightSign | src/components/plots/stackedPlot.ts:83-98 | a positive height belongs to a positive datum, a negative height to a zero or negative datum |
| StackedTotals.TotalsWithinExtent | src/components/plots/stackedPlot.ts:46-58 | every column total of either polarity lies within the extent |
| StackedTotals.EndIsATotal | src/components/plots/stackedPlot.ts:46-58 | with unique keys per dataset, a non-zero end of the extent is a column total of that end's polarity |
| StackedTotals.ExtentIsColumnTotals | src/components/plots/stackedPlot.ts:46-58 | with unique keys per dataset, hi is the largest positive column total or 0, and lo the smallest negative column total or 0 |
| StackedTotals.TotalOfPermutation | src/components/plots/stackedPlot.ts:65-77 | column totals do not depend on the order of the datasets |
| StackedTotals.DomainOfPermutation | src/components/plots/stackedPlot.ts:101-111 | the domain does not depend on the order of the datasets |
| StackedTotals.ExtentIgnoresOrder | src/components/plots/stackedPlot.ts:25-59 | with unique keys per dataset, any permutation of the datasets gives the same extent |
| StackedPlot.StackReordered | src/components/plots/stackedPlot.ts:25-59 | on the class: with unique keys per dataset, stacking a permutation of the datasets leaves the same extent |
| StackedScenarios.MixedSigns | src/components/plots/stackedPlot.ts:25-59 | {a: 3, b: -2} then {a: 1, b: 4}: offsets [[0, 0], [3, 0]], extent [-2, 4] |
| StackedScenarios.MissingKeyCountsAsZero | src/components/plots/stackedPlot.ts:113-125 | a dataset lacking a key contributes 0 there to later offsets |
| StackedScenarios.AllZero | src/components/plots/stackedPlot.ts:25-59 | all values zero: all offsets 0, extent [0, 0] |
| StackedScenarios.RepeatedKeyDependsOnOrder | src/components/plots/stackedPlot.ts:25-59 | {a: 5, a: -1} then {a: 3} gives extent [-1, 5]; the reverse order gives [-1, 8] |
| StackedScenarios.EarlierDuplicateOverlaps | src/components/plots/stackedPlot.ts:119-125 | {a: 5, a: 1} then {a: 3}: the second dataset starts at 1, inside the first datum's segment [0, 5] |
| StackedScenarios.SingleValue | src/components/plots/stackedPlot.ts:25-59 | one datum of value 5: offset 0, extent [0, 5] |

## Left out

- The d3 internals are abstracted. `d3.set`, `d3.map` and `_Util.Methods.populateMap` become Dafny sets and maps. `d3.layout.stack` becomes the running-sum loop `StackLayout`, matched by key. d3 matches by position, but every map is built from the same domain in the same insertion order, so position and key agree.
- Offsets go into a parallel field, `offsets[i][j]` for datum j of dataset i, instead of a hidden property on each datum object. Aliasing between datum objects (one object in two datasets) is not modelled.
- The `_stack` layout fills each map's `offset` in place and returns the same maps. Here it returns new offset maps with the same keys.
- The superclass calls in `_onDatasetUpdate` and `_updateScaleExtents` belong to the plot framework, which is not part of this model.
- The projectors, the orientation switch and the key and value accessors are resolved by the caller. Datasets arrive as (key, value) pairs, already in stacking order. `_isVertical`, the projectors, the anchoring and the plot id are method parameters.
- Values are unbounded integers. JavaScript's floating point, NaN and non-numeric values are not modelled. Keys are strings, because d3 maps key by string conversion.
- `_missingValue` is the constant 0 (`MissingValue`). The subclass override it allows is not modelled.
- Stack: when no dataset holds a datum, the contract keeps only `Valid()` for the extent: two ends with zero between them. The source takes the max and min of empty arrays through `_Util.Methods`, which is not part of this model. The body sets the extent to [0, 0].
- NoOverlap: holds only for the last datum with its key in its dataset. An earlier duplicate keeps its own height but is not in the key maps, so a later dataset's segment can overlap it (`StackedScenarios.EarlierDuplicateOverlaps`).
- StackTwice: the extent is proved equal only when some datum exists, for the same reason.
- StackLayout: requires every map to share one key set. `Stack` always calls it that way, since every default map's key set is the domain.
- ExtentIsColumnTotals, ExtentIgnoresOrder and StackReordered assume no dataset repeats a key. With a repeated key, the earlier duplicates still make heights of their own, and those can depend on the order (`StackedScenarios.RepeatedKeyDependsOnOrder`).
- The `Scale` collaborator is reduced to its table of registered extents. How a scale combines the extents into its domain is not modelled.
- Rendering and animation are out of scope.
