# Zone classification and BPI rounding of bathy-derivatives

This project models the core of `BPI_functions.py` from the bathy-derivatives
toolset. It covers two parts:

- the benthic zone classifier `classifyBPI`, with its range predicate `run_con`;
- the per-cell rounding `Int(x + 0.5)` used by `bpi` (raw bathymetric
  position index) and `stdbpi` (standardized BPI).

A raster is a flat sequence of cells. All rasters of one run have the same
length (same extent and alignment). Input rasters are `seq<real>`. Masks and
zone rasters are `seq<int>`.

Modules:

- `RangePredicate` (`range_predicate.dfy`) models `run_con`. The engine's
  `Con(in, true, false, where)` is a cell-wise select. The true value is an
  explicit variant: a constant class id, the raster of an earlier stage, or
  Python's `None`. `Qualifies` is the reference reading of one criterion.
- `Classification` (`classification.dfy`) models `classifyBPI`. It has three
  methods, one per loop of the source:
  - the rule loop, which registers zone names and collects masks;
  - the first-write-wins merge;
  - the cursor loop over the merged raster's attribute table.

  `ClassifyBpi` ties them together. Its contract states the result against
  `Winner`, a declarative reference: the class id of the first rule, in table
  order, that constrains something, holds at the cell and has a nonzero id.
  It also states the labels against `ZoneKey.Label`. The error
  `NoValidClasses` is a `Failure` result.
- `ZoneKey` (`zone_key.dfy`) models the zone key. The source keys its
  dictionary by `str(class)`, so the model renders ids in decimal (`Str`) and
  proves the rendering injective. A lookup by text therefore equals the
  reference label: the last zone registered for the id, else `"None"` for 0,
  else `"No Matching Zone"`.
- `Bpi` (`bpi.dfy`) models the cell formulas of `bpi` and `stdbpi`. The
  engine's `Int` truncates toward zero. The focal mean, the global mean and the
  standard deviation are inputs.

The rounding `Int(x + 0.5)` is round-half-up only for `x >= -0.5`. Below that,
truncation toward zero moves the result one step up unless `x + 0.5` is
whole. The raster functions `RawBpi` and `StdBpi` keep the code's rounding. One
might expect `floor(x + 0.5)` for negative differences, but truncation does
not give that. See "## Findings".

## Model

| member | source | states |
|---|---|---|
| `RangePredicate.Effective` | BPI_functions.py:84-86 | A missing true value is replaced by `true_alt`; a present one is kept as it is |
| `RangePredicate.RunCon` | BPI_functions.py:75-105 | With any bound set, a cell gets the true value iff it qualifies and 0 otherwise: strictly between two bounds, `>=` a lone lower bound, `<=` a lone upper bound. With no bound, a raster true value comes back unchanged and a constant one gives no raster (`None`). The result is aligned with the input |
| `RangePredicate.BoundaryExcluded` | BPI_functions.py:88-93 | With both bounds set, a cell lying exactly on either bound gets 0 |
| `Classification.RuleMask` | BPI_functions.py:130-145 | The four chained calls (depth, slope, fine BPI, broad BPI) give no raster iff all four ranges are open. Otherwise a cell holds the class id iff every constrained criterion holds there, and 0 otherwise |
| `Classification.Masks` | BPI_functions.py:123-147 | The collected grids are aligned with the inputs, at most one per rule. The list is empty iff every rule leaves all four ranges open |
| `Classification.MasksAppend` | BPI_functions.py:125-147 | Collecting grids over two parts of the table in turn gives the concatenation of the two lists |
| `Classification.RulePrefixStep` | BPI_functions.py:125-147 | One turn of the rule loop appends the rule's mask, if it has one, to `grids`. It registers the rule's zone under its class id, whether or not a mask results |
| `Classification.EvaluateRules` | BPI_functions.py:122-147 | After the rule loop, `grids` holds the masks of the rules that yield one, in table order. The key is the seed `'0' -> 'None'` updated by every rule in order |
| `Classification.FirstHitIsFirstNonzero` | BPI_functions.py:171-173 | A merged cell is 0 iff every grid is 0 there. Otherwise it equals the value of the first grid, in order, that is nonzero there |
| `Classification.FirstHitSnoc` | BPI_functions.py:173 | Merging one more grid changes a cell only where the accumulated value is 0, and then takes the new grid's value |
| `Classification.ClassifiedCellsStay` | BPI_functions.py:171-173 | A cell already nonzero after some grids is never changed by later grids |
| `Classification.MergeGrids` | BPI_functions.py:170-173 | The fold over `grids` yields, at every cell, the first nonzero value among the grids, or 0 |
| `Classification.MergedMasksAreWinner` | BPI_functions.py:125-173 | Merging the masks gives, at every cell, the class id of the first rule in table order that constrains something, holds at the cell and has a nonzero id; otherwise 0 |
| `Classification.TableRows` | BPI_functions.py:177-178 | The attribute-table rows hold every value of the merged raster exactly once |
| `Classification.LabelZones` | BPI_functions.py:177-185 | Every distinct value of the merged raster gets a label: the key's entry for its text, or `"No Matching Zone"` when the key has none. No other value gets a label |
| `Classification.ClassifyBpi` | BPI_functions.py:112-187 | On rasters with at least one cell: fails with `NoValidClasses` iff every rule leaves all four ranges open; the empty table is included. Otherwise the zone raster is aligned with the inputs and each cell holds the first matching rule's class id. Each distinct value is labelled with the reference label |
| `ZoneKey.DigitChar` | BPI_functions.py:126 | A decimal digit is rendered as the character for that digit |
| `ZoneKey.NatStr` | BPI_functions.py:126 | `str` of a non-negative integer is a non-empty run of decimal digits. A number of 10 or more takes at least two, and only 0 starts with `'0'` |
| `ZoneKey.Str` | BPI_functions.py:126 | `str` of an integer is non-empty and starts with `'-'` exactly for negative values |
| `ZoneKey.NatStrInjective` | BPI_functions.py:126 | Two non-negative integers with the same decimal text are equal |
| `ZoneKey.StrInjective` | BPI_functions.py:126 | Two class ids with the same text are equal, so distinct ids never share a key |
| `ZoneKey.KeyOf` | BPI_functions.py:124-129 | The key built from the table always holds the seed entry `'0'` |
| `ZoneKey.LastZone` | BPI_functions.py:129 | There is a registered zone for a value iff some rule carries that class id |
| `ZoneKey.LastOccurrenceWins` | BPI_functions.py:125-129 | A repeated class id keeps the zone name of its last occurrence in the table |
| `ZoneKey.LookupIsLabel` | BPI_functions.py:124-129 | Looking up `str(v)` in the built key gives the reference label. That is the last zone registered for `v`, including rules later skipped; else `"None"` for 0; else `"No Matching Zone"` |
| `Bpi.Int` | BPI_functions.py:49 | The engine's `Int` truncates toward zero |
| `Bpi.RoundAsWritten` | BPI_functions.py:49 | `Int(x + 0.5)` rounds half up for `x >= -0.5`. Below -0.5 it lies in `[x + 0.5, x + 1.5)` |
| `Bpi.RoundHalfUp` | BPI_functions.py:49 | The intended rounding: the unique integer in `(x - 0.5, x + 0.5]` |
| `Bpi.AsWrittenAgreesAboveMinusHalf` | BPI_functions.py:49 | For `x >= -0.5` the source's rounding equals round-half-up |
| `Bpi.AsWrittenBiasedBelowMinusHalf` | BPI_functions.py:49 | For `x < -0.5` with `x + 0.5` not whole, the source's rounding is one more than round-half-up |
| `Bpi.AsWrittenCounterexample` | BPI_functions.py:49 | A difference of -2 rounds to -1, and -1.2 rounds to 0. Round-half-up gives -2 and -1 |
| `Bpi.IntMonotone` | BPI_functions.py:49 | Truncation never reverses the order of two values |
| `Bpi.RoundAsWrittenMonotone` | BPI_functions.py:49 | `Int(x + 0.5)` never reverses the order of two values |
| `Bpi.RawBpi` | BPI_functions.py:41-49 | Raw BPI is an integer raster aligned with the bathymetry. Each cell is `Int((bathy - focalMean) + 0.5)`, stated as bounds on the difference |
| `Bpi.StdBpi` | BPI_functions.py:56-69 | Standardized BPI is an integer raster aligned with the input. Each cell is `Int(((bpi - mean) / std) * 100 + 0.5)`, stated as bounds on the score. It requires a nonzero deviation, as the code divides unchecked |
| `Bpi.StdBpiMonotone` | BPI_functions.py:63-69 | With a positive deviation, standardizing keeps the order of the cells |

## Left out

- The vector ruggedness measure `terrug` (BPI_functions.py:190-224) is not modelled. It is floating-point trigonometry, `sqrt` and powers over rasters, and its window sums are the engine's `FocalStatistics`.
- Engine operations are inputs, not models: `NbrAnnulus`, `FocalStatistics`, `raster_properties` (mean and deviation), `Slope`. So is `Con`'s handling of NoData cells. NoData cells are not modelled.
- File and table I/O is left out: `CopyRaster_management`, `save_raster`, `AddField_management`, `Delete_management` and the `BtmDocument` CSV parsing. The classification table is given as a sequence of rules. A saved raster is modelled by its value. The cursor's `setValue('Zone', …)` is the `labels` map.
- The diagnostic loop that builds a warning string for a skipped rule (BPI_functions.py:150-165) is left out. The string is never emitted, so it has no observable effect. Its test at line 160 reads as `vmin or (vmax is not None)`. Progress and debug messages (`utils.msg`, `config.debug`) are left out too.
- The source passes the class id to the first `Con` as its decimal text. The model assumes the engine reads it as the integer constant.
- Class ids are integers. A `Class` column read as a float would render as `"3.0"` and miss the key; that case is not modelled.
- RangePredicate.RunCon: requires a true value whenever a bound is set. `Con` with a `None` true value is engine-defined, and no caller of the source passes one.
- Bpi.StdBpi: there is no `DegenerateInput` error for a zero deviation. The code divides without a check, so the model requires a nonzero deviation instead of returning an error.
- Radius validation for `bpi` is left out, because the code does none and the annulus is built by the engine.
- Floating-point arithmetic is modelled with exact reals. This covers the `Minus`, `Plus(…, 0.5)`, `Divide` and `Times` of BPI_functions.py:49 and 68-69, and the bound comparisons of lines 90-99. With floats, `Int(x + 0.5)` can come out differently near the .5 boundaries. A cell lying within rounding error of a bound can also compare differently.
- Classification.ClassifyBpi: requires at least one cell. On a merged raster with an empty attribute table, such as an all-NoData merge, the cursor loop binds no `row`. The source then fails at `del(row)` (BPI_functions.py:187), and the model does not describe that failure.
- Classification.EvaluateRules: keeps every mask by value. The source saves each mask to `con_<zone name>.tif` (BPI_functions.py:146) with overwriting enabled (line 116). So two rules with the same zone name write the same file. An earlier entry of `grids` can then read the later rule's mask, or the save can fail on a locked file. The merge order in the model never sees this.
- ARCrugosity.py, arcChordIndex.py and BPI.py are not part of this model. They are TIN, buffer and interpolation plumbing, and a driver script with fixed paths.

## Findings

| source | as written | input that shows it | evidently intended | confidence | as-written member | corrected member |
|---|---|---|---|---|---|---|
| BPI_functions.py:49 | `Int(x + 0.5)`, where the `Int` tool truncates toward zero | a bathymetry-minus-focal-mean difference of -2.0 gives -1, and -1.2 gives 0 | round half up, `floor(x + 0.5)`: -2 and -1 | medium (it depends on `Int` truncating, as the tool is documented to do), not executed | `Bpi.AsWrittenCounterexample` | `Bpi.RoundHalfUp` |
| BPI_functions.py:68-69 | the same idiom on the standardized score | a score of -250.0 gives -249 | `floor(score + 0.5)`: -250 | medium, not executed | `Bpi.AsWrittenBiasedBelowMinusHalf` | `Bpi.RoundHalfUp` |

`RawBpi` and `StdBpi` keep the rounding the code has, so that they match the code. `Bpi.RoundHalfUp` is the corrected rounding, with its defining property proved. `Bpi.AsWrittenAgreesAboveMinusHalf` shows the two agree wherever the value is at least -0.5.
