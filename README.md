# Supersonic emission surrogate — a Dafny model

The repository estimates how an aircraft emission scenario changes the ozone
column (in Dobson units, DU) or the radiative forcing (in mW/m²). A scenario is
a cruise altitude, a mapping from species to emission magnitude, and a region
(the Transatlantic Corridor or the South Arabian Sea). The estimate is the sum
of two terms:

- the **altitude term**, a second-order Taylor polynomial fitted around
  18.3 km, with a bias correction when the reference altitude is not 18.3 km;
- the **emission term**, where each species' sensitivity is interpolated from
  a table over altitude, multiplied by its magnitude and summed. In Ozone mode
  the sum is converted from mDU to DU.

Tables are read from CSV files. `prepare_data` adds four derived columns to
them: `Mean`, `Range`, `Max_val` and `Min_val`.

The model has four evaluators. Each one keeps the checks, the order of those
checks and the error causes of its source, except where "## Left out" and
"## Findings" say otherwise. These exceptions are: the reload in
`ozone_model/taylor_model.py`, which always fails as written and is modelled
with the tables it evidently means; the legacy evaluator's corrected
coefficient lookup; and the three header columns a region string could name.
The evaluators are:

- **the mode-aware engine** (`response_model`): tables come from a store keyed
  by mode. An altitude outside the table gives a warning, not an abort;
- **the ozone package's Taylor model** (`ozone_model/taylor_model.py`): tables
  are passed in and an out-of-range altitude is fatal. It also has the
  closed-form "single" variant with a per-species breakdown;
- **the legacy ozone evaluator** (`ozone_model/model.py`): an absolute-altitude
  polynomial and a minimum-two-rows check;
- **the stand-alone script** (`main.py`): placeholder rows are filtered out,
  values are linearly extrapolated, and the case is dispatched on arrays.

Arithmetic is over `real`. Every table is a sequence of rows passed in as a
value. An exception becomes the `Err` case of a `Result`, with one `Error`
constructor per cause. The loops of the source are `method`s with `while` and
`for` loops, each proved equal to a recursive specification function. The
properties are proved about those functions.

Modules:

| module | file | models |
|---|---|---|
| `TableModel` | tables.dfy | modes, errors, columns, rows, the altitude bounds of a table |
| `Interpolation` | interpolation.dfy | sorting by altitude, `np.interp` (clamping) and `interp1d` with linear extrapolation |
| `ReadData`, `OzoneReadData` | read_data.dfy | `prepare_data` and the two `load_data` dispatches |
| `Taylor` | taylor.dfy | the coefficient lookup by substring, the bias-corrected polynomial |
| `EmissionResponse` | emission_response.dfy | per-species sensitivity and the accumulator loop shared by the interpolating engines |
| `ResponseModel` | response_model.dfy | `response_model/taylor_model.py` |
| `OzoneTaylorModel` | ozone_taylor_model.dfy | `ozone_model/taylor_model.py` |
| `OzoneLegacyModel` | ozone_legacy_model.dfy | `ozone_model/model.py` |
| `MainScript` | main_script.dfy | `main.py` |

Points of the code that the model keeps:

- The Taylor-model engines take the first matching row (`.iloc[0]`) and do
  not check that it is the only one. Only the legacy evaluator's
  `float(Series)` needs exactly one match.
- In `ozone_model/taylor_model.py`, `calculate_delta_F` raises the range
  `Warning` as an exception. That aborts the call, unlike the mode-aware
  engine's warning.
- pandas decides whether a column exists for the whole table, whatever rows
  a mask or filter selects. So a region that names no column of the table is
  a KeyError even when no row matches. The coefficient lookups and the
  script's curve test the column first (`TableModel.TaylorHasColumn`,
  `MainScript.HasColumn`).

## Model

| member | source | states |
|---|---|---|
| `TableModel.ParseMode` | src/response_model/read_data.py:45-46 | only "Ozone" and "Radiative_Forcing" are accepted, and each parses back to the mode it names; any other string is the ValueError `UnknownMode(s)` |
| `TableModel.ColumnNamed` | src/response_model/taylor_model.py:96 | the region string names a column whose header is that string; it names no column exactly when it is not one of the six headers |
| `TableModel.ColumnNamedText` | src/response_model/taylor_model.py:96 | naming a column by its header gives back that column |
| `TableModel.Column` | src/response_model/taylor_model.py:96 | `row[region]` exists exactly for a corridor, or for a derived column of a prepared row; anything else is the KeyError case |
| `TableModel.TaylorHasColumn` | src/response_model/taylor_model.py:32-41 | `region in taylor_df.columns` holds for both corridors in every Taylor table |
| `TableModel.RowsOf` | src/response_model/taylor_model.py:86 | the selection keeps exactly the table's rows of that species, and no more rows than the table |
| `TableModel.RowsOfEmpty` | src/response_model/taylor_model.py:86-89 | the species' selection is empty exactly when the species is not in `Emission.unique()` |
| `TableModel.MinAltitude` | src/response_model/taylor_model.py:73-74 | `z_min` is at most every row's altitude |
| `TableModel.MaxAltitude` | src/response_model/taylor_model.py:73-74 | `z_max` is at least every row's altitude |
| `TableModel.AltitudeBounds` | src/response_model/taylor_model.py:73-74 | the bounds fail (as `min()` of an empty column does) exactly for an empty table; otherwise every row lies between them |
| `TableModel.BoundsAttained` | src/response_model/taylor_model.py:73-74 | both bounds are altitudes of some row, so they are tight |
| `TableModel.BoundsWithin` | src/response_model/taylor_model.py:76 | the test `z_min <= z <= z_max` holds exactly when z lies between the lowest and the highest altitude of the table |
| `Interpolation.Insert` | src/response_model/taylor_model.py:92 | inserting a point adds exactly that point to the multiset |
| `Interpolation.InsertSorted` | src/response_model/taylor_model.py:92 | inserting into a sorted sequence keeps it sorted |
| `Interpolation.SortByX` | src/response_model/taylor_model.py:92 | `sort_values("Altitude_km")` returns a permutation of the points that is sorted by altitude |
| `Interpolation.InsertStrict` | src/response_model/taylor_model.py:92 | inserting a point with a new altitude keeps the altitudes strictly increasing |
| `Interpolation.SortStrict` | src/response_model/taylor_model.py:92 | points with pairwise distinct altitudes sort to strictly increasing altitudes |
| `Interpolation.Interp` | src/response_model/taylor_model.py:99 | `np.interp` on points sorted by altitude never leaves the range of the tabulated values: some tabulated value lies at or below the result and some at or above it |
| `Interpolation.InterpAtBreakpoint` | src/response_model/taylor_model.py:99 | at a breakpoint `np.interp` returns that breakpoint's value |
| `Interpolation.InterpBelow` | src/response_model/taylor_model.py:99 | at or below the first altitude the value is clamped to the first value |
| `Interpolation.InterpAbove` | src/response_model/taylor_model.py:99 | at or above the last altitude the value is clamped to the last value |
| `Interpolation.InterpBetween` | src/response_model/taylor_model.py:99 | between two neighbouring breakpoints the value is the straight line through them |
| `Interpolation.LerpAtEnds` | src/response_model/taylor_model.py:99 | the line through two points passes through both of them |
| `Interpolation.LerpWithin` | src/response_model/taylor_model.py:99 | on a segment the line stays between the segment's two values |
| `Interpolation.Extrapolate` | src/main.py:24-25 | `interp1d` with `fill_value='extrapolate'` fails only with `NotFinite`, and only when two neighbouring breakpoints share an altitude (a zero-width segment) |
| `Interpolation.ExtrapolateDefined` | src/main.py:24-25 | on strictly increasing altitudes `interp1d` never yields a non-finite value |
| `Interpolation.ExtrapolateBetween` | src/main.py:24-25 | between two neighbouring breakpoints `interp1d` is the line through them |
| `Interpolation.ExtrapolateAtBreakpoint` | src/main.py:24-25 | at a breakpoint `interp1d` returns that breakpoint's value |
| `Interpolation.ExtrapolateAbove` | src/main.py:24-25 | above the last altitude the last segment's line is extended |
| `Interpolation.ExtrapolateBelow` | src/main.py:24-25 | below the first altitude the first segment's line is extended; when that segment is not flat the result differs from the clamped value |
| `Interpolation.InteriorAgreement` | src/main.py:24-25 | inside the altitude range the extrapolating and the clamping interpolations agree |
| `Interpolation.SortedThroughPoints` | src/response_model/taylor_model.py:91-99 | after sorting points of distinct altitudes, both interpolations return each original point's value at its altitude |
| `Interpolation.Segment` | src/response_model/taylor_model.py:99 | an altitude inside the range lies on some segment between neighbouring breakpoints |
| `ReadData.Derive` | src/response_model/read_data.py:20-23 | `Mean` is the midpoint of the corridors; `Range` is their distance and is never negative; `Min_val <= min <= Mean <= max <= Max_val`; `Max_val - Min_val == 2·Range`; both bounds are `Range` away from `Mean` |
| `ReadData.PrepareCells` | src/response_model/read_data.py:19-23 | the corridor values are unchanged, and the four derived columns hold the values of `Derive` |
| `ReadData.PrepareSensitivity` | src/response_model/read_data.py:5-25 | every row keeps its species, altitude and corridor values, gains the four columns, and stays in the same position |
| `ReadData.PreparedSpecies` | src/response_model/read_data.py:17-25 | preparing a table keeps exactly the species it lists |
| `ReadData.PrepareTaylor` | src/response_model/read_data.py:5-25 | every Taylor row keeps its Parameter and corridor values and gains the four columns |
| `ReadData.LoadData` | src/response_model/read_data.py:45-69 | an unknown mode is `UnknownMode`; otherwise load_data returns the mode's two tables, raw when `prepare` is false and prepared when it is true |
| `OzoneReadData.LoadData` | src/ozone_model/read_data.py:17-27 | load_data always returns the two tables, prepared when `prepare` is true and unchanged otherwise |
| `Taylor.Pattern` | src/response_model/taylor_model.py:34 | the f-string pattern starts with the order ("1st order Altitude", "2nd order Altitude"), is longer than the order and the mode name together, and ends with the mode's name, which parses back to the same mode |
| `Taylor.ContainsInfix` | src/response_model/taylor_model.py:34 | a Parameter text holding the pattern anywhere matches `str.contains` |
| `Taylor.FirstMatch` | src/response_model/taylor_model.py:32-36 | the index found is the first row containing the pattern; there is none exactly when no row contains it |
| `Taylor.FirstMatchSameParameters` | src/response_model/taylor_model.py:32-41 | tables with the same Parameter column, such as a raw and a prepared one, have the same first match |
| `Taylor.MatchCount` | src/ozone_model/model.py:27-28 | the number of matching rows is at most the table's length, and it is zero exactly when no row matches |
| `Taylor.FirstCoefficient` | src/response_model/taylor_model.py:32-41 | a column the table lacks is a KeyError, whichever rows match; with the column present, no matching row is `MissingCoefficient`; the lookup succeeds exactly when the column exists and some row matches, with the region value of the first matching row |
| `Taylor.ModeCoefficients` | src/response_model/taylor_model.py:32-41 | both coefficients are found exactly when the table has the column and each pattern matches some row; a missing column is `UnknownColumn`, else a missing first-order row is `MissingCoefficient` of the 1st pattern, else a missing second-order row that of the 2nd; the values are the region cells of the first matching rows |
| `Taylor.BiasCorrected` | src/response_model/taylor_model.py:25-51 | the term is `raw(z-18.3) - raw(ref-18.3)`: zero at `z == ref`, and the plain polynomial when `ref == 18.3` |
| `Taylor.Rebase` | src/response_model/taylor_model.py:47-51 | changing the reference only shifts the curve by a constant |
| `Taylor.Factored` | src/response_model/taylor_model.py:42-51 | the term is `(z-ref)·(a + b·((z+ref)/2 - 18.3))`, the closed form of the difference |
| `Taylor.BiasCorrectedMidpoint` | src/response_model/taylor_model.py:42-51 | the term is linear in the coefficients: midpoint coefficients give the average of the two terms |
| `Taylor.TaylorTerm` | src/response_model/taylor_model.py:25-53 | the altitude term succeeds exactly when both coefficients are found, reports the first lookup error otherwise, equals the bias-corrected polynomial, and is 0 at the reference |
| `EmissionResponse.Points` | src/response_model/taylor_model.py:95-96 | the altitude and value pairs exist exactly when every row has the region column; they are built row by row, in order |
| `EmissionResponse.Curve` | src/response_model/taylor_model.py:86-96 | the species' points sorted by altitude: as many as the species' rows, and a permutation of their points |
| `EmissionResponse.SensitivityAt` | src/response_model/taylor_model.py:86-99 | as a lookup over all species: `UnknownEmission(s)` exactly for a species absent from the table; in a corridor every present species has a sensitivity |
| `EmissionResponse.SpeciesSensitivity` | src/response_model/taylor_model.py:84-99 | absent species is `UnknownEmission` exactly when it is not in the table; a missing column is KeyError; a corridor with the species always succeeds; a success is `np.interp` on the sorted curve |
| `EmissionResponse.SensitivityAtBreakpoint` | src/response_model/taylor_model.py:91-99 | at the altitude of one of the species' rows, with distinct altitudes, the sensitivity is that row's value |
| `EmissionResponse.SensitivityClamps` | src/response_model/taylor_model.py:91-99 | at or beyond the species' lowest or highest altitude the sensitivity is the value of that end row |
| `EmissionResponse.SumLoop` | src/response_model/taylor_model.py:83-107 | the accumulator loop returns the specified sum over the entries, or the first lookup error |
| `EmissionResponse.AccumulateStep` | src/response_model/taylor_model.py:84-105 | one more entry adds its contribution, or ends the sum with its lookup error |
| `EmissionResponse.Accumulate` | src/response_model/taylor_model.py:83-105 | the loop fails only with the error that the lookup gives for one of the dictionary's species |
| `EmissionResponse.SumContributions` | src/response_model/taylor_model.py:83-105 | the emission sum over a table fails only with the sensitivity error of one of the dictionary's species |
| `EmissionResponse.AccumulatePrefixError` | src/response_model/taylor_model.py:88-89 | once an entry fails, the whole term fails with that error and no partial sum is returned |
| `EmissionResponse.AccumulateAppend` | src/response_model/taylor_model.py:83-105 | the sum over two concatenated lists of entries is the sum of the two sums, the first error winning |
| `EmissionResponse.AccumulateDefined` | src/response_model/taylor_model.py:84-89 | the sum succeeds exactly when every listed species has a sensitivity |
| `EmissionResponse.AccumulateSameLookup` | src/response_model/taylor_model.py:83-105 | two lookups that agree on the listed species give the same sum |
| `EmissionResponse.AccumulateSingle` | src/response_model/taylor_model.py:101-105 | one entry contributes `x·s/1000` in Ozone mode and `x·s` otherwise |
| `EmissionResponse.ContributionAdditive` | src/response_model/taylor_model.py:101-105 | a contribution is additive in its magnitude |
| `EmissionResponse.AccumulateReplace` | src/response_model/taylor_model.py:83-105 | replacing one magnitude changes the sum by exactly the old contribution removed and the new one added |
| `EmissionResponse.AccumulateAround` | src/response_model/taylor_model.py:83-105 | the sum over `before + [e] + after` is the sum over `before`, plus e's contribution, plus the sum over `after` |
| `EmissionResponse.AccumulateAddMagnitude` | src/response_model/taylor_model.py:83-107 | adding d to one magnitude adds exactly that species' contribution of d: the term is linear in each magnitude |
| `EmissionResponse.UnknownSpeciesAborts` | src/response_model/taylor_model.py:84-89 | a species absent from the table fails the whole emission term |
| `EmissionResponse.SingleSpeciesAtBreakpoint` | src/response_model/taylor_model.py:91-105 | one species at one of its row altitudes contributes the magnitude times that row's value, converted by the mode |
| `ResponseModel.AltitudeTerm` | src/response_model/taylor_model.py:22-53 | an unknown mode is `UnknownMode`; the term is 0 when the altitude equals the reference |
| `ResponseModel.FileCoefficient` | src/response_model/taylor_model.py:32-41 | on the raw file the lookup succeeds exactly when the name is a column of the prepared table and some row matches; a non-column is `UnknownColumn`, a missing row `MissingCoefficient`; a corridor value is the region cell of the first matching row |
| `ResponseModel.FileAltitudeTerm` | src/response_model/taylor_model.py:32-51 | the term succeeds exactly when both raw-file coefficients do, reports the first-order lookup's error first, is the bias-corrected polynomial of the two values, and is 0 at the reference |
| `ResponseModel.AltitudeTermFromFile` | src/response_model/taylor_model.py:22-51 | for every region string, the term equals the bias-corrected polynomial of the coefficients in the first matching rows of the mode's raw Taylor file, read after the derived columns are added; a name that is no column of the prepared table is a KeyError, and otherwise the first missing pattern is the error |
| `ResponseModel.AltitudeTermDefaultReference` | src/response_model/taylor_model.py:27-51 | with the default reference of 18.3 km the correction vanishes, and the term is `a·(z-18.3) + b·(z-18.3)²/2` |
| `ResponseModel.MeanCoefficient` | src/response_model/read_data.py:20 | a coefficient read from the Mean column exists exactly when the corridor one does, and it is the average of the two corridor coefficients |
| `ResponseModel.MeanFileAltitudeTerm` | src/response_model/taylor_model.py:32-51 | the Mean column's altitude term is the average of the two corridor terms |
| `ResponseModel.MeanAltitudeTerm` | src/response_model/taylor_model.py:22-53 | the same for the engine's altitude term, called with region "Mean" |
| `ResponseModel.EmissionTermSpec` | src/response_model/taylor_model.py:70-107 | an unknown mode is `UnknownMode`; an empty table is `EmptyTable` |
| `ResponseModel.RangeFlag` | src/response_model/taylor_model.py:72-80 | the in-range flag holds exactly when the altitude lies within the raw table's altitudes, so the flag stands for the warning |
| `ResponseModel.EmissionTerm` | src/response_model/taylor_model.py:70-107 | calculate_delta_F_emissions returns the specified term and flag |
| `ResponseModel.OutOfRangeStillComputed` | src/response_model/taylor_model.py:76-80 | with a valid mode, a non-empty table, a corridor and species that are all present, the term is computed at every altitude, inside the range or not |
| `ResponseModel.NoEmissions` | src/response_model/taylor_model.py:83-107 | an empty emissions mapping gives an emission term of 0 |
| `ResponseModel.AbsentSpeciesFails` | src/response_model/taylor_model.py:84-89 | an emission species absent from the mode's table fails the term |
| `ResponseModel.EmissionTermOf` | src/response_model/taylor_model.py:70-107 | the term succeeds exactly when the accumulated sum over the mode's prepared table does; its value is that sum, and its flag is the raw table's range test |
| `ResponseModel.EmissionTermLinear` | src/response_model/taylor_model.py:101-107 | adding d to one magnitude adds exactly d times that species' sensitivity (divided by 1000 in Ozone mode) and keeps the flag |
| `ResponseModel.DeltaFSpec` | src/response_model/taylor_model.py:110-139 | calculate_delta_F succeeds exactly when both terms do; the altitude term's error comes first, and with the altitude term found the emission term's error is the result; a success is the altitude term plus the emission term, with the emission term's flag |
| `ResponseModel.Total` | src/response_model/taylor_model.py:136-139 | the sum succeeds exactly when both parts do, with the altitude error first, then the emission error; a success adds the two values and keeps the emission term's range flag |
| `ResponseModel.DeltaF` | src/response_model/taylor_model.py:126-139 | the method returns the specified total |
| `ResponseModel.NoChangeAtReference` | src/response_model/taylor_model.py:127-139 | at the reference altitude with no emissions the total is 0 |
| `OzoneTaylorModel.AltitudeTerm` | src/ozone_model/taylor_model.py:18-36 | an unknown mode is ValueError; the term succeeds exactly when both coefficients are found, equals the bias-corrected polynomial, and is 0 at `ref_km` |
| `OzoneTaylorModel.EmissionTermSpec` | src/ozone_model/taylor_model.py:53-77 | an unknown mode is ValueError; an empty mapping gives 0 |
| `OzoneTaylorModel.EmissionTerm` | src/ozone_model/taylor_model.py:53-77 | the accumulator loop on the passed table returns the specified term |
| `OzoneTaylorModel.EmissionTermDefined` | src/ozone_model/taylor_model.py:58-73 | with a corridor region, the term succeeds exactly when every listed species is in the table |
| `OzoneTaylorModel.DeltaFSpec` | src/ozone_model/taylor_model.py:96-123 | the checks run in order: mode, then an empty table, then the fatal range `Warning` outside the passed table's altitudes, then the altitude term's error, then the emission term's; the call succeeds exactly when the mode is valid, the altitude lies within the passed table and both terms succeed; a success is the altitude term on the passed Taylor table plus the emission term on the mode's table |
| `OzoneTaylorModel.Sum` | src/ozone_model/taylor_model.py:106-121 | the total succeeds exactly when both terms do, reports the altitude term's error first, and is their sum |
| `OzoneTaylorModel.AsWrittenDeltaFFails` | src/ozone_model/taylor_model.py:106-116 | as written, no call returns a value: a call that passes the mode, range and altitude-term checks fails at the three-name unpacking of load_data's pair, and every other call fails as the corrected `DeltaFSpec` does |
| `OzoneTaylorModel.UnpackLoaded` | src/ozone_model/taylor_model.py:109-110 | unpacking load_data's pair of tables into three names is the ValueError `UnpackMismatch(3, 2)`, whatever the tables hold |
| `OzoneTaylorModel.AsWrittenDeltaFSpec` | src/ozone_model/taylor_model.py:96-123 | calculate_delta_F as written (checks, altitude term, reload, emission term) never returns a value |
| `OzoneTaylorModel.DeltaF` | src/ozone_model/taylor_model.py:96-123 | the method returns the specified total |
| `OzoneTaylorModel.DeltaFAtReference` | src/ozone_model/taylor_model.py:106-123 | at `ref_km` with no emissions the total is 0 |
| `OzoneTaylorModel.ClosedForm` | src/ozone_model/taylor_model.py:175-181 | the hard-coded interpolation gives the odd row's value at 16.2 km (offset 0) and the even row's value at 20.4 km (offset 4.2) |
| `OzoneTaylorModel.ClosedFormIsLine` | src/ozone_model/taylor_model.py:158-181 | the closed form is the straight line through (16.2, lower) and (20.4, upper), taken at the new altitude: `Lerp` and `Extrapolate` of those two points, and `Interp` of them between 16.2 and 20.4 km |
| `OzoneTaylorModel.PairCurve` | src/ozone_model/taylor_model.py:60-70 | a species whose rows are one at 20.4 km and one at 16.2 km has the curve of those two points, the 16.2 km one first |
| `OzoneTaylorModel.ClosedFormAgreesWithInterp` | src/ozone_model/taylor_model.py:175-181 | from 16.2 to 20.4 km, the closed form of a species' row pair is the clamped interpolation over its rows that calculate_delta_F_emissions uses |
| `OzoneTaylorModel.ClosedFormsAgreeWithInterp` | src/ozone_model/taylor_model.py:175-181 | on a table whose labels 2k and 2k+1 hold the only rows of NO, SO or H2O, at 20.4 and 16.2 km, each entry of the dictionary is the general interpolated sensitivity from 16.2 to 20.4 km, both tabulated altitudes included |
| `OzoneTaylorModel.ClosedForms` | src/ozone_model/taylor_model.py:175-181 | the dictionary exists exactly when the table has row labels 0 to 5; otherwise the KeyError names the first missing odd row; it holds the keys NO, SO and H2O, each the closed form of its pair of rows |
| `OzoneTaylorModel.Extend` | src/ozone_model/taylor_model.py:186-192 | one pass of the loop fails exactly for a species absent from the table (ValueError) or without a closed form (KeyError); otherwise it stores the effect under the species and adds it to the running total |
| `OzoneTaylorModel.ExtendStored` | src/ozone_model/taylor_model.py:190-192 | a known species is stored with `x·s`, and the total grows by the same amount |
| `OzoneTaylorModel.SpeciatedStep` | src/ozone_model/taylor_model.py:186-192 | one more entry of the loop extends the previous state, or keeps its error |
| `OzoneTaylorModel.SpeciatedStored` | src/ozone_model/taylor_model.py:186-192 | a step on a known species stores its effect and adds it to the total |
| `OzoneTaylorModel.SpeciatedSum` | src/ozone_model/taylor_model.py:184-206 | the speciated loop succeeds exactly when every species is in the table and has a closed form |
| `OzoneTaylorModel.SpeciatedPrefixError` | src/ozone_model/taylor_model.py:187-188 | a failing prefix fails the whole loop with the same error |
| `OzoneTaylorModel.SpeciatedFirstError` | src/ozone_model/taylor_model.py:186-191 | the loop fails with the exception of the first entry it rejects: the ValueError of a species absent from the table, else the KeyError of a species with no closed form |
| `OzoneTaylorModel.FillSpeciated` | src/ozone_model/taylor_model.py:184-192 | the loop filling `delta_F_emissions` and the running total returns the specified breakdown |
| `OzoneTaylorModel.SpeciesOf` | src/ozone_model/taylor_model.py:186 | the keys the loop visits, in order |
| `OzoneTaylorModel.SpeciatedKeys` | src/ozone_model/taylor_model.py:184-191 | the dictionary's keys are exactly the species listed |
| `OzoneTaylorModel.SumOverUpdate` | src/ozone_model/taylor_model.py:191 | storing under one key leaves the sum over the other keys unchanged |
| `OzoneTaylorModel.ExtendAddsUp` | src/ozone_model/taylor_model.py:190-192 | one pass keeps the stored effects adding up to the running total |
| `OzoneTaylorModel.DistinctPrefix` | src/ozone_model/taylor_model.py:186 | the entries before the last of a dict-like list have distinct keys too |
| `OzoneTaylorModel.AddsUpStep` | src/ozone_model/taylor_model.py:186-192 | if the stored effects add up to the total before the last entry, they still do after it |
| `OzoneTaylorModel.SpeciatedAddsUp` | src/ozone_model/taylor_model.py:184-192 | for distinct species, every species is stored and the stored effects add up to the running total |
| `OzoneTaylorModel.Scaled` | src/ozone_model/taylor_model.py:197-198 | scaling keeps the keys |
| `OzoneTaylorModel.ScaleEntries` | src/ozone_model/taylor_model.py:197-198 | the in-place loop divides every entry by 1000 and keeps the keys |
| `OzoneTaylorModel.SumOverScaled` | src/ozone_model/taylor_model.py:195-198 | dividing every entry by 1000 divides their sum by 1000 |
| `OzoneTaylorModel.InUnits` | src/ozone_model/taylor_model.py:194-198 | in Ozone mode the total and every entry are divided by 1000; in RF mode they are unchanged; the keys stay the same |
| `OzoneTaylorModel.ConvertUnits` | src/ozone_model/taylor_model.py:195-198 | the `if mode == "Ozone"` conversion returns the specified values |
| `OzoneTaylorModel.InUnitsAddsUp` | src/ozone_model/taylor_model.py:194-198 | entries that added up to the total before the conversion still do after it |
| `OzoneTaylorModel.Assemble` | src/ozone_model/taylor_model.py:201-206 | the output has `Total == Altitude_term + Emissions_term` |
| `OzoneTaylorModel.SpeciatedValues` | src/ozone_model/taylor_model.py:186-192 | for distinct species, every species is stored with its own magnitude times its closed-form sensitivity |
| `OzoneTaylorModel.SingleTerms` | src/ozone_model/taylor_model.py:156-206 | the terms succeed exactly when both Taylor coefficients are found, row labels 0 to 5 of the mode's table exist and every emission species is in that table and has a closed form (`SingleDefined`); the coefficient error comes first (the KeyError of an unknown column, then the IndexError of a missing `.iloc[0]` row), then the KeyError `MissingRow` of the first missing odd label, then the error of the first rejected entry: `UnknownEmission` (the ValueError) before `NoClosedForm` (the KeyError); a success has the bias-corrected Taylor term of the mode's coefficients at `ref + change` against `ref`; for distinct species each speciated entry is the species' contribution `x·s` (divided by 1000 in Ozone mode) with s its closed-form sensitivity; with no altitude change the altitude term is 0 |
| `OzoneTaylorModel.SingleSpec` | src/ozone_model/taylor_model.py:139-208 | the checks run in order: mode, then a region that is not a corridor (ValueError), then an empty ozone table, then the fatal `Warning` when `ref + change` lies outside the ozone table, in either mode; the call succeeds exactly when all of these pass and the terms are defined (`SingleDefined`); past the checks the error is the coefficient error, then `MissingRow` of the first missing odd label, then the error of the first rejected emission entry; a success has `Total == Altitude_term + Emissions_term`; its altitude term is the bias-corrected Taylor term of the mode's coefficients at `ref + change` against `ref`, and 0 when there is no change; for distinct species each speciated entry is the species' contribution `x·s` (divided by 1000 in Ozone mode) with s its closed-form sensitivity at the new altitude |
| `OzoneTaylorModel.SingleRejectsEntry` | src/ozone_model/taylor_model.py:186-191 | with a valid mode and a corridor region, an emission species absent from the mode's table, or one with no closed form, fails the single call |
| `OzoneTaylorModel.AsWrittenSingleSpec` | src/ozone_model/taylor_model.py:139-141 | calculate_delta_F_single as written fails on every call with `UnpackMismatch(3, 2)`, because the reload's three-name unpacking comes before any check |
| `OzoneTaylorModel.ComputeSingleTerms` | src/ozone_model/taylor_model.py:156-206 | the coefficient lookup, the closed forms, the two loops and the conversion return the specified terms |
| `OzoneTaylorModel.DeltaFSingle` | src/ozone_model/taylor_model.py:139-208 | calculate_delta_F_single returns the specified breakdown |
| `OzoneTaylorModel.SingleTermsAddUp` | src/ozone_model/taylor_model.py:184-206 | for distinct species there is one speciated entry per species, and the entries add up to `Emissions_term`, in either unit |
| `OzoneTaylorModel.SingleSpeciatedSum` | src/ozone_model/taylor_model.py:184-206 | the same for the whole call to calculate_delta_F_single |
| `OzoneLegacyModel.UniqueCoefficient` | src/ozone_model/model.py:27-28 | `float(Series)`: a column the table lacks is a KeyError, before the matches are counted; with the column present, other than exactly one matching row is `CoefficientNotUnique`; the lookup succeeds exactly when the column exists and one row matches, with that row's region value |
| `OzoneLegacyModel.UniqueIsFirst` | src/ozone_model/model.py:27-28 | with a single match, this lookup is the first-match lookup |
| `OzoneLegacyModel.AsWrittenCoefficients` | src/ozone_model/model.py:27-28 | the lookup of the patterns "1st" and "2nd" as written succeeds only when each matches exactly one row |
| `OzoneLegacyModel.MatchCountTwo` | src/ozone_model/model.py:27-28 | two distinct rows holding the pattern make the match count at least two |
| `OzoneLegacyModel.AsWrittenAmbiguous` | src/ozone_model/model.py:27-28 | a table with a first-order row for each mode makes the lookup as written fail |
| `OzoneLegacyModel.OzoneCoefficients` | src/ozone_model/model.py:27-28 | the corrected lookup of the Ozone rows succeeds exactly when the table has the column and each Ozone pattern matches exactly one row |
| `OzoneLegacyModel.OzoneCoefficientsIntended` | src/ozone_model/model.py:27-28 | on such a table the corrected lookup gives the coefficients the Taylor-model engines use in Ozone mode |
| `OzoneLegacyModel.AbsoluteTerm` | src/ozone_model/model.py:29 | the polynomial on absolute altitude is 0 at z = 0 |
| `OzoneLegacyModel.AbsoluteIsUnshifted` | src/ozone_model/model.py:29 | it is the engines' polynomial with no baseline shift: the bias-corrected term taken 18.3 km higher |
| `OzoneLegacyModel.LegacySensitivity` | src/ozone_model/model.py:35-51 | fewer than two rows is "Not enough data", and so is an absent species, because this check runs before the "not found" check; otherwise the value is `np.interp` on the sorted rows |
| `OzoneLegacyModel.LegacyAt` | src/ozone_model/model.py:35-51 | as a lookup over all species: "Not enough data" exactly for a species with fewer than two rows, and otherwise the interpolated sensitivity |
| `OzoneLegacyModel.DeltaFSpec` | src/ozone_model/model.py:19-57 | an empty table and an altitude outside the table both fail, and the range ValueError is fatal; the call succeeds exactly when the altitude lies within the table, the coefficients are found and every species' sensitivity is; a coefficient error comes before any emission error; a success is the absolute term plus `Σ x·s/1000`, whatever the data's mode |
| `OzoneLegacyModel.LegacyTotal` | src/ozone_model/model.py:55-57 | the total succeeds exactly when both parts do, reports the coefficient error first and the emission error otherwise, and is their sum |
| `OzoneLegacyModel.DeltaF` | src/ozone_model/model.py:19-57 | the method and its loop return the specified total |
| `OzoneLegacyModel.LegacyAltitudeAgrees` | src/ozone_model/model.py:29 | with the corrected lookup, the legacy term is the mode-aware term in Ozone mode at z + 18.3 km, taken against the 18.3 km reference |
| `OzoneLegacyModel.LegacyEmissionsAgree` | src/ozone_model/model.py:32-52 | when every species has at least two rows, the legacy emission sum equals the Taylor-model engines' sum in Ozone mode |
| `OzoneLegacyModel.TooFewRowsFails` | src/ozone_model/model.py:37-41 | any species with fewer than two rows, an absent one included, fails the whole call |
| `MainScript.PrepareData` | src/main.py:5-17 | every row keeps its species, altitude cell and corridors, and gains the derived columns of `Derive` |
| `MainScript.PreparedColumns` | src/main.py:12-15 | after preparation every numeric column exists in every row |
| `MainScript.Measured` | src/main.py:20-23 | only rows of the species are kept, and no more rows than the table has; with `MeasuredKeeps`, every measured row of the species is kept |
| `MainScript.MeasuredKeeps` | src/main.py:20-21 | a row of the species with a numeric altitude is among the measured points: the filters drop nothing else |
| `MainScript.MeasuredAppend` | src/main.py:20-21 | the filter distributes over concatenation |
| `MainScript.PlaceholderIgnored` | src/main.py:21 | a '-' row never reaches the interpolation, wherever it sits |
| `MainScript.MeasuredColumns` | src/main.py:20-23 | a column of the whole table is a column of every row the filters keep |
| `MainScript.HasColumn` | src/main.py:23 | every corridor is a column of the script's table, so `valid_data[corridor]` finds it |
| `MainScript.SensitivityCurve` | src/main.py:19-24 | a column the table lacks is a KeyError, whatever the filters keep; with the column present, fewer than two numeric rows is rejected (interp1d needs two); the curve exists exactly in the remaining case, and then has as many points as numeric rows and is sorted |
| `MainScript.InterpolateSensitivity` | src/main.py:19-25 | the curve's error is the result's; the call succeeds exactly when the curve exists and interp1d gives a finite value at every altitude; a success has one value per altitude, the extrapolated curve's value there |
| `MainScript.EvaluateAll` | src/main.py:24-25 | the array result exists exactly when no element is non-finite, and element i is the extrapolated value at altitude i |
| `MainScript.CurveHoldsRows` | src/main.py:20-24 | the curve is a permutation of the numeric rows' points |
| `MainScript.EvaluateOne` | src/main.py:25 | a one-element array evaluates to its one extrapolated value |
| `MainScript.CurveThroughRows` | src/main.py:19-25 | with distinct altitudes the sensitivity at a measured altitude is that row's value |
| `MainScript.ExtendsLastSegment` | src/main.py:24-25 | above the last altitude the script extends the last segment's line rather than clamping |
| `MainScript.Lower` | src/main.py:36 | `str.lower` on ASCII: same length, capital letters lowered, everything else kept |
| `MainScript.LowerIdempotent` | src/main.py:36-39 | lowering twice is lowering once |
| `MainScript.ParseCase` | src/main.py:36-44 | the case is combined or individual exactly when its lowered text is "combined" or "individual" |
| `MainScript.Times` | src/main.py:38 | the element-wise product keeps the shape |
| `MainScript.Plus` | src/main.py:42 | the element-wise sum keeps the shape |
| `MainScript.Zeros` | src/main.py:34 | `np.zeros_like` has the shape of the altitudes |
| `MainScript.IndividualSum` | src/main.py:40-42 | the running `ozone_change +=` keeps the shape of the magnitudes |
| `MainScript.IndividualPrefixError` | src/main.py:40-42 | a failing species ends the loop with its error |
| `MainScript.IndividualSumStep` | src/main.py:40-42 | one more species adds its array times the magnitudes, or ends the sum with its error |
| `MainScript.SensitivitySum` | src/main.py:40-42 | the sum over the species succeeds exactly when every species' sensitivity does |
| `MainScript.IndividualPointwise` | src/main.py:40-42 | element i of the sum is the magnitude at i times the summed sensitivities of the species at that altitude: the same magnitude serves every species |
| `MainScript.IndividualSumFails` | src/main.py:40-42 | any species whose interpolation fails fails the individual case |
| `MainScript.ArrayAt` | src/main.py:19-25 | every array the script's interpolation yields has the altitudes' shape |
| `MainScript.ArrayAtElement` | src/main.py:19-25 | element i of the array interpolation is the interpolation at altitude i |
| `MainScript.CombinedChange` | src/main.py:36-38 | the combined case fails with the curve's error, and succeeds exactly when the "Generalized Fuel" curve exists and is finite at every altitude; a success is that sensitivity times the magnitude, element by element |
| `MainScript.OzoneChangeSpec` | src/main.py:27-46 | different shapes are a ValueError; an unknown case is a ValueError; a success keeps the shape; combined succeeds exactly when the fuel curve exists and is finite at every altitude, and is element-wise fuel sensitivity times magnitude; individual is the sum over NOx, SOx and H2O |
| `MainScript.IndividualCase` | src/main.py:39-42 | in the individual case, element i is the magnitude at i times the sum of the three species' sensitivities at altitude i |
| `MainScript.IndividualChange` | src/main.py:39-42 | the loop over NOx, SOx and H2O returns the specified sum |
| `MainScript.CalculateOzoneChange` | src/main.py:27-46 | calculate_ozone_change returns the specified result |

## Left out

- CSV reading and the file paths are not modelled. This covers `pd.read_csv` in both read_data files and `src/main.py:9`. Tables are values passed in; the mode-aware store holds the four parsed files.
- The module-level code in `src/main.py:48-60` is I/O at import time and printing. The scripts and tests only call the core and print.
- IEEE floating point is not modelled; all arithmetic is over `real`. A non-finite value appears in only one place: a zero-width segment of `interp1d`, which gives ±inf (or NaN when the two values agree) and is modelled as the `NotFinite` error. Because of that, a whole array with one such element fails, where numpy would return the array with that one non-finite element.
- The `warnings.warn` side channel is not modelled. It is the `inRange` flag of `ResponseModel.Estimate`.
- `prepare_data` is a function on the table value. It assigns the four columns in place, but only to a DataFrame it created itself, so no caller can observe the mutation.
- The merge-conflict markers in `src/response_model/read_data.py:28-35` are not modelled. The shared body of both versions is.
- `OzoneTaylorModel.DeltaFSpec`, `OzoneTaylorModel.SingleSpec`: the reloads at `src/ozone_model/taylor_model.py:110` and `:141` fail as written (see Findings). The corrected members take a `PackageTables` value for the three prepared tables the code evidently means. How the package would load a radiative-forcing table is not known, so `PackageTables` is a parameter rather than a loader. In `DeltaFSpec`:
  - the range check and the altitude term use the tables passed in;
  - the emission term uses the mode's table from `PackageTables`;
  - line 110 also rebinds `taylor_df` after its only use, which changes nothing.
- pandas and numpy are not modelled as libraries:
  - `str.contains` is plain substring search, because the patterns hold no regular-expression characters;
  - the order of `sort_values` between rows of equal altitude is unspecified. The breakpoint and clamping lemmas require distinct altitudes.
- `Taylor.FirstCoefficient`: the code takes the first match (`.iloc[0]`) and does not check uniqueness.
- `TableModel.ColumnNamed`: the header columns `Altitude_km`, `Emission` and `Parameter` are not modelled as columns a region can name; such a region is `NoSuchColumn`. The code would behave differently: `Altitude_km` as the region of a sensitivity table interpolates altitude against itself; `Emission` fails while being converted to numbers, not with a KeyError; and `Parameter` as the region of a Taylor table makes `float()` raise ValueError. With the corridors as regions, as documented, none of these arises.
- `TableModel.TaylorHasColumn`, `MainScript.HasColumn`, `EmissionResponse.Points`: rows carry no separate header, so a column exists when every row has it. An empty table therefore counts as having every numeric column. A table whose rows differ in their columns cannot come from the loaders, which give all rows the same columns.
- Default arguments are not modelled; every member takes all of its parameters. The defaults are `initial_emis_alt=18.3` and `ref_km=18.3`, `mode="Ozone"`, `prepare=False`, and in `src/main.py` `case='combined'` and `corridor='Transatlantic_Corridor'`. Only the 18.3 km default has a lemma of its own, `ResponseModel.AltitudeTermDefaultReference`.
- The emissions dictionary is a sequence of entries in insertion order. The speciated-sum lemmas require distinct species, which a Python dict guarantees.
- `MainScript.Lower` models `str.lower` on ASCII only.
- `MainScript.OzoneChangeSpec`: altitude and magnitude arrays are one-dimensional sequences. Scalar (0-d) and multi-dimensional arrays are not modelled, and shapes are compared by length.
- `OzoneLegacyModel.LegacySensitivity`: the "not found" check at `src/ozone_model/model.py:40-41` can never fire, because the two-row check before it already rejects an absent species. It has no branch of its own.
- `OzoneLegacyModel.DeltaFSpec` uses the corrected Ozone-row lookup (see Findings). The as-written lookup is modelled separately.
- `OzoneTaylorModel.ClosedForms`: the labels `df.loc[0..5]` are taken to be row positions 0 to 5 of a freshly loaded table, whose index is the default one.

## Findings

| source | as written | input that shows it | evidently intended | confidence | as-written member | corrected member |
|---|---|---|---|---|---|---|
| src/ozone_model/model.py:27-28 | the coefficients are looked up with `str.contains("1st")` and `str.contains("2nd")`, and the result goes to `float()`, which needs exactly one matching row | a Taylor table holding both "1st order Altitude Ozone" and "1st order Altitude Radiative_Forcing" rows, the layout the Taylor-model engines read: two rows match, so the lookup fails (TypeError) | look up the Ozone rows, "1st order Altitude Ozone" and "2nd order Altitude Ozone" | medium, not executed (the data file is not part of this model) | `OzoneLegacyModel.AsWrittenAmbiguous` | `OzoneLegacyModel.OzoneCoefficientsIntended` |
| src/ozone_model/taylor_model.py:109-110 | calculate_delta_F reloads the tables by unpacking `load_data(prepare=True)` into three names, but the package's load_data (src/ozone_model/read_data.py:27) returns two tables | any call with a valid mode, an altitude inside the passed table and a Taylor table holding the region's coefficients: the unpacking raises ValueError (not enough values to unpack), so the function never returns a value | the ozone sensitivity, the radiative-forcing sensitivity and the Taylor table, all prepared, for the emission term of the requested mode | high, not executed | `OzoneTaylorModel.AsWrittenDeltaFFails` | `OzoneTaylorModel.DeltaFSpec` |
| src/ozone_model/taylor_model.py:140-141 | calculate_delta_F_single starts by unpacking the same two-table result into three names | every call, whatever its arguments: the unpacking raises ValueError before any check | the same three prepared tables, from which the closed forms and the coefficients are read | high, not executed | `OzoneTaylorModel.AsWrittenSingleSpec` | `OzoneTaylorModel.SingleSpec` |
