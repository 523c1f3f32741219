# Compression-stocking SKU engine, modelled in Dafny

The repository is a small web tool for ordering medical compression stockings. A fitter enters
four measurements in centimetres: ankle, calf, thigh and leg length. They also pick four options:
thigh or knee length, bronze or black, open or closed toe, compression Class 1 or Class 2.

From these, `SKUGenerator` does the following:

- puts the leg length into a sub-length class, Petite or Normal;
- picks a size 1..8 from the ankle band, probing the neighbouring sizes when the ankle is a
  whole number;
- ranks the candidate sizes by how well calf, thigh and leg length fit the row of the size
  catalog;
- decides whether the extended "G+" thigh cut is needed;
- scores its confidence in the size, with a list of out-of-range measurements;
- assembles the 7-character code `XXYYZWV`: class prefix, two-digit style code, colour digit, toe
  digit, size digit.

The catalog `sizeLookupTable` is a constant. A maintenance page (`SizeTableEditor`) edits one
range cell of it at a time, validates the `min-max` text, and cancels or saves the working copy.

The model has six modules in five files, one module per concern.

**`wrappers.dfy`**
- `Wrappers.Option` stands in for JavaScript's `undefined`.
- `Numerals` handles decimal spelling and the reading of digit runs.

**`size_lookup.dfy` (module `SizeLookup`)**
- The catalog as a constant of type `Table`, which maps stocking length to class to an ordered
  list of `SizeRow`s.
- Facts about the catalog: eight rows per list, indexed by size; every range non-empty; how the
  C and G columns relate; ranges that grow with size.

**`sku_generator.dfy` (module `SkuGenerator`)**
- The engine, written as specification functions with all-inputs contracts.
- `determineSize` and `generateSKU` are also written as imperative methods, each proved equal to
  its specification function. They keep the source's pushes onto `potentialSizes`, the
  best-so-far loop, and the successive `sku +=`.

**`catalog_facts.dfy` (module `SkuOnCatalog`)**
- What the engine does on the shipped catalog: the ankle bands of the rows, knee requests, the
  thigh gap between C and G, the lost thigh Petite list, and worked requests end to end.

**`maintenance.dfy` (module `Maintenance`)**
- The range-text validator and parser.
- The update of one row of the table.
- The editor as a class whose methods update its fields in place.

Measurements are exact `real`s. Every thrown `Error` is an `Err` of `SkuError`, one constructor
per message. The catalog is passed as a parameter; the engine needs `TableRangesValid`
(`min < max` in every range), which is proved for the catalog and kept by every editor operation.

### Behaviour of the code worth knowing

- **Ranking score.** The candidate score is the unweighted sum `calfFit + thighFit + lengthFit`
  (js/skuGenerator.js:311-316). The ankle is not scored, and the thigh fit is added even for knee
  rows, where it is 0.
- **Leg-length classes.** They are 62–71 and 72–83 whatever the stocking length
  (js/skuGenerator.js:75-77).
- **Thigh entry.** The confidence result always carries a thigh entry, including for knee rows.
- **Confidence messages.** They use a plain hyphen.
- **Candidates for a whole-number ankle.** Ankle 21 lies in size 2's band (19, 21], so the
  candidates are sizes 1, 2 and 3.
- **Duplicate key.** The second `'Normal'` literal under `thigh_length` replaces the first, as in
  a JavaScript object literal. No thigh Petite list exists, and thigh leg lengths are 72–83.

## Model

| member | source | states |
|---|---|---|
| `SkuGenerator.DetermineInitialSize` | js/skuGenerator.js:48-56 | Succeeds exactly when 17 ≤ ankle ≤ 33, giving a size in 1..8. Otherwise the error is `AnkleOutOfRange`. By first-match order, 30 < ankle ≤ 31 is size 7, not 8. |
| `SkuGenerator.DetermineLengthType` | js/skuGenerator.js:75-77 | "Petite" iff 62 ≤ l ≤ 71. "Normal" iff 72 ≤ l ≤ 83. No other class is ever returned. Anything else, the gap (71, 72) included, is `LegLengthOutOfRange`. |
| `SkuGenerator.DetermineStockingCode` | js/skuGenerator.js:89-99 | Succeeds iff the length is thigh or knee, else `InvalidLength`. The code has two digits and decodes back to the requested style (G+ only for thigh), so no two styles share a code. |
| `SkuGenerator.DecodeStyle` | js/skuGenerator.js:89-99 | The legend of the two-digit codes: each names a thigh or knee style, and G+ only on thigh codes. |
| `SkuGenerator.StyleCodeRoundTrip` | js/skuGenerator.js:89-99 | Each code of the legend is the one `determineStockingCode` writes for the style it stands for, so the style encoding is a bijection onto the legend. |
| `SkuGenerator.CalculateDeviation` | js/skuGenerator.js:111-113 | For min < max: never negative, and 0 exactly when the value lies in [min, max]. |
| `SkuGenerator.DeviationCountsRangeWidths` | js/skuGenerator.js:111-112 | A value k range widths below min or above max deviates by exactly k. |
| `SkuGenerator.DeviationGrowsWithDistance` | js/skuGenerator.js:111-112 | The deviation strictly grows with distance from the range, on either side. |
| `SkuGenerator.CalculateFitScore` | js/skuGenerator.js:132-146 | Always in [0, 3]. In (2, 3] strictly inside the range, and 3 exactly at the midpoint. 1 on either bound. 0 outside. |
| `SkuGenerator.FitScoreSymmetric` | js/skuGenerator.js:134-139 | The fit score is symmetric about the midpoint. |
| `SkuGenerator.FitScoreRisesTowardMidpoint` | js/skuGenerator.js:134-139 | Between min and the midpoint the score strictly rises. |
| `SkuGenerator.FitScoreOpt` | js/skuGenerator.js:312 | Against a range a knee row lacks, the thigh fit is 0 (comparisons with `undefined` fail). It always lies in [0, 3]. |
| `SkuGenerator.TotalFit` | js/skuGenerator.js:311-316 | A candidate's total lies in [0, 9]. It is 9 iff the row has a thigh range and calf, thigh and leg length are all strictly inside their ranges, at the midpoints. |
| `SkuGenerator.DeviationOpt` | js/skuGenerator.js:202 | Against a missing range the deviation is 0. Otherwise it is ≥ 0, and 0 exactly when the value is within. |
| `SkuGenerator.Candidates` | js/skuGenerator.js:290-298 | A non-integer ankle probes only its own size. A whole-number ankle probes exactly {s−1 if s > 1, s, s+1 if s < 8}, in strictly ascending order. |
| `SkuGenerator.BestFit` | js/skuGenerator.js:306-319 | The size the loop settles on is one of the candidates and has a row in the list. |
| `SkuGenerator.BestFitStep` | js/skuGenerator.js:317-319 | One more candidate replaces the best so far iff it has a row and either no best exists yet (score −Infinity) or its total is strictly higher. |
| `SkuGenerator.BestFitNoneIffNonePresent` | js/skuGenerator.js:306-308 | No size is chosen exactly when no candidate has a row. |
| `SkuGenerator.BestFitIsFirstMaximum` | js/skuGenerator.js:306-319 | The chosen size is the first candidate whose total strictly beats every earlier one and is not beaten later. |
| `SkuGenerator.BestFitFindsFirstMaximum` | js/skuGenerator.js:306-319 | Conversely, the first strict maximum is the size the loop chooses. |
| `SkuGenerator.IsGPlus` | js/skuGenerator.js:328-333 | G+ happens only for thigh stockings on a row with a C range, with the thigh outside that range. On a valid row the thigh then adds 0 to the total. |
| `SkuGenerator.SizeList` | js/skuGenerator.js:307 | The two-level lookup finds a list iff both keys exist. On a valid table the list's ranges are non-empty. |
| `SkuGenerator.SizeListFoundAsWritten` | js/skuGenerator.js:281-282 | The one-level lookup as written: on any table whose top-level keys are stocking lengths, it misses for both Petite and Normal. |
| `SkuGenerator.Entry` | js/skuGenerator.js:186-192 | A deviation entry carries the deviation of its value against its range. |
| `SkuGenerator.Entries` | js/skuGenerator.js:185-214 | There are four entries (ankle, calf, thigh, length), each consistent with its range. |
| `SkuGenerator.InsertByDeviation` | js/skuGenerator.js:222 | Insertion keeps the multiset of entries. |
| `SkuGenerator.SortByDeviation` | js/skuGenerator.js:217-222 | Sorting keeps the multiset of entries. |
| `SkuGenerator.InsertKeepsSorted` | js/skuGenerator.js:222 | Insertion into a descending list keeps it descending. |
| `SkuGenerator.SortIsSorted` | js/skuGenerator.js:222 | The sort's result is in descending deviation order. |
| `SkuGenerator.WithDeviationAppend` | js/skuGenerator.js:222 | Selecting the entries with a given deviation distributes over concatenation. |
| `SkuGenerator.WithDeviationNone` | js/skuGenerator.js:222 | When nothing has deviation d, selecting by d gives nothing. |
| `SkuGenerator.WithDeviationSingle` | js/skuGenerator.js:222 | Selecting from one entry keeps it iff its deviation is d. |
| `SkuGenerator.InsertIsStable` | js/skuGenerator.js:222 | Insertion puts an entry after the existing entries of equal deviation. |
| `SkuGenerator.SortIsStable` | js/skuGenerator.js:222 | The sort is stable, as `Array.prototype.sort` is: entries of equal deviation keep ankle, calf, thigh, length order. |
| `SkuGenerator.Positive` | js/skuGenerator.js:225 | Keeps exactly the entries with deviation > 0, preserving descending order. |
| `SkuGenerator.Improvements` | js/skuGenerator.js:224-235 | There are never more messages than entries, and none when no entry deviates. |
| `SkuGenerator.ImprovementsDescribePositive` | js/skuGenerator.js:224-235 | There is one improvement per positive entry, in the same order. Each names the entry, and says "below" iff value < min and "above" iff value > max. |
| `SkuGenerator.MaxDeviation` | js/skuGenerator.js:237 | At least every deviation, and equal to one of them. |
| `SkuGenerator.MaxDeviationOfPermutation` | js/skuGenerator.js:237 | Reordering the entries leaves the maximum unchanged. |
| `SkuGenerator.ScoreBand` | js/skuGenerator.js:240-258 | 100 iff the maximum is 0. ≥ 90 iff ≤ 0.1. ≥ 75 iff ≤ 0.2. ≥ 60 iff ≤ 0.3. ≥ 40 iff ≤ 0.5. Otherwise 20. The score is one of the six band values. |
| `SkuGenerator.PerfectIffAllWithin` | js/skuGenerator.js:240-242 | The largest deviation is 0 iff every measurement is within its range on the row. |
| `SkuGenerator.ConfidenceRow` | js/skuGenerator.js:155-168 | A row is scored iff the size and class are set, the list exists and the size is within it. The row scored is entry size − 1 of the list, and on a valid table its ranges are non-empty. |
| `SkuGenerator.ScoreRow` | js/skuGenerator.js:185-265 | On one row the score lies in 20..100, and the score and the message are those of the band of the largest deviation. It is 100 iff all measurements are within. The deviations are the four entries, stably sorted descending. The improvements describe exactly the positive ones. |
| `SkuGenerator.CalculateConfidence` | js/skuGenerator.js:155-168 | A missing size, class, list or row gives score 0 with no deviations or improvements. Otherwise the result is the pipeline over that row. |
| `SkuGenerator.ImprovementText` | js/skuGenerator.js:228-232 | The message starts with the measurement's name and reads "below" or "above" according to the side. |
| `SkuGenerator.ChooseSize` | js/skuGenerator.js:306-334 | None iff no candidate has a row. Otherwise the size is the first strict maximum among the candidates, and the G+ flag is computed from that same row. |
| `SkuGenerator.SizeDetermination` | js/skuGenerator.js:279-351 | No list gives `InvalidLegLengthType`, checked before the ankle. A bad ankle gives `AnkleOutOfRange`. With a list and a good ankle, the result is Ok iff the candidate walk chooses a size, and `NoAppropriateSize` iff it chooses none. The size (1..8) and its G+ flag are the walk's choice, and the confidence is that of the chosen size. |
| `SkuGenerator.SizeDeterminationFromChoice` | js/skuGenerator.js:337-351 | When the lookup and the ankle succeed and the walk chooses a size, the result is exactly that size and G+ flag with the confidence, message and improvements of that size. |
| `SkuGenerator.PotentialSizes` | js/skuGenerator.js:286-298 | The pushes build exactly the candidate list. |
| `SkuGenerator.EvaluateCandidates` | js/skuGenerator.js:300-335 | The loop over the candidates ends with the chosen size and its G+ flag, or with none. |
| `SkuGenerator.DetermineSize` | js/skuGenerator.js:279-351 | The method's result is `SizeDetermination`'s. |
| `SkuGenerator.ValidOptions` | js/skuGenerator.js:362-373 | The options accepted are exactly those the SKU can write: the length has a style code, and the class prefix, colour digit and toe digit decode back to the option. |
| `SkuGenerator.ClassPrefix` | js/skuGenerator.js:381 | Two characters, decoding back to Class 1 or Class 2. |
| `SkuGenerator.ColorDigit` | js/skuGenerator.js:383 | One character, decoding back to bronze or black. |
| `SkuGenerator.ToeDigit` | js/skuGenerator.js:384 | One character, decoding back to open or closed. |
| `SkuGenerator.DecodeSku` | js/skuGenerator.js:381-385 | The inverse of the SKU format: whatever it reads has a size in 1..8 and a legend style, and writing those fields out again gives the same SKU. |
| `SkuGenerator.DecodeAssembledSku` | js/skuGenerator.js:381-385 | An assembled SKU has 7 characters and decodes back to class, style, colour, toe and size. |
| `SkuGenerator.SkuGeneration` | js/skuGenerator.js:359-395 | Options are checked in order: length, colour, toe, class. Then the leg length, then size determination, whose errors pass through. A result has valid options, a size in 1..8, and a 7-character SKU that decodes to the request and its G+ flag. |
| `SkuGenerator.SkuGenerationFromChoice` | js/skuGenerator.js:376-394 | For a valid request whose lookup, ankle and candidate walk succeed: the result carries the chosen size and its G+ flag, the class, the confidence of that size, and the SKU built as prefix, style code, colour digit, toe digit and size digit. |
| `SkuGenerator.ConfidenceOfChoice` | js/skuGenerator.js:155-168 | For a size with a row in the looked-up list, the confidence is the score of that row. |
| `SkuGenerator.GenerateSku` | js/skuGenerator.js:359-395 | The method's result is `SkuGeneration`'s. |
| `Numerals.NatToString` | js/skuGenerator.js:385 | A number's spelling is a digit run, one character below 10. |
| `Numerals.DigitsValueOfNatToString` | js/maintenance.js:196 | Reading a spelled number back gives the number. |
| `SizeLookup.CatalogKeys` | js/sizeLookup.js:2-47 | The keys are thigh {Normal} and knee {Petite, Normal}. The thigh Normal list is the second literal (leg length 72–83), not the first. |
| `SizeLookup.CatalogIndexedBySize` | js/sizeLookup.js:14-45 | Every list has 8 rows, and row i holds size i + 1. |
| `SizeLookup.CatalogRangesValid` | js/sizeLookup.js:15-44 | Every range of every surviving row has min < max. |
| `SizeLookup.CatalogThighColumns` | js/sizeLookup.js:15-44 | Thigh rows have C and G, with C_max < G_min. Knee rows have neither. |
| `SizeLookup.CatalogKneeLengths` | js/sizeLookup.js:15-44 | Leg-length ranges are 20–38 for knee Petite, 39–50 for knee Normal and 72–83 for thigh Normal. |
| `SizeLookup.ThighNormalAscending` | js/sizeLookup.js:15-22 | Ankle, calf and length ranges never shrink from one size to the next. |
| `SizeLookup.KneeAscending` | js/sizeLookup.js:27-44 | The same holds for both knee lists. |
| `SkuOnCatalog.CatalogListsAreTheSurvivors` | js/sizeLookup.js:3-46 | Exactly three lists are reachable through the lookup. Thigh Petite is not one of them. |
| `SkuOnCatalog.AnkleColumnsAgree` | js/sizeLookup.js:15-44 | All three lists share the ankle column. |
| `SkuOnCatalog.AnkleBands` | js/skuGenerator.js:48-55 | The A band of each catalog row, lower bound excluded above size 1, is the band the if-chain tests for that size. |
| `SkuOnCatalog.InitialSizeIsFirstMatchingBand` | js/skuGenerator.js:48-55 | The initial size is s iff the ankle lies in row s's band and in no earlier band. This covers the overlapping bands of sizes 7 and 8. |
| `SkuOnCatalog.RejectedAnkleInNoBand` | js/skuGenerator.js:48-56 | An ankle is rejected iff no row's band contains it. |
| `SkuOnCatalog.KneeLengthNeverFits` | js/skuGenerator.js:75-76 | On a knee row, every leg length the classifier accepts has length fit 0 and deviation > 0.5. |
| `SkuOnCatalog.KneeConfidenceIsPoor` | js/skuGenerator.js:237-258 | Every knee confidence on the catalog is 20. |
| `SkuOnCatalog.KneeSkuIsPoorFit` | js/skuGenerator.js:359-395 | A knee SKU always reports confidence 20 and never G+. |
| `SkuOnCatalog.ThighGapNeitherFitsNorGPlus` | js/skuGenerator.js:328-333 | A thigh strictly between C_max and G_min fits C with 0, deviates from C, and earns no G+. |
| `SkuOnCatalog.GPlusThighScoresNoThighFit` | js/skuGenerator.js:328-333 | On the catalog, G+ happens only on thigh rows, and a G+ thigh scores thigh fit 0. |
| `SkuOnCatalog.ThighPetiteRejected` | js/skuGenerator.js:281-282 | Every thigh request with a leg length of 62–71 fails with `InvalidLegLengthType`. |
| `SkuOnCatalog.CatalogAlwaysFindsASize` | js/skuGenerator.js:337-351 | On the catalog, "No appropriate size found" never happens. |
| `SkuOnCatalog.AsWrittenLookupAlwaysMisses` | js/skuGenerator.js:281-282 | The class-keyed top-level lookup misses for every class the classifier returns. The two-level lookup finds a list. |
| `SkuOnCatalog.ScenarioWholeAnkle` | js/skuGenerator.js:359-395 | Thigh, bronze, open, Class 1, ankle 21, calf 36, thigh 51, leg 80 gives `XA69603`: size 3, Normal, no G+, confidence 100, no improvements. |
| `SkuOnCatalog.ScenarioMidpoints` | js/skuGenerator.js:359-395 | With every measurement at size 3's midpoints, black, closed, Class 2, the result is `XB69513` with confidence 100 and no improvements. |
| `SkuOnCatalog.ScenarioGPlus` | js/skuGenerator.js:328-333 | Ankle 20.5, calf 33, thigh 55, leg 80 gives `XA68602`: size 2, G+, confidence 20. |
| `SkuOnCatalog.ScenarioAnkleTooSmall` | js/skuGenerator.js:48-56 | An ankle of 16.9 fails with `AnkleOutOfRange`. |
| `SkuOnCatalog.ScenarioLegTooShort` | js/skuGenerator.js:75-77 | A leg length of 55 fails with `LegLengthOutOfRange`, for either stocking length. |
| `SkuOnCatalog.PerfectConfidenceHasNoImprovements` | js/skuGenerator.js:224-242 | When every measurement is within, the score is 100 and there are no improvements. |
| `SkuOnCatalog.NoPositiveWhenNothingDeviates` | js/skuGenerator.js:225 | With a maximum deviation of 0, no reordering of the entries has a positive one. |
| `SkuOnCatalog.NoPositiveAmongNonPositive` | js/skuGenerator.js:225 | The filter is empty when no deviation is positive. |
| `Maintenance.IndexOf` | js/maintenance.js:196 | The result is the first position of the character, or None if it does not occur. |
| `Maintenance.IsDecimal` | js/maintenance.js:189 | `\d+(\.\d+)?`: a decimal is non-empty and starts and ends with a digit. |
| `Maintenance.DecimalValue` | js/maintenance.js:196 | `Number` on a decimal is non-negative. With a point, its whole part is the value of the digits before the point. |
| `Maintenance.MatchesRangePattern` | js/maintenance.js:189-191 | A text that matches has at least three characters and starts and ends with a digit. |
| `Maintenance.ParseRange` | js/maintenance.js:196 | `split('-').map(Number)` gives a range iff the text matches the pattern, and both bounds are non-negative. |
| `Maintenance.ValidateInput` | js/maintenance.js:187-204 | Accepts a text iff it matches the pattern and its first number is below its second. An accepted minimum is non-negative. |
| `Maintenance.ParseRangeIffPattern` | js/maintenance.js:189-196 | A text parses iff it matches the pattern. A valid text has min < max. |
| `Maintenance.DecimalHasNoDash` | js/maintenance.js:189 | `\d+(\.\d+)?` contains no '-'. |
| `Maintenance.RangePatternAccepts` | js/maintenance.js:189-196 | Every "decimal-decimal" text matches, and `split('-')` gives back the same two numerals. |
| `Maintenance.RangePatternSplits` | js/maintenance.js:189-191 | Every text that matches is such a pair. |
| `Maintenance.DecimalOfNatToString` | js/maintenance.js:196 | A whole number's spelling is a numeral of that value. |
| `Maintenance.RenderedRangeRoundTrip` | js/maintenance.js:187-204 | The cell text "min-max" for whole bounds parses back to them, and is valid iff min < max. |
| `Maintenance.DecimalWithFraction` | js/maintenance.js:189-196 | A numeral "w.f" matches `\d+\.\d+` and reads as w plus the fraction digits over ten to their count. |
| `Maintenance.ValidateInputAcceptsFraction` | js/maintenance.js:187-204 | "12.5-20" is accepted and read as 12.5 to 20. |
| `Maintenance.ValidateInputAcceptsWhole` | js/maintenance.js:187-204 | "17-19" is accepted and read as 17 to 19. |
| `Maintenance.ValidateInputRejectsOrder` | js/maintenance.js:197-200 | "20-12" and "19-19" are rejected. |
| `Maintenance.ValidateInputRejectsPattern` | js/maintenance.js:189-194 | "1-2-3", ".5-1", "5", "1.-2", "-5-3" and " 1-2" are rejected. |
| `Maintenance.DigitsValueAppend` | js/maintenance.js:196 | Appending a digit multiplies the value by ten and adds the digit. |
| `Maintenance.TwoDigits` | js/maintenance.js:196 | The value of a two-digit numeral. |
| `Maintenance.SetField` | js/maintenance.js:217-218 | The named column gets the new range. Every other column and the size are unchanged. On a knee row, C or G is created. |
| `Maintenance.SetFieldOwnValue` | js/maintenance.js:217-218 | Writing a column's own value back changes nothing. |
| `Maintenance.SetFieldKeepsRangesValid` | js/maintenance.js:217-218 | A non-empty range keeps the row's ranges non-empty. |
| `Maintenance.UpdateRow` | js/maintenance.js:217-218 | The update succeeds iff the path exists. It changes exactly the addressed row, and the table's shape is kept. |
| `Maintenance.UpdateRowKeepsRangesValid` | js/maintenance.js:217-218 | A valid table stays valid after a valid edit. |
| `Maintenance.UpdateRowTwice` | js/maintenance.js:217-218 | Two edits of the same cell: the second wins. |
| `Maintenance.SizeTableEditor.constructor` | js/maintenance.js:4-8 | The editor starts on thigh_length / Normal, with no changes and the working copy equal to the loaded table. |
| `Maintenance.SizeTableEditor.HandleInputChange` | js/maintenance.js:206-221 | Invalid text, or a missing row, changes nothing. Valid text replaces exactly that range in the working copy and sets `hasChanges`. The saved table is untouched, and the invariant is kept. |
| `Maintenance.SizeTableEditor.CancelChanges` | js/maintenance.js:264-272 | With changes and confirmation, the working copy becomes the saved table and `hasChanges` is cleared. Otherwise nothing changes. |
| `Maintenance.SizeTableEditor.ValidateAllInputs` | js/maintenance.js:254-262 | The result is true iff every input passes `validateInput`. |
| `Maintenance.SizeTableEditor.SaveChanges` | js/maintenance.js:223-252 | With an invalid input, nothing changes. On server success, the saved table becomes the working copy and `hasChanges` is cleared. The working copy never changes. The saved table always has non-empty ranges, so the SKU engine can score against it. |

## Left out

- **Parsing of measurements.** `parseFloat`/`isNaN` on measurements are not modelled: measurements are taken as reals, so the "Invalid … measurement" errors and the "invalid measurements" confidence result (js/skuGenerator.js:44-45, 71-72, 106-108, 178-183) do not arise.
- **Floating point.** IEEE-754 arithmetic is replaced by exact rationals.
- SkuGenerator.CalculateDeviation: does not model invalid ranges. On a zero-width or reversed range, JavaScript's `Infinity`/`NaN` deviation is not modelled. It requires min < max, and the engine requires a table whose ranges are all non-empty; this is proved for the catalog and kept by the editor.
- **Errors.** The `try`/`catch` that prefixes error messages ("Size determination error: ", "SKU generation error: ") is dropped: errors are `SkuError` values. The catch-all "Error calculating confidence score" result is not reachable in the model.
- SkuGenerator.ImprovementText: does not model number formatting. `toFixed(1)` and the number-to-string conversion of range bounds are parameters, so the contract states only the name prefix and the below/above word.
- **Improvements.** They are kept as structured values (name, value, side, range), not as strings.
- **`bestDeviations`.** The source computes it in `determineSize` and never reads it, so it is not modelled.
- **The editor before loading.** `initializeEditor` (fetch and `new Function` evaluation of js/sizeLookup.js) is not modelled: the constructor takes the loaded table, so the period in which `originalData` is `null` is not represented.
- **DOM work.** `renderTable`, `switchTable`, `setupEventListeners`, the history viewer, the alerts and the network part of `saveChanges` are left out. The server reply is the `serverSuccess` parameter.
- **User confirmation.** `confirm()` is the `confirmed` parameter.
- **Inputs at save time.** `validateAllInputs` takes the texts of the rendered inputs as a sequence; the DOM query that collects them is not modelled.
- Maintenance.SizeTableEditor.HandleInputChange: does not model the order of the two writes. It writes `<field>_min` and `<field>_max` in one step. The intermediate state after the first write is not represented; on a knee row it would be a C or G field with a min but no max.
- SkuGenerator.SizeList: models the corrected two-level lookup `sizeLookupTable[stockingLength][lengthType]`. As written, js/skuGenerator.js:281 and :155 look the class up at the top level and always miss (see "## Findings").
- SkuGenerator.SizeDetermination: built on the corrected lookup. As written, `determineSize` throws "Invalid leg length type." for every request that reaches it, so the behaviour stated for a found list is never reached by the program as it stands.
- SkuGenerator.DetermineSize: the same as `SizeDetermination`, whose result it is proved to return.
- SkuGenerator.CalculateConfidence: built on the corrected lookup. As written, `calculateConfidenceScore` returns score 0 for every call.
- SkuGenerator.SkuGeneration: built on the corrected lookup. As written, every request that passes the option and leg-length checks fails in size determination.
- SkuGenerator.GenerateSku: the same as `SkuGeneration`, whose result it is proved to return.
- **Other files.** js/main.js (presentation), the PHP pages, and save_table.php / get_history.php (file I/O and backups) are not part of this model.

## Findings

| source | as written | input that shows it | evidently intended | confidence | as-written member | corrected member |
|---|---|---|---|---|---|---|
| js/skuGenerator.js:281 | `this.sizeLookupTable[lengthType]` looks up "Petite"/"Normal" among the top-level keys, which are "thigh_length"/"knee_length"; line 155 does the same lookup for the confidence | any request, e.g. thigh, bronze, open, Class 1, ankle 21, calf 36, thigh 51, leg 80: `determineSize` throws "Invalid leg length type." and `calculateConfidenceScore` returns score 0 | look up `sizeLookupTable[stockingLength][lengthType]`, the two-level structure the catalog and the editor use | not executed | `SkuGenerator.SizeListFoundAsWritten`, `SkuOnCatalog.AsWrittenLookupAlwaysMisses` | `SkuGenerator.SizeList` |
