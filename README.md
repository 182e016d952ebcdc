# Cargo load & trim workbook parser — a Dafny model

This project models the core of a web dashboard for aircraft cargo loading.
The dashboard reads a load-and-trim spreadsheet workbook and builds one load
plan from it. The plan holds:

- the resolved aircraft profile (type, position counts, CG limits, maximum
  payload);
- the active cargo positions;
- the ULD (unit load device) specifications by type;
- the per-position status of the cargo-hold layout;
- the arm-and-moment totals;
- the CG (centre of gravity) and balance verdict.

Over a plan it computes summary statistics (deck weights, overload count,
payload use) and a grid of position labels for each aircraft type. The
application shell checks that the required sheets exist before parsing, and
moves an upload status through processing to success or error.

Modules, one per concern, in dependency order:

- `Values` (`values.dfy`): the spreadsheet cell (`Empty | Num | Str`) and
  JavaScript truthiness. It also holds the `x || fallback` idiom and the
  `parseFloat`/`toString` conversions. The two host conversions are
  parameters (`Host`).
- `JsText` (`jstext.dfy`): ECMAScript `trim`, `String.prototype.includes`
  and `Array.prototype.join`.
- `Workbooks` (`workbooks.dfy`): a workbook, its sheets (row grid and cell
  records), `getCellValue`, and the errors the parse throws.
- `AircraftModels` (`aircraft.dfy`): `parseAircraftModels`.
- `SheetExtractors` (`extractors.dfy`): the ULD LOAD INPUT, ULD MASTER
  TABLE, CARGO HOLD VISUAL LAYOUT and ARM & MOMENT COMPUTATION extractors.
- `CgBalance` (`cgbalance.dfy`): the CG & BALANCE DECISION ENGINE extractor.
- `ExcelParser` (`excelparser.dfy`): `parseExcelData`.
- `SummaryStats` (`summary.dfy`): `calculateSummaryStats`.
- `GridLayout` (`gridlayout.dfy`): `buildCargoGridLayout`.
- `App` (`app.dfy`): the required-sheet check and status transitions of
  `handleFileUpload`.

Each loop of the source is a method proved against a specification function:
`ParseULDLoadInput` against `LoadInputOf`, `ParseArmMoment` against
`ArmMomentOf`, and so on. The properties are lemmas about those functions.
The upload state is a class, `App.UploadPanel`, whose handler keeps an
invariant (`Valid`).

The model follows the code as written. Behaviours a reader might not
expect:

- **Missing trim sheet.** The aircraft selector is read from cell I3 of
  AIRCRAFT LOAD & TRIM SHEET with no check that the sheet exists. Without it
  the parse throws a `TypeError`; it does not default to "A320"
  (`ParseFailsWithoutTrimSheet`). The application's sheet check does not
  list this sheet, so a workbook that passes the check can still fail
  (`ListedSheetsWithoutTrimSheetFail`).
- **No built-in B737/B777 profiles.** A type without a lookup row gets the
  A320 constants (`UnmatchedTypeGetsA320Constants`).
- **ULD LOAD INPUT reads up to 13 rows.** It reads rows 1..13, i.e. up to 13
  positions, despite the comment's "max 12" (`CargoPositionsBounded`).
- **Negative weights are kept.** They are not normalised to 0
  (`NegativeWeightIsKept`).
- **Count fields keep text.** The three position counts of a lookup row keep
  any truthy cell, text included; they are not parsed as numbers.
- **B777 lower-deck rows ignore `lowerDeckPositions`.** The rows run from
  `mainDeckPositions` for up to six labels, whatever the lower-deck count;
  that count only decides the separator (`LowerRowsIgnoreLowerDeckCount`,
  `ZeroLowerDeckStillShowsLowerRows`, `B777RowCount`).
- **Odd B777 main-deck count.** With a count of 1, 3 or 5 and more labels
  than that, the label at that index ends the last main-deck row and also
  starts the first lower-deck row (`OddMainDeckRepeatsLabel`).
- **B777 main-deck count above six.** The main-deck rows stop at index 6
  but the lower-deck rows start at the count, so the labels from index 6 up
  to the count are never shown; with a count of 7 the label at index 6 is
  missing (`MainBeyondSixSkipsLabels`).
- **Empty B777 rows.** The main-deck rows run to `min(6, mainDeckPositions)`
  whatever the number of labels, so with fewer labels than that count the
  trailing rows are empty: four labels and counts 6 and 6 give an empty
  third row (`FewLabelsLeaveEmptyRow`). Every label is still shown once
  (`FewerLabelsThanMainDeck`).
- **`isSafe` is a containment test.** "NOT SAFE FOR FLIGHT" sets it
  (`NegatedVerdictReadsSafe`).
- **Numeric overall verdict.** A truthy number in cell B21 makes the CG
  extractor throw, because a number has no `includes`.

## Model

| member | source | states |
|---|---|---|
| Values.NumberOr | src/utils/excelParser.js:116 | `parseFloat(x) \|\| d`: the result is the fallback unless the cell parses to a non-zero number, which is then kept |
| Values.TextOr | src/utils/excelParser.js:142 | `x?.toString() \|\| d`: a non-empty cell text is kept, an empty one gives the fallback; a non-empty fallback gives a non-empty result |
| JsText.TrimEmptyIffBlank | src/utils/excelParser.js:21 | `s.trim()` is empty exactly when every character of `s` is ECMAScript white space or a line terminator |
| JsText.IncludesIffOccurs | src/utils/excelParser.js:239 | `s.includes(p)` holds exactly when `p` occurs in `s` at some index |
| JsText.JoinIncludesEachPart | src/App.jsx:34 | every part of `parts.join(sep)` occurs in the joined text |
| Workbooks.GetCellValue | src/utils/excelParser.js:246-250 | no cell record gives null; a record with a raw value gives that value; one without gives its formatted text, or null when it has none |
| Workbooks.FaultMessage | src/utils/excelParser.js:103 | a missing sheet throws "<sheet> sheet not found"; every thrown message is non-empty |
| AircraftModels.Selector | src/utils/excelParser.js:61-62 | the selector is I3 when truthy and "A320" otherwise, so it is always truthy |
| AircraftModels.FirstMatch | src/utils/excelParser.js:70-72 | the index found is the first row from `from` on whose first cell strictly equals the selector; none found means no row matches |
| AircraftModels.ParseAircraftModels | src/utils/excelParser.js:59-96 | the scan from row 1 returns the resolved profile `ResolvedConfig`, or fails when the trim sheet is absent |
| AircraftModels.ResolvedTypeIsSelector | src/utils/excelParser.js:59-96 | resolution succeeds exactly when the trim sheet exists, and the profile's type is always the selector |
| AircraftModels.FirstMatchingRowWins | src/utils/excelParser.js:70-81 | the first matching lookup row decides every field; a blank or zero count takes 12/0/12, a blank, zero or unparsable number takes 14.0/28.0/20000; the three numbers are never 0 |
| AircraftModels.UnmatchedTypeGetsA320Constants | src/utils/excelParser.js:86-95 | without a lookup sheet or a matching row, any type (B737 and B777 included) gets the A320 constants |
| SheetExtractors.PositionOf | src/utils/excelParser.js:113-118 | a record's label, type and destination are the cells' texts; its weight is the parsed weight (0 included), and 0 when unparsable |
| SheetExtractors.LoadRowsUpTo | src/utils/excelParser.js:109-119 | after rows 1..k-1 at most k-1 records are pushed |
| SheetExtractors.LoadInputOf | src/utils/excelParser.js:101-103 | the extractor fails exactly when the sheet is absent, with "ULD LOAD INPUT sheet not found"; otherwise it yields at most 13 records |
| SheetExtractors.ParseULDLoadInput | src/utils/excelParser.js:101-122 | the loop over rows 1..13 that skips falsy first cells returns `LoadInputOf` |
| SheetExtractors.NegativeWeightIsKept | src/utils/excelParser.js:116 | a negative weight is kept as it is |
| SheetExtractors.LastKeyedRow | src/utils/excelParser.js:135-145 | the row found is the last one in range keyed by the given text; none found means no row in range is |
| SheetExtractors.SpecOf | src/utils/excelParser.js:139-144 | the capacity is the parsed second cell, 0 when unparsable; the deck is the third cell's text, "Main" when blank, never empty; the compatibility is the fourth cell's text |
| SheetExtractors.MasterTableOf | src/utils/excelParser.js:127-129 | the extractor fails exactly when the sheet is absent, with "ULD MASTER TABLE sheet not found" |
| SheetExtractors.ParseULDMasterTable | src/utils/excelParser.js:127-148 | the loop from row 1 returns `MasterTableOf` |
| SheetExtractors.MasterTableLastRowWins | src/utils/excelParser.js:135-145 | a ULD type is in the table exactly when some row from index 1 on is keyed by it, and its spec is the last such row's |
| SheetExtractors.StatusOf | src/utils/excelParser.js:165-176 | the status is the F cell's text, "UNKNOWN" when blank; actual and maximum weight are the parsed C and D cells, 0 when unparsable; utilisation times maximum is the actual weight when the maximum is positive, and utilisation is 0 otherwise |
| SheetExtractors.VisualLayoutOf | src/utils/excelParser.js:153-155 | the extractor fails exactly when the sheet is absent, with "CARGO HOLD VISUAL LAYOUT sheet not found" |
| SheetExtractors.ParseCargoVisualLayout | src/utils/excelParser.js:153-180 | the loop from row 3 returns `VisualLayoutOf` |
| SheetExtractors.VisualLayoutLastRowWins | src/utils/excelParser.js:161-177 | a position is in the table exactly when some row from index 3 on is keyed by it, and its status is the last such row's |
| SheetExtractors.BottomTotalsRow | src/utils/excelParser.js:195-197 | the row found is the bottom-most one whose D cell is a truthy number; none found means no row qualifies |
| SheetExtractors.ArmMomentOf | src/utils/excelParser.js:185-187 | the extractor fails exactly when the sheet is absent, with "ARM & MOMENT COMPUTATION sheet not found" |
| SheetExtractors.ParseArmMoment | src/utils/excelParser.js:185-208 | the upward scan that breaks at the first qualifying row returns `ArmMomentOf` |
| SheetExtractors.ArmMomentTakesBottomTotalsRow | src/utils/excelParser.js:195-201 | the totals are those of the bottom-most qualifying row, whose D cell is the total weight |
| SheetExtractors.ArmMomentDefaultsToZero | src/utils/excelParser.js:192-207 | without a qualifying row both totals are 0 |
| CgBalance.Verdict | src/utils/excelParser.js:228 | a falsy B21 reads "UNKNOWN", text is kept, and a truthy number is exactly the case that throws |
| CgBalance.CgBalanceOf | src/utils/excelParser.js:214-215 | an absent sheet throws "CG & BALANCE DECISION ENGINE sheet not found" |
| CgBalance.LimitsFallBackToProfile | src/utils/excelParser.js:221-222 | each CG limit is B7/B8 when that cell parses to a non-zero number, and the resolved profile's limit when it is blank, zero or unparsable |
| CgBalance.SafeFlagIffMarker | src/utils/excelParser.js:239 | `isSafe` holds exactly when "✓ SAFE" or "SAFE FOR FLIGHT" occurs at some index of the verdict |
| CgBalance.BlankVerdictIsUnsafe | src/utils/excelParser.js:228-239 | a blank B21 gives the verdict "UNKNOWN" and `isSafe` false |
| CgBalance.SafeExample | src/utils/excelParser.js:239 | "✓ SAFE FOR FLIGHT" is safe |
| CgBalance.UnsafeExample | src/utils/excelParser.js:239 | "UNSAFE - REDISTRIBUTE" is not safe |
| CgBalance.NoCheckMarkInUnsafe | src/utils/excelParser.js:239 | "✓ SAFE" occurs nowhere in "UNSAFE - REDISTRIBUTE" |
| CgBalance.NoSafeForFlightInUnsafe | src/utils/excelParser.js:239 | "SAFE FOR FLIGHT" occurs nowhere in "UNSAFE - REDISTRIBUTE" |
| CgBalance.NegatedVerdictReadsSafe | src/utils/excelParser.js:239 | "NOT SAFE FOR FLIGHT" is read as safe |
| ExcelParser.ActiveIffVisibleLabel | src/utils/excelParser.js:20-22 | a position is active exactly when its label has a character that is not white space |
| ExcelParser.ActivePositions | src/utils/excelParser.js:20-22 | the filter keeps exactly the active positions and never adds any |
| ExcelParser.ParseExcelData | src/utils/excelParser.js:7-54 | the sequence of extractor calls returns `ExcelParse`: the assembled plan, or "Data parsing failed: " and the first error |
| ExcelParser.ParseFailsWithoutTrimSheet | src/utils/excelParser.js:50-53 | without the trim sheet the parse throws "Data parsing failed: Cannot read properties of undefined (reading 'I3')" |
| ExcelParser.ParseFailsOnFirstMissingSheet | src/utils/excelParser.js:10-17 | with the trim sheet present, the first absent sheet in read order is the one reported |
| ExcelParser.ParseSucceedsWithAllSheets | src/utils/excelParser.js:10-17 | with every sheet present, the parse succeeds exactly when B21 is not a truthy number; otherwise it throws the `includes` TypeError |
| ExcelParser.ActiveRowsInSheetOrder | src/utils/excelParser.js:109-122 | the filtered records are, one per row and in sheet order, the records of the rows that pass both the skip rule and the label filter, and none of those rows is dropped |
| ExcelParser.PlanPositionsFollowSheet | src/utils/excelParser.js:13-43 | a plan's cargo positions are, in order, the records of the qualifying rows 1..13 of ULD LOAD INPUT |
| ExcelParser.CargoPositionsBounded | src/utils/excelParser.js:109 | a plan holds at most 13 cargo positions |
| ExcelParser.OnlyTimestampsDependOnClock | src/utils/excelParser.js:30-48 | two parses at different times agree except for date, time and timestamp |
| ExcelParser.PlanUsesResolvedProfile | src/utils/excelParser.js:17-27 | the plan's type is the selector, and its CG limits fall back to the profile it carries |
| SummaryStats.OverloadCount | src/utils/excelParser.js:274-276 | the overload count is the number of indices whose position the layout marks OVERLOAD; it is at most the number of positions, and 0 exactly when none is so marked |
| SummaryStats.Utilization | src/utils/excelParser.js:285-287 | utilisation times payload is 100 times the deck weights when the payload is positive, is 0 otherwise, and lies in [0, 100] when the load fits |
| SummaryStats.CalculateSummaryStats | src/utils/excelParser.js:255-289 | the single pass returns `SummaryOf` |
| SummaryStats.DecksPartitionWeight | src/utils/excelParser.js:266-271 | when every type has a Main or Lower spec, main plus lower weight is the total weight |
| SummaryStats.DeckWeightBounded | src/utils/excelParser.js:266-271 | with no negative weight, each deck weight lies between 0 and the total |
| SummaryStats.DeckSumWithinTotal | src/utils/excelParser.js:266-271 | with no negative weight, main plus lower weight never exceeds the total |
| SummaryStats.UnlistedTypeAddsNoWeight | src/utils/excelParser.js:263-266 | a position whose type has no spec adds to no deck |
| SummaryStats.SummaryBounds | src/utils/excelParser.js:279-288 | the count is the number of positions, overloads never exceed it, and utilisation is the weights' share of the payload or 0 |
| SummaryStats.SummaryExample | src/utils/excelParser.js:255-289 | 1000 kg main, 500 kg lower, one OVERLOAD on 20000 kg gives 1000/500/1 and 7.5 percent |
| GridLayout.SliceBound | src/utils/excelParser.js:323 | a slice bound counts from the end when negative and is clamped to the length |
| GridLayout.Slice | src/utils/excelParser.js:323 | a slice within range is the subsequence; one starting past the end is empty |
| GridLayout.PositionIds | src/utils/excelParser.js:295 | the ids are the positions' labels, index by index |
| GridLayout.PushPairs | src/utils/excelParser.js:331-333 | the loop pushes exactly `PairRows` onto the layout |
| GridLayout.BuildCargoGridLayout | src/utils/excelParser.js:294-335 | the method returns `GridLayoutOf` for the labels, type and counts |
| GridLayout.PairRowsCount | src/utils/excelParser.js:331-333 | the loop pushes one row per two indices of its range |
| GridLayout.PairRowsAt | src/utils/excelParser.js:331-333 | row j of the loop is the slice of two starting at `start + 2j` |
| GridLayout.PairRowsShowRange | src/utils/excelParser.js:331-333 | over a range of whole pairs or one running to the end, the rows show exactly that range's labels, one or two per row |
| GridLayout.PairRowsShape | src/utils/excelParser.js:331-333 | over a range within the labels every row holds one or two labels, and every row but the last holds two |
| GridLayout.DefaultLayoutShowsEveryPosition | src/utils/excelParser.js:329-334 | any type other than B737/B777 shows every label once, in order, in ceil(n/2) rows of two labels, of which only the last may hold one |
| GridLayout.B737ShowsFirstFour | src/utils/excelParser.js:298-304 | the B737 layout is two rows showing only the first four labels |
| GridLayout.B777SeparatorIffBothDecks | src/utils/excelParser.js:316-318 | the B777 layout holds the separator exactly when both counts are positive |
| GridLayout.B777ShowsMainThenLower | src/utils/excelParser.js:306-326 | for an even main count of at most six, and any number of labels, the labels shown are the first `min(main + 6, n)`, in order |
| GridLayout.PairRowsPastEnd | src/utils/excelParser.js:331-333 | rows whose slices start at or past the last label show no label |
| GridLayout.PairRowsBeyondEnd | src/utils/excelParser.js:331-333 | a range that runs past the last label shows the labels from its start to the end, in order |
| GridLayout.FewerLabelsThanMainDeck | src/utils/excelParser.js:306-326 | with fewer labels than a main-deck count of at most six, the B777 layout shows every label, in order |
| GridLayout.FewLabelsLeaveEmptyRow | src/utils/excelParser.js:311-314 | four labels with counts 6 and 6: the third main-deck row is `slice(4, 6)`, an empty row |
| GridLayout.B777RowCount | src/utils/excelParser.js:306-326 | the B777 row count is the rows of the main range, plus the separator, plus the rows of `[main, min(main + 6, n))` |
| GridLayout.LowerRowsIgnoreLowerDeckCount | src/utils/excelParser.js:321-324 | any two positive lower-deck counts give the same layout |
| GridLayout.ZeroLowerDeckStillShowsLowerRows | src/utils/excelParser.js:316-324 | twelve labels with counts 6 and 0 give six rows, no separator, and all twelve labels |
| GridLayout.OddMainDeckRepeatsLabel | src/utils/excelParser.js:311-324 | twelve labels with counts 5 and 6: the sixth label ends the last main-deck row and starts the first lower-deck row |
| GridLayout.MainBeyondSixSkipsLabels | src/utils/excelParser.js:311-324 | fourteen labels with a main-deck count of 7 show labels 0-5 and 7-12 only; with distinct labels, label 6 is not shown |
| App.MissingFrom | src/App.jsx:29-31 | the filter keeps exactly the required names that are not listed, in the required order: entry j is the required name at the j-th ascending index of an unlisted name |
| App.MissingSheets | src/App.jsx:26-31 | nothing is missing exactly when all five required sheets are listed |
| App.TryUpload | src/App.jsx:20-38 | the `try` block returns `UploadOutcome`: the read error, the missing-sheets message, or the parser's outcome |
| App.DisplayedMessage | src/App.jsx:51 | the shown message is the error's message, or the fixed text when that is empty; it is never empty |
| App.UploadPanel.constructor | src/App.jsx:9-11 | a new panel is idle with no plan and no message |
| App.UploadPanel.HandleFileUpload | src/App.jsx:13-53 | no file changes nothing; otherwise the status goes to processing and then to success with the plan, or to error with the displayed message, keeping the old plan; the panel invariant holds |
| App.MissingSheetIsReported | src/App.jsx:33-35 | an unlisted required sheet fails the upload with "Missing required sheets: …", and that message names it |
| App.AllSheetsListedDefersToParser | src/App.jsx:33-38 | with all five sheets listed, the outcome is the parser's |
| App.ListedSheetsWithoutTrimSheetFail | src/App.jsx:26-38 | a consistent workbook listing the five sheets but no trim sheet fails with the selector TypeError |
| App.ListedSheetsParse | src/App.jsx:26-41 | with the five sheets and the trim sheet present, the upload succeeds exactly when B21 is not a truthy number |

## Left out

- Cells are empty, a number or text. Booleans, dates, `NaN` and `Infinity` are not modelled, and neither is the `defval: null` versus `undefined` distinction.
- `parseFloat` on text and `Number.prototype.toString` are host functions passed in (`Host`). Their exact grammar and formatting are not modelled.
- Arithmetic is on exact reals. Floating-point rounding in the deck sums, the utilisation and `actual / max` is not modelled.
- Tables are Dafny maps keyed by text. JavaScript object-key quirks such as `__proto__` or keys that look like integers are not modelled.
- GridLayout.BuildCargoGridLayout: takes the aircraft's main- and lower-deck counts as integers. The source passes the lookup cells, which may be text or fractional numbers that JavaScript coerces in `Math.min` and `>`. That coercion is not modelled.
- Reading the file (`arrayBuffer`) and decoding it (`XLSX.read`) belong to the browser and the spreadsheet library. Their outcome is a parameter (`Decoded`).
- The current date and time (`new Date()`) is a parameter (`Clock`). The locale formatting of the date and time strings is not modelled.
- The handler is `async`. Two uploads interleaving across the `await` is not modelled; one call runs to completion.
- `Number.prototype.toString` is a `Host` parameter and is not constrained to give non-empty text, although JavaScript's never does. A model host that maps a number to "" would make a numeric label falsy in the position filter; the real host cannot.
- Workbooks.FaultMessage: the two `TypeError` messages are the V8 engine's wording. Other JavaScript engines word them differently, so the user-visible text differs there.
- `console.error`, the delayed scroll to the dashboard, and the React rendering, drag-and-drop and PDF export are not modelled.
