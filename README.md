# HMPI groundwater backend: normaliser, scorer, summary and report

This project models the computational core of a groundwater-quality backend.
The backend takes spreadsheet or CSV rows whose column names vary. It
normalises each row into a fixed sample record and computes each sample's
Heavy Metal Pollution Index (HMPI) from nine metal concentrations and their
standard concentrations. It then classifies the sample as Safe, Moderate Risk
or High Risk, tallies a batch into a summary, and renders a CSV report.

Modules (one file each):

- `Values` (`values.dfy`): the raw JS values a row cell can hold, JS
  truthiness, and `parseFloat(...) || 0`. The text grammar of `parseFloat` and
  JS number-to-text formatting are passed in as functions (`Parser`,
  `Formatter`). Lemmas about them state what they assume of those functions.
- `Text` (`text.dfy`): joining and splitting on a separator character, which
  the report writes and a CSV reader undoes for cells without quotes.
- `Samples` (`samples.dfy`): the sample record, the nine metals with their
  standards, the three statuses and the scored record.
- `Normaliser` (`normaliser.dfy`): the row mapper, with its alias priority.
  It has two variants: the upload copy and the analysis and report copies.
- `Hmpi` (`hmpi.dfy`): `calculateHMPI`.
  - The per-sample loop is a method with invariants. It is proved against
    `ScoreOf`, and `ScoreOf` is proved equal to a closed form.
  - Rounding to two decimals is exact over the reals.
  - The status thresholds are strict.
- `Summaries` (`summaries.dfy`): the summary object of the analysis routes.
- `Report` (`report.dfy`): the CSV text of the report routes.
- `Pipeline` (`pipeline.dfy`): properties that span modules. These are:
  - what a mapped row scores;
  - what reading a report line back through the normaliser recovers;
  - that re-scoring that row reproduces the stored index and status.

Numbers are Dafny `real`s, so the index arithmetic is exact. NaN appears only
as a raw cell value (`Raw.NotANumber`).

## Model

| member | source | states |
|---|---|---|
| Values.Truthy | Backend/index.js:114-131 | the values every `\|\|` skips are exactly `undefined`, `null`, `""`, `0`, `NaN` and `false` |
| Values.ParseFloat | Backend/index.js:117-131 | `parseFloat` of a number is that number; a falsy value parses to NaN or 0 |
| Values.NumberOf | Backend/index.js:117-131 | `parseFloat(v) \|\| 0` is exactly the number `v` parses to when it parses, and 0 otherwise; every falsy value gives 0 |
| Samples.Standard | Backend/index.js:29-39 | the table of standards: every standard is at least 3 µg/L, so every division by a standard is defined |
| Normaliser.Resolve | Backend/index.js:115-131 | `a \|\| b \|\| c`: the first truthy alias wins; with no truthy alias the last alias's value is returned; the result is truthy iff some alias is |
| Normaliser.ResolveNumber | Backend/index.js:116-131 | `parseFloat(a \|\| b \|\| c) \|\| 0` is 0 or exactly the number the chosen alias's value parses to |
| Normaliser.ResolveNumberPriority | Backend/index.js:117-131 | a numeric field is the coerced value of the first truthy alias |
| Normaliser.ResolveNumberDefault | Backend/index.js:117-131 | a numeric field with no truthy alias is 0 |
| Normaliser.ResolveLabel | Backend/index.js:245-246 | a label is the first truthy alias's value; with none the upload copy keeps the last alias's raw value and the other copies store "" |
| Normaliser.MapRow | Backend/index.js:114-132 | every measurement field is present; only the upload copy sets the heavy-metal index; labels of the analysis and report copies are truthy or "" |
| Normaliser.MappedFieldIsParsedOrZero | Backend/index.js:247-260 | every mapped numeric field is present and is either the number its chosen cell parses to or exactly 0 |
| Normaliser.MappedFieldKeepsParsedNumber | Backend/index.js:117-131 | a mapped numeric field is exactly the number `parseFloat` reads from the first truthy alias's value |
| Normaliser.MappedFieldTakesFirstTruthyAlias | Backend/index.js:117-131 | every mapped field holds the coerced value of the first truthy alias in list order |
| Normaliser.MappedFieldDefaultsToZero | Backend/index.js:117-131 | a mapped field all of whose aliases are missing or falsy is 0 |
| Normaliser.QualifiedHeaderWins | Backend/index.js:120 | the unit-qualified conductivity header takes precedence over the bare one |
| Normaliser.NumericZeroFallsThrough | Backend/index.js:122 | a numeric 0 under the qualified arsenic header falls through to the bare header's value |
| Normaliser.UnparseableTextShadowsLaterAlias | Backend/index.js:122 | unparseable text is chosen before `parseFloat` runs, so the field is 0 even when a later alias holds a number |
| Hmpi.Round2 | Backend/index.js:62 | `parseFloat(x.toFixed(2))` is within 0.005 of x and keeps a non-negative x non-negative |
| Hmpi.Round2Cents | Backend/index.js:62 | below 10^21 the stored value is a whole number of hundredths |
| Hmpi.Classify | Backend/index.js:56-58 | High Risk iff the index is > 100, Moderate Risk iff it is in (50, 100], Safe iff it is <= 50; exactly one applies |
| Hmpi.ValidCount | Backend/index.js:43-51 | `validMetals` never exceeds the number of metals visited |
| Hmpi.ScoreOf | Backend/index.js:54-64 | the scored record keeps the sample, stores the index to within 0.005, and its status is High Risk iff the unrounded index is > 100, Moderate Risk iff it is in (50, 100], Safe iff it is <= 50 |
| Hmpi.ScoreSample | Backend/index.js:41-65 | the loop over the nine standards keeps the running sum and count equal to the reference sums over the metals visited; the result keeps the sample and adds the rounded index and the status of the unrounded index |
| Hmpi.CalculateHMPI | Backend/index.js:28-66 | one scored record per input, same length and order; each keeps its input record unchanged and adds `ScoreOf`'s index and status |
| Hmpi.ContributionClosedForm | Backend/index.js:47-49 | `qi * wi` equals 100·c/s² |
| Hmpi.AccumulatedIsQualitySum | Backend/index.js:45-52 | the loop's running sum equals the closed-form sum of 100·c/s² over the metals present |
| Hmpi.IndexClosedForm | Backend/index.js:54 | the final index is the closed-form sum divided by `validMetals`, or 0 when no metal counted |
| Hmpi.ValidCountFull | Backend/index.js:45-51 | `validMetals` equals the number of metals visited iff every one is present |
| Hmpi.ValidCountNone | Backend/index.js:45-51 | `validMetals` is 0 iff every metal is undefined or null |
| Hmpi.CompleteSampleCountsNine | Backend/index.js:43-51 | a record with every measurement present counts all nine metals |
| Hmpi.CompleteSampleIndex | Backend/index.js:54 | for such a record the index is the closed-form sum divided by 9 |
| Hmpi.ContributionMonotone | Backend/index.js:47-49 | a metal's term does not decrease as its concentration rises and is 0 at concentration 0 |
| Hmpi.AccumulatedNonNegative | Backend/index.js:45-52 | with non-negative concentrations the running sum is non-negative |
| Hmpi.IndexNonNegative | Backend/index.js:54 | with non-negative concentrations the index is non-negative |
| Hmpi.AccumulatedZero | Backend/index.js:45-52 | when every counted concentration is 0 the running sum is 0 |
| Hmpi.IndexZero | Backend/index.js:54-62 | when every counted concentration is 0 the index, the stored value and the status are 0, 0 and Safe |
| Hmpi.ArsenicOnlyExample | Backend/index.js:28-66 | 20 µg/L of arsenic with the other metals at 0 scores 20/9, is stored as 2.22 and is Safe |
| Hmpi.RaisingOneMetal | Backend/index.js:45-52 | raising one present metal keeps `validMetals` and does not lower the running sum |
| Hmpi.IndexMonotone | Backend/index.js:45-54 | raising one present metal does not lower the index |
| Hmpi.ScoreDependsOnlyOnMetals | Backend/index.js:41-64 | two records with the same nine concentrations get the same stored index and status |
| Hmpi.RoundedIndexWithinTier | Backend/index.js:56-62 | the stored value lies in its status's band: Safe at most 50, Moderate Risk in [50, 100], High Risk at least 100 |
| Hmpi.StatusUsesUnroundedIndex | Backend/index.js:56-62 | arsenic 50.004 alone scores 50.004: it is stored as 50.00 yet classified Moderate Risk, because the status reads the unrounded index |
| Summaries.CountStatus | Backend/index.js:215-217 | a status tally never exceeds the batch size |
| Summaries.CountStatusIsMultiplicity | Backend/index.js:215-217 | `filter(r => r.status === st).length` is the number of times `st` occurs among the batch's statuses |
| Summaries.StatusCountsPartition | Backend/index.js:215-217 | the three status tallies add up to the batch size |
| Summaries.Summarize | Backend/index.js:213-219 | `totalSamples` is the batch size; `safeSamples`, `moderateRisk` and `highRisk` are the tallies of Safe, Moderate Risk and High Risk records, and they add up to the batch size; for a non-empty batch the average times the batch size is the sum of the stored indices; an empty batch averages 0 |
| Summaries.EmptyBatchSummary | Backend/index.js:191-203 | the empty batch has all-zero counts and average 0, with no division |
| Summaries.TotalAtLeast | Backend/index.js:218 | a lower bound of every stored index, times the batch size, bounds the sum from below |
| Summaries.TotalAtMost | Backend/index.js:218 | an upper bound of every stored index, times the batch size, bounds the sum from above |
| Summaries.AverageAtLeast | Backend/index.js:218 | a lower bound of every stored index bounds the average from below |
| Summaries.AverageAtMost | Backend/index.js:218 | an upper bound of every stored index bounds the average from above |
| Summaries.UniformBatchSummary | Backend/index.js:318-324 | a batch whose records share one status is tallied entirely under it, and its average stays in that status's band |
| Report.LabelCellText | Backend/index.js:380 | `${v \|\| ''}` for a label: a falsy label gives an empty cell, text is printed as it is, and no truthy non-number prints as empty |
| Report.LabelBlank | Backend/index.js:380 | with a formatter that never prints empty text, a label cell is empty iff the label is falsy |
| Report.NumberCell | Backend/index.js:380 | `${x \|\| ''}` for a measurement is the same template applied to the field's JS value (`undefined` or the number), so it agrees with JS truthiness |
| Report.Cells | Backend/index.js:380 | a record's line has one cell per header column |
| Report.Line | Backend/index.js:380 | whatever its labels hold, a record line splits on commas into at least the header's 17 fields |
| Report.Lines | Backend/index.js:379-381 | one report line per scored record |
| Report.Render | Backend/index.js:378-383 | every report, the empty one included, starts with the header line and its newline, and splits on newlines into at least one line more than there are records |
| Report.HeaderColumns | Backend/index.js:378 | the header line splits on commas into exactly its 17 columns |
| Report.LineSplitsIntoCells | Backend/index.js:380 | when no label and no printed number holds a comma or newline, a record line has 17 fields, splits back into its cells and holds no newline (quotes allowed) |
| Report.RenderSplitsIntoLines | Backend/index.js:378-383 | when no label and no printed number holds a newline, the report is the header line followed by exactly one line per record, in order; an empty batch leaves only the header's newline |
| Report.BlankCells | Backend/index.js:467-470 | each of the first 15 cells is empty iff its field is falsy; the index and status cells are never empty |
| Pipeline.MetalsDefaultToZero | Backend/index.js:252-260 | a row in which no alias of any metal holds a truthy value maps every metal to 0 |
| Pipeline.RowWithoutMetalsScoresSafe | Backend/index.js:244-261 | such a row, whatever its other columns hold, scores 0, is stored as 0 and is Safe |
| Pipeline.MappedRowDividesByNine | Backend/index.js:247-260 | a mapped row has all nine metals, so its index is always the closed-form sum divided by 9 |
| Pipeline.ReadBackPremisesCanHold | Backend/index.js:380 | the read-back premises are not contradictory: a formatter and a parser that print and read one number meet them for every record that prints only that number |
| Pipeline.ReadBackNumber | Backend/index.js:414-427 | a report cell read back through its alias list gives the field's value, or 0 when the field was falsy, provided the parser reads back that one printed value |
| Pipeline.ReadBackLabel | Backend/index.js:412-413 | a label cell read back through its alias list gives the printed text, "" included |
| Pipeline.ReportRowColumns | Backend/index.js:378-380 | a report line whose cells hold no comma, newline or double quote, read by a CSV reader, puts each cell under its column header and nothing under any other key |
| Pipeline.ReadBackMeasurement | Backend/index.js:414-427 | each printed measurement reads back as its value, or 0 if absent, provided the parser reads back that value's printed text |
| Pipeline.ReadBackLabels | Backend/index.js:412-413 | both labels read back as the text the report printed for them |
| Pipeline.ReadBackConductivity | Backend/index.js:417 | conductivity, which the report does not print, reads back as 0 |
| Pipeline.ReportSiteResolves | Backend/index.js:414-418 | the latitude, longitude, pH and TDS alias chains of a report line resolve to their values, or 0 if absent, provided those four printed values read back |
| Pipeline.ReadBackSite | Backend/index.js:414-418 | latitude, longitude, pH and TDS each read back as their value, or 0 if absent, provided those four printed values read back |
| Pipeline.ReportMetalResolves | Backend/index.js:419-427 | a metal's alias chain on a report line resolves to its concentration, or 0 if absent, provided that printed value reads back |
| Pipeline.ReadBackMetals | Backend/index.js:419-427 | the nine metal concentrations read back as their values, or 0 if absent, provided the nine printed values read back |
| Pipeline.ReportRoundTrip | Backend/index.js:411-428 | a report line read back through the report route's mapper recovers the printed labels, every printed measurement (absent ones as 0) and conductivity 0, provided the thirteen printed measurements read back |
| Pipeline.RescoringReportIsStable | Backend/index.js:464 | scoring a complete record, printing it, reading the line back and scoring it again gives the same stored index and status, provided the record's thirteen printed measurements read back |

## Left out

- HTTP routing, response bodies and status codes, the server start, authentication and the user schema: these are plumbing with no computation.
- MongoDB reads and writes, and the persistence schema's validation (for example, a record with no location is refused on insert). The schema's field list shapes `Samples.Sample`. Database-only fields (`_id`, `__v`) are not modelled.
- File upload storage, file streams, and the CSV and spreadsheet readers. A reader's output is modelled as a map from header to raw cell (`Normaliser.Row`). `Pipeline.RowOf` models what a CSV reader makes of one unquoted line: it cuts at commas and gives quote characters no special meaning. The routes' reader (csv-parser) takes `"` as its quote character, so the read-back lemmas require, through `Report.Plain`, that no printed cell holds a comma, a newline or a double quote; labels holding any of them are outside those lemmas.
- The file listing, viewing and deletion routes, and the search for a pre-existing sample report: all filesystem probing.
- The text grammar of `parseFloat`, and JS number-to-text formatting. They are the parameters `parse` and `show`. The read-back lemmas in `Pipeline` assume that `show` never gives empty text, a comma, a newline or a double quote (`Report.PlainFormatter`); the splitting lemmas in `Report` assume only that it prints no comma or newline (`Report.ShowsNo`). They also assume that `parse` reads back the text `show` prints for each of the record's thirteen printed measurements (`Pipeline.PrintedValuesReadBack`), and for nothing else. JS meets this for any measurement whose shortest decimal text names the same double, which is every finite double; over the exact reals of this model no formatter can print every real, so the premise is stated per value rather than for all numbers. `Pipeline.ReadBackPremisesCanHold` exhibits a pair that meets it.
- Values.ParseFloat: does not model `parseFloat` giving `Infinity` or `-Infinity` for text; the parser returns a finite real or nothing.
- Hmpi.Round2: models `toFixed(2)` on exact reals, rounding halves away from zero. IEEE double rounding of the inputs and of the arithmetic is not modelled.
- The asynchronous sequencing of streams and promises, and the `results.push` array building in the route handlers.
- The scorer's object spread keeps every field of the input record. The model's record has exactly the schema's fields, so "all other fields unchanged" means the whole `Sample` is kept.
- Status is computed from the unrounded index, as the code does, not from the stored two-decimal value. `Hmpi.StatusUsesUnroundedIndex` shows an input where the two readings differ.
- Pipeline.ReportRoundTrip: it is weaker than an exact round trip. The report prints neither conductivity nor the heavy-metal index, so conductivity reads back as 0. A falsy measurement prints as an empty cell and reads back as 0. Labels read back as text.
