# CSV threat analysis of TelecomShieldAI, in Dafny

This project models the CSV ingestion service of TelecomShieldAI,
`CSVAnalysisService` in `server/services/csvAnalysis.ts`. An uploaded file of
call detail records (`'cdr'`) or SMS records (`'sms'`) arrives already decoded
into rows, each a map from column name to cell text. The service handles each
row in file order:

- It normalises the row into a call record or a message record. Every field is
  read through a list of column aliases with JavaScript's `a || b || c`. The
  duration is read with `parseInt`. A missing id is generated from the clock
  and a random number.
- It hands the record to the threat classifier.
- It fetches the first page of ten stored threats (`getThreats(10, 0)`) and
  takes the first whose `source` equals the record's origin number as the
  row's verdict. The store's listing is assumed to be newest first, as the
  name `latestThreat` expects; the order is not part of this model.
- It folds the verdict into the counters `threatsDetected`, `highRiskRecords`
  (score `>= 7`), `totalRiskScore` and `threatsByType`.

The result reports:

- `totalRecords`: every row, whatever its verdict.
- The counters above.
- The average risk score, which is `0` when no threat was found.
- A processing time.

Modules:

- `Options`: the `Option` type.
- `JsNumber`: ECMAScript `parseInt` with no radix argument, where NaN is
  `None`. It also holds the decimal text of a number, used for `Date.now()` in
  generated ids.
- `Normalizer`: `mapToCDRRecord` and `mapToSMSRecord`, with alias resolution
  specified by the `ResolvesTo` predicate.
- `Correlation`: `analyzeAndStoreThreat`. The classifier and the store are
  abstracted to one `StoreOutcome` per row: either an exception, or the stored
  threats in the store's listing order (assumed newest first).
- `Aggregation`: specification functions for the counters over the sequence of
  per-row verdicts, with lemmas about them.
- `CsvAnalysis`: `analyzeCSVData` as the method `AnalyzeCsvData`.
  - Its loop keeps each counter equal to the specification function applied to
    the verdicts so far.
  - The result equals `Summarize`, a pure function of the rows.
  - The source writes the aggregation block twice, once per file-type branch.
    Here it is one method, `CountVerdict`.

The clock, `Math.random()` and the classifier-and-store outcome are supplied
per row as a `RowContext` parameter. The processing time is a parameter.

A non-numeric `duration` cell such as `"not-a-number"` is truthy, so
`row.duration || row.call_duration || '0'` keeps it and `parseInt` yields NaN,
not 0. `duration` is therefore an `Option<int>`, and `NonNumericDurationIsNaN`
proves that this case gives `None`.

## Model

| member | source | states |
|---|---|---|
| JsNumber.ParseInt | server/services/csvAnalysis.ts:105 | `parseInt` is negative only when the trimmed text starts with `-`; the NaN cases are in `ParseIntCases` |
| JsNumber.ParseIntCases | server/services/csvAnalysis.ts:105 | `parseInt` is NaN exactly when no digit follows the trimmed text's optional sign (no hex digit after a `0x` prefix), and a result's sign is the text's sign |
| JsNumber.ParseIntReadsNumeral | server/services/csvAnalysis.ts:105 | `parseInt` reads back any integer's decimal numeral, stopping at a following non-digit (`"30s"` gives 30) |
| JsNumber.ParseIntZero | server/services/csvAnalysis.ts:105 | the default duration text `'0'` reads as 0 |
| JsNumber.ParseIntSkipsWhitespace | server/services/csvAnalysis.ts:105 | leading JavaScript white space never changes what `parseInt` reads |
| JsNumber.TrimStartResult | server/services/csvAnalysis.ts:105 | the leading-space trim keeps a suffix, drops only white space, and leaves no leading white space |
| JsNumber.ParseIntNaN | server/services/csvAnalysis.ts:105 | a text whose first non-blank character is neither a sign nor a digit is NaN |
| JsNumber.ParseIntNotANumber | server/services/csvAnalysis.ts:105 | `parseInt("not-a-number")` is NaN, not 0 |
| JsNumber.ParseIntNoDigits | server/services/csvAnalysis.ts:105 | the empty text and a lone `-` are NaN |
| JsNumber.ParseIntBareHexPrefix | server/services/csvAnalysis.ts:105 | `"0x"` with no hex digit is NaN |
| JsNumber.ParseIntHexExample | server/services/csvAnalysis.ts:105 | a `0x` prefix reads base 16: `"0x1A"` is 26 |
| JsNumber.ParseIntSignedExample | server/services/csvAnalysis.ts:105 | `" -42s"` is -42: blanks skipped, sign kept, trailing unit ignored |
| JsNumber.NatText | server/services/csvAnalysis.ts:102 | the decimal text of `Date.now()` is non-empty, all digits, no leading zero |
| Normalizer.FirstNonEmpty | server/services/csvAnalysis.ts:101-110 | the value is the first alias cell that is present and non-empty, else the default (`a \|\| b \|\| default`) |
| Normalizer.ResolvesToUnique | server/services/csvAnalysis.ts:101-110 | alias resolution determines exactly one value per row |
| Normalizer.ThreeAliasPriority | server/services/csvAnalysis.ts:103-104 | with three aliases, the first non-empty one wins in listed order, else the default |
| Normalizer.GeneratedId | server/services/csvAnalysis.ts:102 | the fallback id `${Date.now()}-${Math.random()}` is non-empty and contains `-` |
| Normalizer.ResolveMoment | server/services/csvAnalysis.ts:106 | the timestamp comes from the clock exactly when no time alias is non-empty, else from the first non-empty alias |
| Normalizer.ParseDuration | server/services/csvAnalysis.ts:105 | duration is `parseInt` of `duration`, else of `call_duration`, and 0 when both are absent or empty |
| Normalizer.MapToCdrRecord | server/services/csvAnalysis.ts:100-111 | every call field resolves through its aliases and default; `callId` is never empty; duration and timestamp as above |
| Normalizer.MapToSmsRecord | server/services/csvAnalysis.ts:113-122 | every message field resolves through its aliases and default; `messageId` is never empty |
| Normalizer.CallOriginPriority | server/services/csvAnalysis.ts:103 | a call's `fromNumber` follows `fromNumber`, `from_number`, `caller`, else `''` |
| Normalizer.MessageOriginPriority | server/services/csvAnalysis.ts:116 | a message's `fromNumber` follows `fromNumber`, `from_number`, `sender`, else `''` |
| Normalizer.NonNumericDurationIsNaN | server/services/csvAnalysis.ts:105 | a `duration` cell `"not-a-number"` gives NaN, not 0 |
| Correlation.Recent | server/services/csvAnalysis.ts:84 | `getThreats(10, 0)` is the first `min(10, n)` threats of the store's listing, in order |
| Correlation.FindBySource | server/services/csvAnalysis.ts:85 | `find` yields nothing exactly when no threat has the source, else the first threat that has it |
| Correlation.Correlate | server/services/csvAnalysis.ts:77-98 | an exception gives null; otherwise the result is the first match within the first ten listed threats, or null when none matches |
| Correlation.AnalyzeAndStoreThreat | server/services/csvAnalysis.ts:77-98 | as `Correlate`, for the record's `fromNumber` in both the `cdr` and `sms` branches |
| Correlation.MatchBeyondPageMissed | server/services/csvAnalysis.ts:84-85 | a match beyond the first ten listed threats is not found |
| Correlation.VerdictSeesOnlyOrigin | server/services/csvAnalysis.ts:85 | two records with the same origin number get the same verdict |
| Correlation.NewestMatchWins | server/services/csvAnalysis.ts:85 | a matching threat at the head of the listing is the verdict, whatever follows it |
| Aggregation.ThreatCount | server/services/csvAnalysis.ts:33-34 | threats detected never exceed rows seen |
| Aggregation.HighRiskCount | server/services/csvAnalysis.ts:35 | high-risk rows never exceed threats detected |
| Aggregation.ScoreSum | server/services/csvAnalysis.ts:36 | `totalRiskScore` is 0 while no threat has been found; its bounds are in `ScoreSumBounds` |
| Aggregation.TypeCounts | server/services/csvAnalysis.ts:37 | `threatsByType` is empty exactly when no threat was found; sum and per-type counts are in `TypeCountsSum` and `TypeCountsCount` |
| Aggregation.Bump | server/services/csvAnalysis.ts:37 | `(m[k] \|\| 0) + 1`: adds key `k` if missing, sets it to its old count plus one, and leaves other keys alone |
| Aggregation.AverageRisk | server/services/csvAnalysis.ts:58 | the average is 0 when no threat was found |
| Aggregation.ThresholdInclusive | server/services/csvAnalysis.ts:35 | score 7 is high risk and 6.99 is not (`>= 7`) |
| Aggregation.TypeCountsSum | server/services/csvAnalysis.ts:37 | the counts in `threatsByType` add up to `threatsDetected` |
| Aggregation.TypeCountsCount | server/services/csvAnalysis.ts:37 | a type is a key exactly when it occurs among the verdicts, and its count is the number of occurrences |
| Aggregation.CountOfTypeWitness | server/services/csvAnalysis.ts:37 | a type occurs a positive number of times exactly when some verdict has that type |
| Aggregation.TypeCountsKeys | server/services/csvAnalysis.ts:37 | the keys of `threatsByType` are exactly the types found |
| Aggregation.ScoreSumBounds | server/services/csvAnalysis.ts:36 | with scores in `[lo, hi]`, the total lies between count·lo and count·hi |
| Aggregation.AverageRiskBounds | server/services/csvAnalysis.ts:58 | with scores in `[lo, hi]`, the average also lies in `[lo, hi]` |
| Aggregation.NoVerdictAddsNothing | server/services/csvAnalysis.ts:33-38 | a null verdict changes no counter |
| Aggregation.FoldThreat | server/services/csvAnalysis.ts:33-38 | a threat adds one to `threatsDetected`, one to `highRiskRecords` iff its score is at least 7, its score to the total, and one to its type's count (1 on first occurrence) |
| CsvAnalysis.RowVerdict | server/services/csvAnalysis.ts:29-49 | file types other than `cdr`/`sms` give no verdict; an exception gives no verdict |
| CsvAnalysis.RowVerdictIsServiceCall | server/services/csvAnalysis.ts:29-41 | a row's verdict is `analyzeAndStoreThreat` on the row's mapped call (cdr) or message (sms) record |
| CsvAnalysis.RowVerdictSource | server/services/csvAnalysis.ts:85 | a verdict's source is the row's origin number, resolved through its aliases |
| CsvAnalysis.Verdicts | server/services/csvAnalysis.ts:28-49 | the verdict sequence the loop folds has one entry per row seen, and entry `k` is row `k`'s verdict |
| CsvAnalysis.Tally | server/services/csvAnalysis.ts:54-61 | `totalRecords` is the row count; high-risk ≤ threats ≤ total; type counts sum to threats; no threats gives average 0; `threatsByType` is empty exactly when no threat was found |
| CsvAnalysis.Summarize | server/services/csvAnalysis.ts:17-62 | `totalRecords` is the row count; an unknown file type gives no threats and an empty `threatsByType` |
| CsvAnalysis.UnknownFileTypeNoThreats | server/services/csvAnalysis.ts:29-49 | rows of an unknown file type are counted but never analysed |
| CsvAnalysis.AnalyzeRow | server/services/csvAnalysis.ts:29-49 | one loop iteration's mapping and correlation yields the row's verdict |
| CsvAnalysis.ProcessRow | server/services/csvAnalysis.ts:29-51 | one iteration takes the counters from the aggregates of the first `i` rows' verdicts to those of the first `i + 1` |
| CsvAnalysis.CountVerdict | server/services/csvAnalysis.ts:33-38 | the counters after one verdict are the specification counters of the verdicts seen plus this one |
| CsvAnalysis.AnalyzeCsvData | server/services/csvAnalysis.ts:17-62 | the loop's result equals `Summarize` of the rows; `totalRecords` is the row count; high-risk ≤ threats ≤ total |

## Left out

- `parseCSV` and the `csv-parser` stream (lines 64-75) are not modelled. The
  model starts from the decoded rows. A stream error, which makes the whole
  call reject, is not modelled either.
- The threat classifier (`threatAnalysisService.analyzeCDRRecord` and
  `analyzeSMSRecord`) and the storage layer are not part of this model. Their
  combined effect on one row is the `StoreOutcome` parameter.
  - The model does not capture that the classifier's insertion and the listing
    happen in the same store.
  - It does not capture that other uploads may write to the store concurrently.
- Correlation.Recent: `storage.getThreats` is not part of this model. Its
  listing order is assumed to be newest first, which is what the name
  `latestThreat` relies on. The properties hold for the listing in whatever
  order the store returns it.
- `new Date(...)` parsing is not modelled. A timestamp is either the resolved
  cell text or a clock reading.
  - Both the fallback id and the fallback timestamp use the row's single clock
    value. The source calls `Date.now()` twice.
- `Math.random()` is an arbitrary text parameter. The model does not check the
  form of a float's decimal text.
- `Date.now()` for `processedAt` (line 60) is a parameter.
- The casts `as 'voice' | 'sms'` and `as 'text' | 'binary'` check nothing at
  run time. The model keeps the resolved text.
- AverageRisk: scores are Dafny `real`s. The model does not capture IEEE-754
  rounding of `totalRiskScore` and the division.
- Aggregation.TypeCounts: `threatsByType` is a plain object in the source. The
  model does not capture keys inherited from `Object.prototype` (such as
  `"constructor"`), which would make `threatsByType[k] || 0` start from a
  non-number.
- JsNumber.ParseInt returns an exact integer. The model does not capture the
  `-0` of `parseInt("-0")` or the loss of precision above 2^53.
- `console.error` on a caught exception is output only and is not modelled.
- The `records` array is modelled by its contents. Only its length reaches the
  result.
- Client components (upload panel, dashboard and the rest) are not part of
  this model.
