# Order report pipeline, modelled in Dafny

The repository turns a list of e-commerce orders into a spreadsheet report. It
normalizes each order's `created_at` timestamp, drops the fields the report does not
need, filters the orders by a date range, a cost range and a status, translates the
status into a Russian label, and renames the columns to Russian headers. There are two
variants of the pipeline, kept here as two separate profiles because their status
comparisons differ:

- **API variant** (`api.py`, module `ApiPipeline`). The normalizer turns
  `YYYY-MM-DDThh:mm:ss[.ffffff]` into `DD.MM.YY hh:mm:ss`. The filter compares
  date-times and the lower-cased *raw* status. It translates the status and unwraps the
  nested promo `code` of every kept order. The report file is named after the moment it
  is written.
- **Standalone variant** (`main.py`, module `StandalonePipeline`). The normalizer keeps
  only the date, as `DD.MM.YY`. The filter compares calendar dates and the lower-cased
  *translated* label. There is no promo-code column and the report path is fixed
  (`orders_report.xlsx`).

Shared pieces:

- `Outcomes`: the `Result` and `Option` types. Every Python exception the pipeline lets
  escape (`KeyError`, `TypeError`, `AttributeError`, `ValueError`) becomes an `Err`.
- `Text`: zero-padded decimal digits, `str.split` on one character, and `str.lower`.
- `Calendar`: naive `datetime` and `date` values, their validity and their ordering.
- `TimeFormat`: `strptime` and `strftime` for fixed-width patterns made of `%Y %y %m %d
  %H %M %S` and literal characters, with their round trips.
- `Orders`: records as maps from field names to JSON values, plus three parts of the
  order shape: the opaque fields the normalizer drops, the five-entry status vocabulary,
  and the column renaming.
- `Batch`: the specification of a loop over a list of records that are rewritten in
  place. `Collect` gives the list the loop builds, or the first error. `Leave` gives the
  state the loop leaves the records in, up to and including the record that raised.
  `RunInPlace` is the loop itself over an `array`, proved against both. `RewriteInPlace`
  is that loop for an iteration that rewrites every record or raises, which is what both
  normalizers do.

Each order is a `map<string, Value>`. The loaded list is an `array` of orders that the
loops mutate in place, as the source mutates its dictionaries. Python's evaluation order
is followed field by field, so the model raises on the same inputs:

- **API filter**: the date is parsed first. The cost is read only inside the date
  range. The status is lower-cased only when the filter is not `all`.
- **Standalone filter**: the status is looked up in the vocabulary first, for every
  order. A status that cannot be a dictionary key raises `TypeError`. Inside both
  ranges, `.lower()` runs before the `all` test, so a status that is not text raises
  even when every status is requested.

Three consequences of the code are worth stating outright:

- **Columns.** The report code renames columns and projects nothing. Any field of an
  order outside the rename map stays in the report under its own name.
  `RenameColumns` keeps unknown columns.
- **Timezone suffixes.** The API normalizer drops everything after the first `.` of the
  time part. A fraction followed by a UTC offset is therefore accepted, and the offset is
  discarded. An offset without a fraction reaches `strptime` and fails to parse.
  `CutsIsoTimestamp` states exactly what is dropped.
- **Promo code in the standalone report.** The standalone rename map has no entry for
  `code`. A `code` field present in the data reaches the report under the name `code`
  (`StandalonePipeline.ReportHeaders`).

## Model

| member | source | states |
|---|---|---|
| Orders.Field | api.py:28 | a subscript raises KeyError exactly when the field is missing, and otherwise gives its value |
| Orders.TextField | api.py:28 | reading a text field raises KeyError when it is missing and a type error when it is not a string; otherwise gives its text |
| Orders.TotalCost | api.py:61 | `total_cost` must be present and an integer to be compared with the bounds |
| Orders.StripOpaque | api.py:35-36 | exactly `user`, `person`, `comment`, `address` are removed, absent ones without error; every other field keeps its value |
| Orders.PopOpaque | api.py:35-36 | the loop of four `pop(field, None)` calls leaves the record without the opaque fields and nothing else changed |
| Orders.WithDisplayTimestamp | api.py:32-36 | after the assignment and the pops the record has the new `created_at`, loses exactly the opaque fields, and keeps every other value |
| Orders.Translate | api.py:64 | `dict.get(token, token)`: a known token gives its label, any other status passes through unchanged |
| Orders.TranslatedStatus | main.py:57 | the lookup raises KeyError on a missing status and TypeError on an unhashable one; a text status is translated, any other hashable status is kept as is |
| Orders.VocabularyAlphabets | api.py:49-55 | every token starts with a Latin small letter, every label with a Cyrillic capital |
| Orders.VocabularyShape | api.py:49-55 | the five labels are pairwise distinct and none of them is a token |
| Orders.TranslateIdempotent | api.py:64 | translating a translated status changes nothing |
| Orders.TranslateCollisions | main.py:57 | two statuses share a translation only when equal or when one is the other's label already |
| Orders.RenameColumns | api.py:70-78 | each column named by the map takes its header, every other column keeps its name, in the same order |
| Orders.RenameKeepsColumnsDistinct | api.py:70-78 | an injective map whose headers clash with no unrenamed column keeps distinct columns distinct |
| Text.Split | api.py:28-29 | `s.split(c)` gives one more piece than there are separators, none holding the separator |
| Text.JoinSplit | api.py:28-29 | joining the pieces with the separator gives back the string |
| Text.SplitJoin | api.py:28 | separator-free pieces joined and split give back the pieces |
| Text.SplitWithoutSeparator | main.py:18 | a string without the separator splits into itself |
| Text.SplitAtFirst | main.py:18 | the first piece ends at the first separator |
| Text.Lower | api.py:62 | `str.lower` keeps the length; Latin and basic Cyrillic capitals map to small letters |
| Text.LowerIdempotent | api.py:106 | lower-casing the already lower-cased status filter changes nothing |
| Text.DigitsRoundTrip | api.py:32 | the zero-padded `%d`/`%m`/`%y`/`%Y` rendering of a number that fits reads back as the number |
| Calendar.DaysInMonth | api.py:32 | the day count strptime's validity check uses, leap years included |
| Calendar.NotAfterTotalOrder | api.py:61 | `<=` on date-times is reflexive, total, antisymmetric and transitive, so the range test is an interval |
| Calendar.NotAfterDate | main.py:59 | comparing dates is coarser than comparing the date-times they come from |
| Calendar.DateNotAfterByKey | main.py:59 | on valid dates, `<=` compares year, then month, then day: it is the order of the number year·10000 + month·100 + day |
| Calendar.NotAfterByKey | api.py:61 | on valid date-times, `<=` is the order of the date key followed by the second of the day |
| Calendar.LeapDayValid | api.py:32 | the `datetime` range check accepts 29 February exactly in leap years of 1..9999 with an in-range time |
| TimeFormat.ScanLength | api.py:60 | matching a pattern consumes the whole string, so only a string of exactly the pattern's width can match |
| TimeFormat.Strptime | api.py:32 | a match covers the whole string at the pattern's width and gives a valid date-time; anything else is a ValueError carrying the text |
| TimeFormat.Strftime | api.py:32 | the printed text has exactly the pattern's width |
| TimeFormat.ScanStrftime | api.py:32 | any pattern reads back, field by field, what it printed |
| TimeFormat.StrftimeAvoids | api.py:28 | a printed pattern holds a non-digit only where the pattern has it, so a printed date has no `T` |
| TimeFormat.ReplayFields | api.py:60 | reading back sets exactly the fields the pattern names, `%y` through the pivot |
| TimeFormat.PivotYear | api.py:60 | `%y` reads back the year itself exactly for 1969..2068 |
| TimeFormat.PatternWidths | api.py:32 | the ISO pattern is 19 characters wide, the display pattern 17, the date patterns 10 and 8, the file stamp 17 |
| TimeFormat.IsoDateTimeParts | api.py:32 | an ISO date-time is its date, a blank and its time |
| TimeFormat.IsoDateTimeRoundTrip | api.py:32 | '%Y-%m-%d %H:%M:%S' reads back every valid date-time |
| TimeFormat.DisplayDateTimeRoundTrip | api.py:60 | '%d.%m.%y %H:%M:%S' reads back the date-time exactly when its year is in 1969..2068 |
| TimeFormat.DisplayDateRoundTrip | main.py:59 | '%d.%m.%y' reads back the date at midnight exactly when its year is in 1969..2068 |
| TimeFormat.IsoDateRoundTrip | main.py:19 | '%Y-%m-%d' reads back the date of every valid date-time, at midnight |
| TimeFormat.DisplayDateReadsBack | main.py:59 | the date that '%d.%m.%y' reads back is the printed date exactly in 1969..2068 |
| TimeFormat.StrftimeIgnoresTime | main.py:19 | a pattern without time fields prints the same for any time of day |
| TimeFormat.FileStampRoundTrip | api.py:81 | '%d.%m.%y %H.%M.%S' reads back the moment inside the pivot window |
| TimeFormat.ProfilesDoNotMix | main.py:59 | a display string of one profile never parses under the other profile's pattern |
| Batch.Collect | api.py:58-65 | the list the loop builds is never longer than its input |
| Batch.Leave | api.py:26-36 | the loop leaves as many records as it was given |
| Batch.CollectOkIff | api.py:59-66 | the loop finishes exactly when no record raises |
| Batch.RunInPlace | api.py:26-36 | the `for` loop over the list gives the list `Collect` specifies and leaves the array as `Leave` specifies |
| Batch.CollectIsLeave | api.py:26-36 | a loop that keeps every record in its rewritten form outputs exactly the rewritten list |
| Batch.LeaveAt | api.py:59-66 | a record is rewritten exactly when no earlier record raised |
| Batch.AbortsAt | api.py:26-36 | the first record that raises ends the loop with its error; earlier records are rewritten, later ones untouched |
| Batch.CollectSubsequence | api.py:58-65 | the output is an order-preserving subsequence: the kept records, in input order |
| Batch.CollectAllKept | api.py:26-36 | when every record is kept, the output has one rewritten record per input, in order |
| Batch.RewriteVerdict | api.py:26-36 | a loop iteration that rewrites a record keeps it when the rewrite succeeds and raises the rewrite's error otherwise |
| Batch.RewriteKeepsAll | api.py:26-36 | a rewriting loop (both normalizers, api.py:26-36 and main.py:16-24) keeps every record it does not raise on, in its rewritten form |
| Batch.RewriteInPlace | api.py:26-36 | the rewriting loop over the array saves the rewritten list or fails on the first bad record, and a saved list is the array as left |
| Batch.RewriteBatch | api.py:26-36 | the batch is saved exactly when every record rewrites; it then has the same count and order, each record rewritten |
| Batch.RewriteAbortsAt | api.py:26-36 | the first record whose rewrite fails aborts the batch with its error; earlier records are rewritten in place, the rest untouched |
| ApiPipeline.SourceDateTime | api.py:28-32 | a `created_at` without exactly one `T` fails the unpacking; a parsed date-time is valid |
| ApiPipeline.DisplayTimestamp | api.py:32 | formatting succeeds exactly when parsing does, and gives 17 characters |
| ApiPipeline.NormalizeRecord | api.py:28-36 | succeeds exactly when `created_at` is text that parses; the result holds the display timestamp, loses exactly the opaque fields, and keeps every other value |
| ApiPipeline.NormalizeOrder | api.py:28-36 | the statements of one normalizer iteration compute what `NormalizeRecord` specifies |
| ApiPipeline.NormalizeOrders | api.py:26-36 | the loop saves the rewritten list or fails on the first bad record, and the saved list is the array as left |
| ApiPipeline.CutsIsoTimestamp | api.py:28-29 | date, `T`, time and a tail starting with `.` split into "date time", the tail dropped |
| ApiPipeline.NormalizesIsoTimestamp | api.py:28-32 | `YYYY-MM-DDThh:mm:ss` with or without a fraction normalizes to `DD.MM.YY hh:mm:ss` |
| ApiPipeline.NormalizedReadsBack | api.py:60 | the filter re-reads a normalized timestamp as the original date-time exactly when the year is in 1969..2068 |
| ApiPipeline.NormalizedBatch | api.py:26-36 | the batch is saved exactly when every record normalizes; it then has the same count and order, each record rewritten, no opaque field left |
| ApiPipeline.RequestCriteria | api.py:106 | the criteria hold the lower-cased request as their status, which is therefore already in lower case; the bounds pass through |
| ApiPipeline.RequestCaseInvariant | api.py:62 | lower-casing the request or the order's status first changes no verdict: only the lower-cased forms are compared |
| ApiPipeline.StatusCaseInvariant | api.py:62 | two statuses that agree once lower-cased get the same verdict under any criteria |
| ApiPipeline.RequestAllSelects | api.py:62 | a request of `ALL` selects an order exactly when its date and cost are inside the ranges, whatever its status |
| ApiPipeline.RequestCaseExamples | api.py:106 | `ACCEPTED` and `Accepted` both become `accepted`, and `ALL` becomes the `all` that switches the status test off |
| ApiPipeline.OrderDateTime | api.py:60 | a re-parsed `created_at` is a valid date-time |
| ApiPipeline.Selects | api.py:60-62 | the test fails when the date does not parse, with that error; a selected order has a parseable date inside the range and an integer cost inside the bounds |
| ApiPipeline.FilterStep | api.py:60-66 | an order is skipped exactly when the test rejects it; a kept order was selected and keeps its set of fields |
| ApiPipeline.FilterEffect | api.py:60-66 | an iteration never adds or removes a field of the order and changes no field other than `status` and `code` |
| ApiPipeline.SelectsMatches | api.py:61-62 | on parseable fields the verdict is date range, cost range and status test, every bound inclusive |
| ApiPipeline.SelectsRaises | api.py:60-62 | the date always raises when bad; the cost only inside the date range; the status only inside both ranges and when the filter is not `all` |
| ApiPipeline.Relabel | api.py:64 | relabelling raises exactly when the status lookup does, and replaces only `status` |
| ApiPipeline.UnwrapCode | api.py:66 | unwrapping succeeds exactly when `code` is a mapping holding `code`, and replaces `code` by the inner value |
| ApiPipeline.FilterVerdict | api.py:61-66 | rejected records are skipped; a record is kept exactly when selected with a hashable status and an unwrappable code, with the same keys, its status translated, its code unwrapped, everything else unchanged |
| ApiPipeline.FilterAt | api.py:60-66 | the statements of one filter iteration give `FilterStep`'s verdict and rewrite only the order at that position |
| ApiPipeline.FilterOrders | api.py:58-66 | the filter loop builds the kept list and leaves the loaded list as specified |
| ApiPipeline.FilterKeepsExactly | api.py:58-65 | the report rows are an order-preserving subsequence holding exactly the selected records, each rewritten |
| ApiPipeline.RejectedUntouched | api.py:59-66 | a rejected record is never mutated |
| ApiPipeline.KeptRewrittenInPlace | api.py:63-66 | a kept record is rewritten in the loaded list itself, the same way as in the report |
| ApiPipeline.MissingPromoAbortsReport | api.py:66 | a selected record without a usable promo code makes the whole report fail |
| ApiPipeline.ReportColumnsEntry | api.py:70-78 | the seven source keys and their headers |
| ApiPipeline.ReportHeadersDiffer | api.py:70-78 | two source keys never get the same header |
| ApiPipeline.ReportColumnsShape | api.py:70-78 | the rename map is injective and no header is itself a source key |
| ApiPipeline.ReportHeaders | api.py:70-78 | the seven columns become `Имя`, `Адрес`, `Дата`, `Номер заказа`, `Статус`, `Сумма`, `Промокод` |
| ApiPipeline.ReportFileName | api.py:81-82 | the report name is 29 characters long |
| ApiPipeline.ReportFileNameReadsBack | api.py:81-82 | the name is `report_`, the moment as '%d.%m.%y %H.%M.%S', and `.xlsx`; inside the pivot window the moment reads back |
| ApiPipeline.ReportFileNamesDistinct | api.py:81-82 | reports written at different seconds of the pivot window get different names |
| StandalonePipeline.SourceDate | main.py:18-19 | the text before the first `T` is parsed as '%Y-%m-%d'; a failure carries that text |
| StandalonePipeline.DisplayDate | main.py:19 | formatting succeeds exactly when parsing does, and gives 8 characters |
| StandalonePipeline.NormalizeRecord | main.py:18-24 | succeeds exactly when `created_at` is text whose date parses; the result holds the display date, loses exactly the opaque fields, and keeps every other value |
| StandalonePipeline.NormalizeOrder | main.py:18-24 | the statements of one normalizer iteration compute what `NormalizeRecord` specifies |
| StandalonePipeline.NormalizeOrders | main.py:16-24 | the loop saves the rewritten list or fails on the first bad record, and the saved list is the array as left |
| StandalonePipeline.WholeStringWithoutT | main.py:18 | without a `T` the whole string is parsed as the date |
| StandalonePipeline.NormalizesIsoDate | main.py:18-19 | `YYYY-MM-DD` followed by nothing or by `T` and anything normalizes to `DD.MM.YY`; no time survives |
| StandalonePipeline.NormalizedDateReadsBack | main.py:59 | the filter re-reads a normalized date as the original calendar date exactly when the year is in 1969..2068 |
| StandalonePipeline.NormalizedBatch | main.py:16-24 | the batch is saved exactly when every record normalizes; it then has the same count and order, each record rewritten, no opaque field left |
| StandalonePipeline.ParseDisplayDate | main.py:48-49 | a typed date parses exactly when it matches '%d.%m.%y', and gives a valid date |
| StandalonePipeline.RequestCriteria | main.py:48-52 | the criteria exist exactly when both dates parse, and the start date is read first; the requested status is lower-cased, so it is already in lower case |
| StandalonePipeline.RequestDateReadsBack | main.py:48-49 | a date typed as `DD.MM.YY` inside the pivot window names that date |
| StandalonePipeline.OrderDate | main.py:59 | a re-parsed `created_at` is a valid date |
| StandalonePipeline.Selects | main.py:57-61 | the test never succeeds without a successful status lookup, and a failed lookup is its error; a selected order has a parseable date inside the range and an integer cost inside the bounds |
| StandalonePipeline.FilterStep | main.py:57-64 | an order is skipped exactly when the test rejects it; a kept order was selected and keeps its set of fields |
| StandalonePipeline.FilterEffect | main.py:57-64 | an iteration never adds or removes a field of the order and changes no field other than `status` |
| StandalonePipeline.SelectsMatches | main.py:58-61 | on parseable fields and a text label the verdict is date range, cost range and label test, every bound inclusive |
| StandalonePipeline.SelectsRaises | main.py:57-61 | the status lookup and the date always raise when bad; the cost only inside the date range; a non-text status inside both ranges, even for `all` |
| StandalonePipeline.SelectedStatus | main.py:61 | a selected order's translated status is text matching the filter, or the filter is `all` |
| StandalonePipeline.TokenMissesLabels | main.py:39-45 | no lower-cased label equals a token |
| StandalonePipeline.RawTokenNeverSelected | main.py:57-61 | requesting a raw token such as `succeeded` never selects an order carrying a known token |
| StandalonePipeline.UnknownStatusKeptAsIs | main.py:57-63 | a status outside the vocabulary is compared by its own lower-cased text, and a kept order carrying one is stored exactly as it was |
| StandalonePipeline.Relabelled | main.py:63 | a kept order gets the translated status and nothing else changes |
| StandalonePipeline.FilterVerdict | main.py:57-64 | an order is skipped exactly when rejected, kept exactly when selected, and raises exactly when the test raises; a kept order has the same keys, the translated status, everything else unchanged |
| StandalonePipeline.FilterAt | main.py:56-64 | the statements of one filter iteration give `FilterStep`'s verdict and rewrite only the order at that position |
| StandalonePipeline.FilterOrders | main.py:55-64 | the filter loop builds the kept list and leaves the loaded list as specified |
| StandalonePipeline.FilterKeepsExactly | main.py:55-64 | the report rows are an order-preserving subsequence holding exactly the selected orders, each relabelled |
| StandalonePipeline.UnselectedUntouched | main.py:56-64 | an order that is rejected, or whose test raises, is left exactly as it was |
| StandalonePipeline.KeptRelabelledInPlace | main.py:63-64 | a kept order is relabelled in the loaded list itself, the same way as in the report |
| StandalonePipeline.FilterAbortsAt | main.py:56-64 | the first order whose test raises aborts the report with its error; earlier kept orders are relabelled, the rest untouched |
| StandalonePipeline.ReportColumnsEntry | main.py:70-77 | the six source keys and their headers |
| StandalonePipeline.ReportHeadersDiffer | main.py:70-77 | two source keys never get the same header |
| StandalonePipeline.ReportColumnsShape | main.py:70-77 | the rename map is injective, no header is a source key, and there is no promo-code entry |
| StandalonePipeline.ReportHeaders | main.py:70-77 | the six columns get their headers, and a `code` column keeps its own name |

## Left out

- Flask routing, CORS, the download and listing endpoints and the report directory (api.py:1-19, 83, 89-101, 108-128): HTTP and filesystem plumbing.
- The HTTP fetch of the orders (api.py:93, main.py:12-14, 29-30). The fetched orders are the input array.
- Writing and reading the intermediate JSON file (api.py:39-40, 45-46, main.py:26-27, 35-36). The handoff between the two functions is the identity on the array.
- Building the pandas DataFrame and writing the spreadsheet (api.py:69, 84, main.py:67, 81). Only the header renaming is modelled, on a list of column names. Which columns the table has, and their order, is decided by pandas.
- Console messages (main.py:28, 30, 82).
- The standalone prompts (main.py:48-52). Typed dates are parsed (`ParseDisplayDate`), but `input()` and `int()` are not: the integer bounds and the typed status are parameters.
- `datetime.fromisoformat` of the request dates (api.py:102-103). They are parameters of type `DateTime`. Timezone-aware values, which would make the comparison raise, are not modelled.
- `datetime.now()` (api.py:81). The moment is a parameter of `ReportFileName`.
- Fractions of a second in the request bounds (api.py:102-103). The bounds are whole-second `DateTime` values, so a bound with a fraction cannot be represented. Every order time is a whole second, so a fractional start selects the same orders as the next whole second, and a fractional end the same as its own whole second. The microseconds of `datetime.now()` (api.py:81) never reach the report name, because its pattern prints none.
- JSON floats and booleans are not representable: `Value` has no constructor for them, and `total_cost` and the bounds are integers. Python would compare a float or boolean cost with the bounds; the model has no such order.
- Text.Lower covers Basic Latin and the Cyrillic capitals U+0400..U+042F only. Full Unicode case mapping is not modelled.
- TimeFormat.Strptime is strict fixed-width with ASCII digits. Python also accepts one-digit fields and a few other spellings, so some strings that Python parses fail in the model.
- Batch.RunInPlace: both variants' `for` loops are this generic loop, which applies one iteration's step and effect functions to each element of the array. The statements of one iteration (`NormalizeOrder`, `FilterAt`) are separate methods proved to compute those functions; they are not called from the loop.
- In Python the filtered list holds the same dictionaries as the loaded list. The model holds values: the kept list holds copies equal to what the loaded array ends with (`KeptRewrittenInPlace`, `KeptRelabelledInPlace`).
