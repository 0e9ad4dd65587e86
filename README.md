# DataSwift EDA engine and dashboard views, modelled in Dafny

This project models the exploratory-data-analysis engine of DataSwift's backend, plus three pieces of the dashboard that hold real logic.

The backend engine is `EDAService` and its in-memory `DATASETS` dict. It covers:
- uploading a file and choosing the pandas reader by extension;
- the profile of a dataset: dtype tags, missing counts, NaN cleaning and the five-row preview;
- the IQR outlier report;
- the rule-based insights;
- the "Dataset not found" checks.

The dashboard pieces are:
- the activity history page: the filter pipeline, ten-per-page pagination, the previous/next/number handlers and the five-button page window;
- the model testing page: the confusion matrix and the ratios derived from it, the simulated progress bar, the summary and confidence-bucket counters, the first-ten table and the CSV download;
- the export dialog's column picker.

A pandas DataFrame becomes a `Table`. It is an ordered list of named columns of equal length, with unique names. Each column carries the dtype pandas inferred (`Int64`, `Float64`, `Bool`, `Datetime64`, `Object`) and one `Cell` per row. Reals stand in for floats.

Files, one module each:
- `seqs.dfy`: filter, count and subsequence facts.
- `text.dfy`: ASCII lower-casing, substring search, text after the last separator.
- `frame.dfy`: the table and the dtype predicates pandas uses.
- `profiler.dfy`: `map_dtype`, missing counts, `clean_nans`, the preview and the profile.
- `outliers.dfy`: linear-interpolation quantiles, IQR fences and the per-column report.
- `insights.dfy`: the four insight rules and their loops.
- `store.dfy`: the dataset store (`class DatasetStore`), the upload dispatch and the by-id operations.
- `history.dfy`: the history page, with the page state as `class HistoryView`.
- `model_testing.dfy`: the testing page.
- `column_select.dfy`: the column picker.

Notes on what the code does, which the model follows:
- `map_dtype` tests `is_numeric_dtype` first (eda_service.py:39), and pandas counts booleans as numeric. Its `boolean` branch (eda_service.py:43-44) is therefore never reached: a boolean column is tagged `number`.
- The correlation rule (eda_service.py:157-163) iterates over ordered pairs of matrix cells. In a symmetric matrix each strongly correlated pair is reported twice, once in each order.
- Outlier detection and the outlier insights use `select_dtypes(include='number')`, which leaves boolean columns out. The "all columns are numeric" suggestion uses the same selection, so a table with a boolean column never gets it.
- The missing-value rule uses `isnull().mean()`. On a table with no rows that is NaN, every comparison with NaN is false, and no missingness insight is given.
- `describe(include='all')` (eda_service.py:35) raises `ValueError` on a table without columns, so profiling such a table fails.

## Model

| member | source | states |
|---|---|---|
| EdaService.Extension | backend/src/services/eda_service.py:16 | the extension never contains a dot, is no longer than the file name, and a name without a dot is its own lower-cased extension |
| EdaService.ExtensionOfJoin | backend/src/services/eda_service.py:16 | for any base name, the extension of `base.ext` is the lower-cased `ext` |
| EdaService.FormatOf | backend/src/services/eda_service.py:17-24 | csv selects the CSV reader, xlsx or xls the Excel reader, json the JSON reader, and every other extension is unsupported (each as an iff) |
| EdaService.UpperCaseCsvAccepted | backend/src/services/eda_service.py:16-18 | a name ending in `.CSV` is read as CSV whatever precedes the dot |
| EdaService.BareCsvAccepted | backend/src/services/eda_service.py:16-18 | the dot-less name `csv` is accepted as a CSV file |
| EdaService.TextFileRefused | backend/src/services/eda_service.py:16-24 | a `.txt` upload is unsupported for any base name |
| EdaService.DatasetStore.constructor | backend/src/services/eda_service.py:9 | the store starts empty |
| EdaService.DatasetStore.Upload | backend/src/services/eda_service.py:14-27 | an unsupported extension fails with that extension and a reader failure fails, both leaving the store unchanged; otherwise the table is stored under the fresh id, which is returned, and every other entry is kept |
| EdaService.DatasetStore.Lookup | backend/src/services/eda_service.py:31-33 | not found exactly when the id is absent, otherwise the stored table |
| EdaService.DatasetStore.AnalyzeDataset | backend/src/services/eda_service.py:30-71 | fails exactly when the id is absent (not found) or the stored table has no columns (the error `describe` raises); otherwise the profile of the stored table |
| EdaService.DatasetStore.CorrelationMatrix | backend/src/services/eda_service.py:104-111 | not found exactly when the id is absent, otherwise the matrix computed for the stored table |
| EdaService.DatasetStore.DetectOutliersById | backend/src/services/eda_service.py:114-134 | not found exactly when the id is absent, otherwise one report per number column, in column order, each the IQR outlier entry of that column |
| EdaService.DatasetStore.GenerateInsightsById | backend/src/services/eda_service.py:137-185 | not found exactly when the id is absent, otherwise the insights of the four rules for the stored table |
| Profiler.MapDtype | backend/src/services/eda_service.py:38-46 | number iff numeric; date iff not numeric and datetime; boolean iff neither of those and bool; string otherwise |
| Profiler.BooleanTagUnreachable | backend/src/services/eda_service.py:38-47 | the boolean tag is never produced and a bool column is tagged number |
| Profiler.MissingCount | backend/src/services/eda_service.py:36 | the count is at most the column length, zero iff no cell is missing, the length iff all are |
| Profiler.MissingCountFacts | backend/src/services/eda_service.py:36 | the same two iffs for the underlying count of missing cells |
| Profiler.CleanNans | backend/src/services/eda_service.py:50-59 | NaN and infinite floats become null; other scalars are kept; lists and dicts keep their length |
| Profiler.CleanList | backend/src/services/eda_service.py:53-54 | a list is cleaned element by element |
| Profiler.CleanEntries | backend/src/services/eda_service.py:51-52 | a dict keeps its keys and cleans each value |
| Profiler.CleanNansSafe | backend/src/services/eda_service.py:49-59 | the cleaned value holds no NaN or infinity at any depth |
| Profiler.CleanListSafe | backend/src/services/eda_service.py:53-54 | a cleaned list holds no NaN or infinity at any depth |
| Profiler.CleanEntriesSafe | backend/src/services/eda_service.py:51-52 | a cleaned dict holds no NaN or infinity at any depth |
| Profiler.CleanNansKeepsSafe | backend/src/services/eda_service.py:50-59 | a value without NaN or infinity is returned unchanged |
| Profiler.CleanListKeepsSafe | backend/src/services/eda_service.py:53-54 | a list without NaN or infinity is returned unchanged |
| Profiler.CleanEntriesKeepsSafe | backend/src/services/eda_service.py:51-52 | a dict without NaN or infinity is returned unchanged |
| Profiler.CleanNansIdempotent | backend/src/services/eda_service.py:50-59 | cleaning twice is cleaning once |
| Profiler.PreviewValue | backend/src/services/eda_service.py:62 | a preview cell is JSON-safe, and null exactly for a missing or infinite cell |
| Profiler.Record | backend/src/services/eda_service.py:62 | a preview record maps every column name, in order, to that column's cleaned cell of the row |
| Profiler.Preview | backend/src/services/eda_service.py:62 | the preview holds min(5, rows) records, record k being row k |
| Profiler.DtypeEntries | backend/src/services/eda_service.py:47 | one dtype tag per column, in column order |
| Profiler.MissingEntries | backend/src/services/eda_service.py:36 | one missing count per column, in column order |
| Profiler.Analyze | backend/src/services/eda_service.py:34-69 | exactly one dtype tag and one missing count per column, and the preview is the table's five-row preview: min(5, rows) records of one entry per column, each a cleaned cell |
| Outliers.SeriesOf | backend/src/services/eda_service.py:120 | the series has one entry per row, present exactly where the cell is a finite number, with that number |
| Outliers.PresentEmpty | backend/src/services/eda_service.py:121-122 | no value is left for the quantile exactly when every entry of the series is absent |
| Outliers.Insert | backend/src/services/eda_service.py:121-122 | inserting into a sorted list keeps it sorted and adds exactly that element |
| Outliers.Sort | backend/src/services/eda_service.py:121-122 | the result is sorted and a permutation of the input |
| Outliers.Position | backend/src/services/eda_service.py:121-122 | the interpolation position q·(n−1) lies in [0, n−1] |
| Outliers.PositionMonotone | backend/src/services/eda_service.py:121-122 | a larger quantile level gives a later position |
| Outliers.Quantile | backend/src/services/eda_service.py:121-122 | the quantile is absent exactly when the series has no value |
| Outliers.InterpolateBetween | backend/src/services/eda_service.py:121-122 | a linearly interpolated quantile lies between the two neighbouring sorted values |
| Outliers.InterpolateMonotone | backend/src/services/eda_service.py:121-122 | interpolation over a sorted list is monotone in the position |
| Outliers.QuantileMonotone | backend/src/services/eda_service.py:121-122 | the quantile is monotone in its level, so Q1 <= Q3 |
| Outliers.IqrFences | backend/src/services/eda_service.py:121-125 | defined as Q1 − 1.5·IQR and Q3 + 1.5·IQR; ensures the fences are absent exactly when the series has no value, and lower <= Q1 <= Q3 <= upper otherwise |
| Outliers.InsideFencesNotFlagged | backend/src/services/eda_service.py:121-126 | a value between Q1 and Q3 is never an outlier |
| Outliers.FencesNotFlagged | backend/src/services/eda_service.py:124-126 | the comparisons are strict: a value equal to the lower or the upper fence is not an outlier |
| Outliers.IsOutlier | backend/src/services/eda_service.py:126 | defined as strictly below the lower fence or strictly above the upper one; ensures a missing cell, or a series without fences, is never flagged |
| Outliers.NumberColumns | backend/src/services/eda_service.py:119 | every selected column is a number column of the table, and every number column is selected |
| Outliers.Interpolate | backend/src/services/eda_service.py:121-122 | linear interpolation between the neighbouring sorted values; at a whole position it is exactly the value there |
| Outliers.ValuesAt | backend/src/services/eda_service.py:128 | one value per flagged row, each the value held at that row |
| Outliers.Flagged | backend/src/services/eda_service.py:126-127 | the flagged indices are increasing, each an outlier, and every outlier index is among them |
| Outliers.FlaggedCount | backend/src/services/eda_service.py:126-130 | the number of flagged indices is the number of outlier entries |
| Outliers.ColumnOutliers | backend/src/services/eda_service.py:119-133 | count, indices and values have equal length; the count is the number of outliers; an index is listed iff its entry is outside the fences, in increasing order, with its value |
| Outliers.DetectOutliers | backend/src/services/eda_service.py:118-134 | one report per number column, in column order, each the column's outlier entry |
| Outliers.ExampleSorted | backend/src/services/eda_service.py:121-122 | the series 1, 2, 3, 4, 100 sorts to itself |
| Outliers.ExampleFences | backend/src/services/eda_service.py:121-125 | for 1, 2, 3, 4, 100: Q1 = 2, Q3 = 4 and the fences are [−1, 7] |
| Outliers.ExampleReport | backend/src/services/eda_service.py:119-133 | for 1, 2, 3, 4, 100 the report is one outlier, at index 4, with value 100 |
| Insights.MissingFraction | backend/src/services/eda_service.py:143 | the missing fraction is NaN (absent) exactly for a table with no rows and otherwise lies in [0, 1] |
| Insights.MissingInsight | backend/src/services/eda_service.py:144-154 | at most one item per column: a warning iff the fraction exceeds 0.5, an info iff it lies in (0.2, 0.5] |
| Insights.MissingRuleCounts | backend/src/services/eda_service.py:144-154 | in whole numbers: a warning iff 2·missing > rows, an info iff 5·missing > rows >= 2·missing, nothing iff 5·missing <= rows |
| Insights.MissingInsightsRule | backend/src/services/eda_service.py:143-154 | the whole missingness pass warns about a column name iff that column is more than half missing, and informs iff it is more than a fifth and at most half missing |
| Insights.MissingInsightsLength | backend/src/services/eda_service.py:144-154 | the missingness pass gives at most one item per column |
| Insights.OutlierCountAgrees | backend/src/services/eda_service.py:165-173 | the count the insight loop computes equals the count the outlier report gives for the same column |
| Insights.OutlierCounts | backend/src/services/eda_service.py:165-173 | one count per number column |
| Insights.GenerateInsights | backend/src/services/eda_service.py:137-185 | the insights are the missingness items, then the correlation items, then the outlier warnings, then the suggestion |
| Insights.MissingLoop | backend/src/services/eda_service.py:142-154 | the missingness loop gives the per-column rule for every column, in order |
| Insights.CorrelationLoop | backend/src/services/eda_service.py:155-163 | the nested loop over matrix rows and columns gives the per-cell rule, row by row |
| Insights.OutlierLoop | backend/src/services/eda_service.py:164-178 | the outlier loop gives a warning for each number column with a positive count, in order |
| Insights.InsightsOrdered | backend/src/services/eda_service.py:141-185 | the result lists all missingness items before all correlation items, those before all outlier warnings, and the suggestion last |
| Insights.CorrelationRule | backend/src/services/eda_service.py:157-163 | an item for the ordered pair (a, b) is given iff some matrix cell with row a and column b has distinct names and an absolute value above 0.8 |
| Insights.SymmetricPairTwice | backend/src/services/eda_service.py:157-163 | in a symmetric matrix a strongly correlated pair is reported in both orders |
| Insights.OutlierRule | backend/src/services/eda_service.py:164-178 | a warning with a column name and count is given iff the count is positive and is that number column's IQR outlier count |
| Insights.SuggestionInsights | backend/src/services/eda_service.py:179-184 | at most one insight, and it is the all-numeric suggestion |
| Insights.AllInsights | backend/src/services/eda_service.py:141-185 | the four rules' lists concatenated in order; ensures the suggestion rule's output comes last |
| Insights.SuggestionRule | backend/src/services/eda_service.py:179-184 | the suggestion is given iff every column is an integer or float column, so also for a table without columns |
| History.SearchHit | frontend/app/dashboard/history/page.tsx:79-84 | defined as: the lower-cased term occurs in the lower-cased action type, context, user name or user id |
| History.SearchIgnoresCase | frontend/app/dashboard/history/page.tsx:79-84 | searching for a term and for its lower-cased form finds the same activities |
| History.Keep | frontend/app/dashboard/history/page.tsx:76-96 | defined as the conjunction of the three active filters: search (skipped when empty), type and status (each skipped on "all") |
| History.Matching | frontend/app/dashboard/history/page.tsx:75-96 | every matching activity is in the history and passes the filters, and every history activity that passes them matches |
| History.ApplyFilters | frontend/app/dashboard/history/page.tsx:75-118 | the staged filtering yields exactly the activities kept by the conjunction of the active filters, in their original order, and keeps every such activity |
| History.NoFiltersKeepAll | frontend/app/dashboard/history/page.tsx:76-96 | with an empty search and both selects on "all" every activity is listed |
| History.TotalPages | frontend/app/dashboard/history/page.tsx:122 | the page count is the ceiling of n / 10: enough pages for all items and no empty last page |
| History.PageItems | frontend/app/dashboard/history/page.tsx:123-125 | a page holds at most ten items, exactly those from its start index that exist, in order |
| History.PageNonEmpty | frontend/app/dashboard/history/page.tsx:122-125 | a page shows at least one activity iff its number is at most the page count |
| History.PageOfItem | frontend/app/dashboard/history/page.tsx:122-125 | activity i appears on page i / 10 + 1, at position i mod 10, and on no other page |
| History.ShowingRange | frontend/app/dashboard/history/page.tsx:485 | the first shown number is at least 1 and the last at most the number of filtered activities |
| History.ShowingMatchesPage | frontend/app/dashboard/history/page.tsx:485 | the "Showing a to b of n" line counts exactly the activities of the page, with b <= n |
| History.PageWindow | frontend/app/dashboard/history/page.tsx:494-504 | min(5, total) buttons, button i carrying the page the four-way rule picks |
| History.PageWindowFacts | frontend/app/dashboard/history/page.tsx:494-504 | the buttons are consecutive page numbers within [1, total], and the current page has a button iff it is a valid page |
| History.HistoryView.constructor | frontend/app/dashboard/history/page.tsx:51-53 | the fetched data becomes both lists, no filter is active and page 1 is shown |
| History.HistoryView.SetFilters | frontend/app/dashboard/history/page.tsx:70-119 | the filtered list becomes the activities matching the new filters and the history is unchanged; the page returns to 1 only when the filters changed, and the page state stays valid |
| History.HistoryView.GoToNextPage | frontend/app/dashboard/history/page.tsx:132-136 | one page on unless on the last page, nothing else changes, and the page stays valid |
| History.HistoryView.GoToPreviousPage | frontend/app/dashboard/history/page.tsx:138-142 | one page back unless on the first page, nothing else changes, and the page stays valid |
| History.HistoryView.GoToPage | frontend/app/dashboard/history/page.tsx:128-130 | a window button sets exactly that page, which is a valid page |
| History.HistoryView.CurrentActivities | frontend/app/dashboard/history/page.tsx:122-125 | exactly the slice of the filtered list from the page's start index, at most ten activities; empty exactly when the filtered list is empty; each matching the filters |
| ModelTesting.Classify | frontend/app/dashboard/testing/page.tsx:243-246 | true positive, false positive, false negative and true negative each iff the strict comparisons with the number 1 and 0 hold, skipped otherwise |
| ModelTesting.Outcomes | frontend/app/dashboard/testing/page.tsx:239-247 | one outcome per prediction, each against the label at the same index (undefined past the end) |
| ModelTesting.ConfusionCounts | frontend/app/dashboard/testing/page.tsx:236-247 | the counters are the numbers of each outcome |
| ModelTesting.TallyTotal | frontend/app/dashboard/testing/page.tsx:239-247 | the four counters sum to the number of non-skipped predictions |
| ModelTesting.TallyBound | frontend/app/dashboard/testing/page.tsx:239-247 | the four counters sum to at most the number of predictions |
| ModelTesting.Accuracy | frontend/app/dashboard/testing/page.tsx:249 | NaN iff nothing was tallied, otherwise in [0, 1], and exactly 1 iff there are no false positives or negatives |
| ModelTesting.Precision | frontend/app/dashboard/testing/page.tsx:250 | in [0, 1], 0 iff there is no true positive (NaN turned into 0), 1 iff some true positive and no false positive |
| ModelTesting.Recall | frontend/app/dashboard/testing/page.tsx:251 | in [0, 1], 0 iff there is no true positive, 1 iff some true positive and no false negative |
| ModelTesting.Ratio | frontend/app/dashboard/testing/page.tsx:250-251 | the `a / (a + b) \|\| 0` ratio lies in [0, 1], is 0 iff a = 0 and 1 iff a > 0 and b = 0 |
| ModelTesting.F1 | frontend/app/dashboard/testing/page.tsx:252 | 0 when precision and recall sum to 0 (the `\|\| 0` fallback), otherwise the value f with f·(p + r) = 2·p·r |
| ModelTesting.F1Between | frontend/app/dashboard/testing/page.tsx:252 | F1 lies in [0, 1] and between precision and recall, and is 0 iff either is 0 |
| ModelTesting.AccuracyIgnoresSkipped | frontend/app/dashboard/testing/page.tsx:243-249 | a prediction given as the string "1" is skipped, so accuracy 1 can be reported over fewer predictions than were made |
| ModelTesting.Tick | frontend/app/dashboard/testing/page.tsx:168-174 | from a multiple of 10 in [0, 90] one tick never decreases the progress and gives a multiple of 10 in [0, 90] |
| ModelTesting.ProgressAfter | frontend/app/dashboard/testing/page.tsx:168-174 | after any number of ticks from 0 the progress is a multiple of 10 in [0, 90] |
| ModelTesting.ProgressCapped | frontend/app/dashboard/testing/page.tsx:168-174 | after k ticks the bar shows min(10·k, 90) |
| ModelTesting.Positives | frontend/app/dashboard/testing/page.tsx:471-472 | the positive-predictions card counts at most all predictions |
| ModelTesting.Negatives | frontend/app/dashboard/testing/page.tsx:476-477 | the negative-predictions card counts at most all predictions |
| ModelTesting.SummaryBound | frontend/app/dashboard/testing/page.tsx:471-477 | positive and negative predictions together number at most the total |
| ModelTesting.BucketsPartition | frontend/app/dashboard/testing/page.tsx:499-513 | a prediction with a truthy probability is in exactly one confidence bucket, and one without is in none |
| ModelTesting.BucketCounts | frontend/app/dashboard/testing/page.tsx:499-513 | the three bucket counters sum to the number of predictions with a truthy probability |
| ModelTesting.HighCardVersusBucket | frontend/app/dashboard/testing/page.tsx:483 | the "high confidence" card (above 0.8) counts the high bucket (at least 0.8) less the predictions with probability exactly 0.8 |
| ModelTesting.TableShown | frontend/app/dashboard/testing/page.tsx:546 | the table shows the first min(10, n) predictions |
| ModelTesting.NoteIffTruncated | frontend/app/dashboard/testing/page.tsx:572-576 | the "first 10" note appears iff the table leaves predictions out |
| ModelTesting.CsvLines | frontend/app/dashboard/testing/page.tsx:267-272 | no file for no predictions; otherwise a header line of the first prediction's keys and one line per prediction, in order |
| ModelTesting.CsvLineCount | frontend/app/dashboard/testing/page.tsx:269-272 | when no cell contains a newline, the file has exactly one newline per prediction |
| ColumnSelect.Toggle | frontend/components/dashboard/ColumnSelectModal.tsx:18-24 | a selected column is removed, shortening the selection, and every other column keeps its number of occurrences; an unselected one is appended |
| ColumnSelect.ToggleOffKeepsOrder | frontend/components/dashboard/ColumnSelectModal.tsx:20 | removing a column keeps the others in their order |
| ColumnSelect.ToggleTwice | frontend/components/dashboard/ColumnSelectModal.tsx:18-24 | toggling an unselected column twice restores the selection |
| ColumnSelect.ToggleConsistent | frontend/components/dashboard/ColumnSelectModal.tsx:18-24 | toggling a column keeps the selection duplicate-free and within the columns |
| ColumnSelect.SelectAll | frontend/components/dashboard/ColumnSelectModal.tsx:25-28 | clears the selection when all appear selected, otherwise selects every column |
| ColumnSelect.SelectAllConsistent | frontend/components/dashboard/ColumnSelectModal.tsx:25-28 | select-all keeps the selection duplicate-free and within the columns |
| ColumnSelect.AllSelected | frontend/components/dashboard/ColumnSelectModal.tsx:17 | defined as the length test `columns.length === selectedColumns.length`; its meaning is given by the next two rows |
| ColumnSelect.AllSelectedExact | frontend/components/dashboard/ColumnSelectModal.tsx:17 | for a consistent selection of unique columns, the length test holds iff every column is selected |
| ColumnSelect.StaleSelectionLooksComplete | frontend/components/dashboard/ColumnSelectModal.tsx:17 | without consistency the length test can report all selected while a column is not |

## Left out

- Reading the bytes with `pd.read_csv`, `pd.read_excel` and `pd.read_json` is the `Parser` parameter of `Upload`. Its failure is one `ParseFailed` error.
- `uuid.uuid4()` is the `freshId` parameter of `Upload`. It is required to be new, which a random UUID is with overwhelming probability.
- `df.describe(include='all')` (the summary statistics) is not modelled: it is pandas numerics. The profile carries the dtype tags, missing counts and preview, and `CleanNans` is proved over arbitrary nested JSON values, as applied to the summary.
- `df.corr(numeric_only=True)` is the `corrOf` parameter of `CorrelationMatrix` and `GenerateInsightsById`. The matrix's NaN-to-None replacement is assumed done by it, and Pearson correlation is not modelled.
- Insight messages are topics (column names, the outlier count), not text. `int(frac*100)` and the `:.2f` rendering of the correlation value are left out.
- `EDA_RESULTS`, the cache of the last profile, is write-only in this core and is not modelled.
- `visualize_dataset`, `export_dataset` and `export_report` render charts and files through matplotlib and pandas writers. They are not part of this model.
- Floats are modelled as reals. Rounding in the quantile interpolation, and in the `1.5 * iqr` products, is not captured.
- Outliers.SeriesOf: a float column's infinite cells are treated as absent from the series, whereas pandas would include them in the quantile and compare them against the fences. Finite data is modelled exactly.
- Text.Lower lower-cases ASCII letters only. JavaScript's `toLowerCase` and Python's `str.lower` also fold non-ASCII letters.
- The history page's date filter depends on the current clock. It is not modelled, and `filters` carries only the search term and the two selects. `formatTimestamp`, the icons and the badges are presentation only.
- Fetching `/api/activities`, the prediction request, toasts, timers and the React state setters are I/O. The model keeps the state they produce, and the progress ticks are a count of timer firings.
- ModelTesting.CsvLines takes `Object.keys` and `JSON.stringify` of each prediction as the `keys` and `cells` parameters, so JSON quoting is not modelled.
- The average-confidence figure (a floating-point mean formatted with `toFixed(1)`) and the CSV report of `downloadReport` are not modelled beyond the counters they share with the summary.
- Concurrent requests against the `DATASETS` dict are not modelled. Every operation is one atomic step on the store.
- Outliers.ColumnOutliers: the indices are row positions 0 to n − 1. pandas reports index labels, so the model assumes the default `RangeIndex` the readers give a freshly loaded table.
- History.SearchHit: every activity is assumed to carry a `userName`. A record without one makes `item.userName.toLowerCase()` throw for any non-empty search term, and that failure is not modelled.
- The `finally` block of the prediction handler sets the progress to 100 after the request (frontend/app/dashboard/testing/page.tsx:229-233). The model covers the timer ticks before it.
