# Metric classification pipeline: a Dafny model

The pipeline classifies the telemetry metrics of an application against the
Fides data-category taxonomy. It has three scripts, and this project models
the data shaping around their network and model calls:

- `fides.py` fetches the taxonomy and saves the raw category records to
  `fides_categories.txt`. `extract_simplified_categories` reduces each record
  to its `fides_key` and `description`.
- `metrics.py` reduces an application's raw metric definitions with
  `fetch_metrics`. Only `name`, `type` and the `description` and
  `data_sensitivity` of the last history entry are kept. Its entry point
  counts, per application and in total, how many metrics have a
  `data_sensitivity`.
- `categorize.py` loads and reduces the saved categories and reduces the
  metrics of `fenix`. For every metric it asks a generative model for a
  category, strips the answer, removes the newlines from the description
  and collects a row. It then writes the rows to `categorized_metrics.csv`
  as `category,name,"description"` lines after a header.

Modules:

- `PyValues` (values.dfy): decoded JSON values, the Python exceptions the
  code can raise, and a `Result` type. An exception is a `Failure`, so each
  error path of the source is a value in the model.
- `Loops` (loops.dfy): the shape shared by the loops that go through a list
  and stop at the first exception.
- `Fides` (fides.dfy): the category reduction and the snapshot file.
- `Metrics` (metrics.dfy): the metric reduction and the two counting loops.
- `PyStrip` and `PyReplace` (pystr.dfy): `str.strip()` and
  `str.replace('\n', "")`.
- `Report` (report.dfy): the CSV text, the report file and the writing loop.
- `Categorize` (categorize.py's logic, in categorize.dfy): the answer
  post-processing, the row-assembly loop and the whole run.

The model is imperative where the source is: the counting loops, the
row-assembly loop and the report writing are methods with loops. Each is
proved against a function, and the lemmas state what those functions
guarantee. The dict comprehensions and string operations are functions.

Some facts shown by the model:
- A metric without a truthy `history` is reduced to a record whose
  `description` is `None`. `categorize.py` then stops with an
  AttributeError at `.replace` on that metric (`NoHistoryStopsTheRun`,
  `BatchNeedsHistory`).
- Saving the raw records and reducing them again on load gives the same
  categories as saving the reduced ones, because the reduction is
  idempotent.

## Model

| member | source | states |
|---|---|---|
| Fides.SimplifyCategory | fides.py:56 | A non-dict record raises TypeError. A missing `fides_key` raises KeyError('fides_key') even when `description` is also missing; otherwise a missing `description` raises KeyError('description'). The reduction succeeds exactly when both keys are present, and then has exactly those two keys with their values copied. |
| Fides.ExtractSimplifiedCategories | fides.py:46-56 | Succeeds exactly when every record can be reduced. The output has the same length, and element i is the reduction of input i. On failure the error is that of the first record that cannot be reduced. |
| Fides.ExtractEmpty | fides.py:56 | The empty list reduces to the empty list. |
| Fides.SimplifyCategoryFixpoint | fides.py:56 | A record with exactly `fides_key` and `description` reduces to itself. |
| Fides.ExtractIdempotent | fides.py:56 | Reducing the reduced list again returns it unchanged. |
| Fides.SaveCategories | fides.py:59-69 | After saving, the file holds exactly the list, and every other file is unchanged. |
| Fides.LoadCategories | fides.py:72-91 | Loading succeeds exactly when the file exists and returns what it holds; otherwise it fails with "file not found" for that name. |
| Fides.FetchAndPersist | fides.py:105-114 | The fetch branch succeeds exactly when the fetched records can be reduced. It reports the reduced list, and the default snapshot then holds the raw records. The store afterwards has the files it had plus the default snapshot, and every other file is unchanged. |
| Fides.CategoriesForClassification | categorize.py:42 | Without the default snapshot the run fails with "file not found" for `fides_categories.txt`. Otherwise the result is the reduction of the saved list, and on success every category has exactly the reduced shape. |
| Fides.SnapshotRoundTrip | categorize.py:42 | A classification run started after a successful fetch sees exactly the categories the fetch reported. |
| Fides.ReducedSnapshotRoundTrip | fides.py:59-64 | The same holds when the snapshot is written with the reduced list, as the save function's documentation describes. |
| Metrics.LatestField | metrics.py:33-34 | Without a truthy `history` the field is `None`. If `history` is a list whose last entry is a dict, the field is that entry's `.get(key)`. Otherwise the error is AttributeError for a last entry that is not a dict and for a string history, KeyError(-1) for a dict history, and TypeError for a number or boolean. |
| Metrics.SimplifyMetric | metrics.py:30-36 | A record that is not a dict raises AttributeError at `.get("type")`. For a dict, success matches the success of the description lookup. `name` is the key and `type` is `.get("type")`. Without history, `description` and `data_sensitivity` are both `None`. With history, both come from the last entry, which must be a dict. For a dict record the exception raised is exactly the one the description lookup raises. |
| Metrics.OnlyLastHistoryEntryMatters | metrics.py:33-34 | Replacing every history entry except the last does not change the reduced record. |
| Metrics.SimplifyMetrics | metrics.py:29-38 | The reduced mapping has as many entries as the raw one. |
| Metrics.SimplifyMetricsSucceeds | metrics.py:29-38 | The comprehension succeeds exactly when every entry can be reduced. |
| Metrics.SimplifyMetricsEntries | metrics.py:29-38 | Entry i keeps the key of raw entry i, in the same order. Its `name` equals that key, and its record is the reduction of raw record i. |
| Metrics.SimplifyMetricsFirstError | metrics.py:29-38 | The error raised is that of the first entry that cannot be reduced. |
| Metrics.Bucket | metrics.py:56-60 | Each metric goes into exactly one counter: "with" exactly when its `data_sensitivity` is not `None`. |
| Metrics.SensitivityOfAppend | metrics.py:55-60 | One more metric adds one to exactly one counter: "without" if its `data_sensitivity` is `None`, "with" otherwise. |
| Metrics.SensitivityOfPartition | metrics.py:53-60 | The two counters add up to the number of metrics, so each metric is counted exactly once. |
| Metrics.CountSensitivity | metrics.py:53-60 | The inner loop returns the bucket counts of the application's metrics, and they sum to the number of metrics. |
| Metrics.SumCountsAppend | metrics.py:62-63 | Adding one application's counters adds them to the running totals. |
| Metrics.PerAppCountsSucceeds | metrics.py:50-52 | The script gets past every application exactly when each one's metrics can be reduced. |
| Metrics.PerAppCountsEntries | metrics.py:50-61 | There is one pair of counters per application, in order. Each is the bucket count of that application's reduced metrics. |
| Metrics.PerAppCountsFirstError | metrics.py:50-52 | The script stops with the error of the first application whose metrics cannot be reduced. |
| Metrics.PerAppCountsTotal | metrics.py:48-63 | The grand totals add up to the number of metrics fetched over all applications. |
| Metrics.TallySensitivity | metrics.py:48-63 | The outer loop succeeds exactly when every application's metrics can be reduced, and otherwise fails with the error of the first application that cannot. The per-application counters are, in order, those of the applications, and the totals are their sums. |
| PyStrip.Strip | categorize.py:38 | The result has no whitespace at either end. Its characters are, in order and unchanged, those that follow the leading whitespace, and everything after them is whitespace. |
| PyStrip.StripRemovesOnlySpace | categorize.py:38 | The input is the result with whitespace before and after it. |
| PyStrip.StripExact | categorize.py:38 | A core with no whitespace at its ends, surrounded by any whitespace, strips to exactly that core. |
| PyStrip.StripAllSpace | categorize.py:38 | An answer that is only whitespace strips to the empty string. |
| PyStrip.StripIdempotent | categorize.py:38 | Stripping twice is the same as stripping once. |
| PyReplace.RemoveNewlines | categorize.py:54 | The result contains no newline and is not longer than the input. |
| PyReplace.RemoveNewlinesKeepsOthers | categorize.py:54 | Every character other than a newline occurs as often as in the input. |
| PyReplace.RemoveNewlinesAppend | categorize.py:54 | Removal works piece by piece, so the kept characters stay in their original order. |
| PyReplace.RemoveNewlinesNoop | categorize.py:54 | A string without newlines is unchanged. |
| PyReplace.JoinedLines | categorize.py:54 | Two newline-free lines joined by a newline become the lines run together ("Line1\nLine2" becomes "Line1Line2"). |
| PyReplace.RemoveNewlinesIdempotent | categorize.py:54 | Removing newlines twice is the same as removing them once. |
| Report.RowText | categorize.py:66 | A row's text is exactly its three fields plus two commas and two quotes, with nothing escaped or added. The commas follow the category and the name, and the description is between the quotes at the end. |
| Report.CsvLine | categorize.py:66 | A row's line is its text followed by one newline. |
| Report.RenderRows | categorize.py:65-66 | No rows write nothing. Otherwise the text written ends with a newline. |
| Report.RenderPrefix | categorize.py:65-66 | After i + 1 rows the file is the file after i rows followed by the line of row i. |
| Report.RenderSplit | categorize.py:64-66 | The header is the first line of the file, and the rows' lines follow it. |
| Report.Render | categorize.py:63-66 | The report text starts with the header line `category,name,description\n`. |
| Report.RenderRowsAppend | categorize.py:65-66 | Writing one more row appends exactly that row's line. |
| Report.RenderRowsLines | categorize.py:65-66 | If no field contains a newline, the row lines split into one line per row, in order. Line i is `category,name,"description"` of row i. |
| Report.ReportLines | categorize.py:63-66 | If no field contains a newline, the report has exactly one line more than there are rows. Line 0 is the header and line i + 1 is row i. |
| Report.CommasAreNotEscaped | categorize.py:66 | Fields are written without escaping, so two different rows can produce the same line. |
| Report.ReportFile.Truncate | categorize.py:63 | Opening the file with mode 'w' empties it. |
| Report.ReportFile.Write | categorize.py:64 | A write appends its text to the file. |
| Report.WriteReport | categorize.py:63-66 | Whatever the file held before, afterwards it holds exactly the header followed by the rows' lines, in order. |
| Categorize.PromptFor | categorize.py:20-36 | The request names the model `gemini-2.0-flash-001` and carries the categories and the metric. |
| Categorize.CategorizeMetric | categorize.py:20-38 | The request names `gemini-2.0-flash-001`, the categories and the metric. An error from the call propagates unchanged. Success matches the call's success, and the category has no whitespace at either end. |
| Categorize.CategorizeMetricTrims | categorize.py:38 | The model's answer is the category with whitespace before and after it. |
| Categorize.CategorizePaddedAnswer | categorize.py:38 | An answer that is a key padded with whitespace, such as "N/A\n", gives exactly that key. |
| Categorize.ClassifyMetric | categorize.py:53-59 | The metric is classified first, and an error from that is raised as it is. Then a description that is not a string raises AttributeError at `.replace`. On success the row is the stripped category, the metric's name, and the description without newlines. |
| Categorize.NoHistoryStopsTheRun | categorize.py:54 | A metric reduced from a record without history cannot give a row once the model has answered. |
| Categorize.ClassifyAllSucceeds | categorize.py:52-59 | The loop gets through exactly when every metric gives a row. |
| Categorize.ClassifyAllEntries | categorize.py:52-59 | There is exactly one row per metric, in the mapping's order, and row i is metric i's row. |
| Categorize.ClassifyAllFirstError | categorize.py:52-59 | The loop stops with the error of the first metric that cannot give a row. |
| Categorize.ClassifyMetrics | categorize.py:50-60 | The loop that appends to `categorized_metrics` yields exactly the rows, or the first error, described by the three lemmas above. |
| Categorize.Batch | categorize.py:41-59 | The run fails first on the categories, then on the metrics, and only then on classification. It succeeds exactly when the categories load and reduce, the metrics reduce, and every metric gives a row. |
| Categorize.BatchRows | categorize.py:41-59 | A successful run has one row per fetched metric, in document order. Each row is named after its metric key, has a stripped category and a newline-free description. |
| Categorize.BatchNeedsHistory | categorize.py:54 | A run succeeds only if every raw metric record is a dict with a truthy `history`. |
| Categorize.BatchReportLines | categorize.py:63-66 | If no category or name contains a newline, the report of a successful run has one line more than there are metrics. |
| Categorize.RunBatch | categorize.py:41-66 | The run yields the rows of the modelled batch. On success the report file holds exactly their rendering. On any error the run stops before the file is opened and the file is unchanged. |

## Left out

- The HTTP requests are not modelled: `fetch_categories`, `fetch_apps`, the request part of `fetch_metrics`, and the environment variable holding the Fides credentials. The fetched documents are parameters.
- The taxonomy's documents are assumed well formed: the category snapshot is always a JSON list, and a metrics document is always a JSON object (a sequence of name–record pairs). A snapshot holding another JSON value is not modelled, nor is a top-level document that is not an object.
- File I/O with `json` is modelled as a map from file name to saved list. Invalid JSON in a file and the exact exception message text are not modelled.
- The generative model call and the client construction are a function parameter `generate` from the request to the answer text or an error. A `None` response text counts as an error of that call.
- The prompt wording is not modelled: it interpolates Python `repr` text. A request is the datatype `Prompt`, holding the model name, the categories and the metric.
- Console output is not modelled, nor is `sys.exit`. This covers the progress messages, the per-metric prints and the per-application summary lines of metrics.py. The counters behind those lines are modelled.
- The `--load` branch of fides.py's entry point only loads and prints, so it is covered by `LoadCategories` alone.
- `apps` and `app['name']` in metrics.py are not modelled: `TallySensitivity` takes, for each application, its fetched metrics document.
- JSON numbers are integers in the model. Floats never reach any modelled decision, because only truthiness, dict membership and `is None` are tested.
- `RawMetrics` is a sequence of pairs, so in principle it allows a name twice, which a JSON object cannot hold. All results are stated entry by entry and do not depend on names being distinct.
- Report.WriteReport: the report is text written without encoding errors or newline translation. In text mode a character the platform encoding cannot represent raises UnicodeEncodeError partway through the loop, leaving the header and the earlier lines in the file, and on Windows each `\n` becomes `\r\n`. Neither is modelled.
- Report.ReportLines: the line structure is stated only for rows whose category and name contain no newline. Stripping only removes whitespace at the ends of the model's answer, and nothing constrains metric names.
