/** The classification run (categorize.py): ask the classifier for the
    category of every metric of the application, assemble one row per
    metric, and write the rows to the CSV report. */
module Categorize {
  import opened PyValues
  import opened Loops
  import opened PyStrip
  import opened PyReplace
  import opened Metrics
  import opened Fides
  import opened Report

  /** The model every request names. */
  const ModelId := "gemini-2.0-flash-001"

  /** What the classifier is asked: which model, the reduced categories and
      the metric to classify. The wording of the prompt is not modelled. */
  datatype Prompt = Prompt(model: string, categories: seq<Value>, metric: Metric)

  /** The request `categorize_metric` sends for a metric. */
  function PromptFor(metric: Metric, categories: seq<Value>): (p: Prompt)
    ensures p.model == ModelId
    ensures p.categories == categories && p.metric == metric
  {
    Prompt(ModelId, categories, metric)
  }

  /** `categorize_metric`: the text of the classifier's answer without
      surrounding whitespace. `generate` stands for the remote call and
      yields the response text or the error the call raises. */
  function CategorizeMetric(generate: Prompt -> Result<string>, metric: Metric, categories: seq<Value>): (r: Result<string>)
    ensures generate(PromptFor(metric, categories)).Failure? ==> r == generate(PromptFor(metric, categories))
    ensures r.Success? <==> generate(PromptFor(metric, categories)).Success?
    ensures r.Success? ==> IsStripped(r.value)
  {
    var text :- generate(PromptFor(metric, categories));
    Success(Strip(text))
  }

  /** The category is the answer less the whitespace around it; nothing
      inside it is touched. */
  lemma CategorizeMetricTrims(generate: Prompt -> Result<string>, metric: Metric, categories: seq<Value>)
    requires generate(PromptFor(metric, categories)).Success?
    ensures exists prefix, suffix :: AllSpace(prefix) && AllSpace(suffix)
              && generate(PromptFor(metric, categories)).value
                 == prefix + CategorizeMetric(generate, metric, categories).value + suffix
  {
    StripRemovesOnlySpace(generate(PromptFor(metric, categories)).value);
  }

  /** An answer that is a category key padded with whitespace, such as
      "N/A\n", is taken to be exactly that key. */
  lemma CategorizePaddedAnswer(generate: Prompt -> Result<string>, metric: Metric, categories: seq<Value>,
                               prefix: string, key: string, suffix: string)
    requires AllSpace(prefix) && AllSpace(suffix) && IsStripped(key)
    requires generate(PromptFor(metric, categories)) == Success(prefix + key + suffix)
    ensures CategorizeMetric(generate, metric, categories) == Success(key)
  {
    StripExact(prefix, key, suffix);
  }

  /** One iteration of the row-assembly loop: classify the metric first,
      then `metric['description'].replace('\n', "")`, which raises
      AttributeError unless the description is a string. */
  function ClassifyMetric(generate: Prompt -> Result<string>, metric: Metric, categories: seq<Value>): (r: Result<Row>)
    ensures CategorizeMetric(generate, metric, categories).Failure?
            ==> r == Failure(CategorizeMetric(generate, metric, categories).error)
    ensures CategorizeMetric(generate, metric, categories).Success? && !metric.description.Str?
            ==> r == Failure(AttributeError("replace"))
    ensures r.Success? <==> CategorizeMetric(generate, metric, categories).Success? && metric.description.Str?
    ensures r.Success? ==> r.value.category == CategorizeMetric(generate, metric, categories).value
    ensures r.Success? ==> r.value.name == metric.name
    ensures r.Success? ==> IsStripped(r.value.category) && NoNewline(r.value.description)
    ensures r.Success? ==> r.value.description == RemoveNewlines(metric.description.s)
  {
    var category :- CategorizeMetric(generate, metric, categories);
    if metric.description.Str? then
      Success(Row(category, metric.name, RemoveNewlines(metric.description.s)))
    else
      Failure(AttributeError("replace"))
  }

  /** A metric whose record has no history has no description, so its row
      cannot be built: the run stops there once the classifier answered. */
  lemma NoHistoryStopsTheRun(generate: Prompt -> Result<string>, name: string, data: map<string, Value>,
                             categories: seq<Value>)
    requires !HasHistory(data)
    requires generate(PromptFor(SimplifyMetric(name, Object(data)).value, categories)).Success?
    ensures SimplifyMetric(name, Object(data)).Success?
    ensures ClassifyMetric(generate, SimplifyMetric(name, Object(data)).value, categories)
            == Failure(AttributeError("replace"))
  {
  }

  /** The body of the row-assembly loop as a step over the entries of the
      metric mapping. */
  function RowStep(generate: Prompt -> Result<string>, categories: seq<Value>): ((string, Metric)) -> Result<Row> {
    (entry: (string, Metric)) => ClassifyMetric(generate, entry.1, categories)
  }

  /** The rows the loop builds, or the error of the first metric it cannot
      turn into a row. */
  function ClassifyAll(generate: Prompt -> Result<string>, metrics: MetricMap, categories: seq<Value>): Result<seq<Row>> {
    Collect(RowStep(generate, categories), metrics)
  }

  /** The loop gets through exactly when every metric gives a row. */
  lemma ClassifyAllSucceeds(generate: Prompt -> Result<string>, metrics: MetricMap, categories: seq<Value>)
    ensures ClassifyAll(generate, metrics, categories).Success?
            <==> forall i :: 0 <= i < |metrics| ==> ClassifyMetric(generate, metrics[i].1, categories).Success?
  {
    CollectSucceeds(RowStep(generate, categories), metrics);
  }

  /** Exactly one row per metric, in the mapping's order, each the row of
      that metric. */
  lemma ClassifyAllEntries(generate: Prompt -> Result<string>, metrics: MetricMap, categories: seq<Value>)
    requires ClassifyAll(generate, metrics, categories).Success?
    ensures |ClassifyAll(generate, metrics, categories).value| == |metrics|
    ensures forall i :: 0 <= i < |metrics|
              ==> ClassifyMetric(generate, metrics[i].1, categories)
                  == Success(ClassifyAll(generate, metrics, categories).value[i])
  {
    CollectEntries(RowStep(generate, categories), metrics);
  }

  /** The error raised is that of the first metric without a row. */
  lemma ClassifyAllFirstError(generate: Prompt -> Result<string>, metrics: MetricMap, categories: seq<Value>)
    requires ClassifyAll(generate, metrics, categories).Failure?
    ensures exists i :: 0 <= i < |metrics|
                      && (forall j :: 0 <= j < i ==> ClassifyMetric(generate, metrics[j].1, categories).Success?)
                      && ClassifyMetric(generate, metrics[i].1, categories)
                         == Failure(ClassifyAll(generate, metrics, categories).error)
  {
    CollectFirstError(RowStep(generate, categories), metrics);
  }

  /** The row-assembly loop: classify each metric in order and append its
      row to `categorized_metrics`. */
  method ClassifyMetrics(generate: Prompt -> Result<string>, metrics: MetricMap, categories: seq<Value>)
    returns (r: Result<seq<Row>>)
    ensures r == ClassifyAll(generate, metrics, categories)
  {
    var rows: seq<Row> := [];
    for i := 0 to |metrics|
      invariant Collect(RowStep(generate, categories), metrics[..i]) == Success(rows)
    {
      CollectStep(RowStep(generate, categories), metrics, i);
      var category := CategorizeMetric(generate, metrics[i].1, categories);
      if category.Failure? {
        CollectFailurePersists(RowStep(generate, categories), metrics, i + 1);
        return Failure(category.error);
      }
      var description := metrics[i].1.description;
      if !description.Str? {
        CollectFailurePersists(RowStep(generate, categories), metrics, i + 1);
        return Failure(AttributeError("replace"));
      }
      rows := rows + [Row(category.value, metrics[i].1.name, RemoveNewlines(description.s))];
    }
    assert metrics[..|metrics|] == metrics;
    return Success(rows);
  }

  /** The whole run, as a function of the snapshot store, the application's
      metrics document and the classifier: the categories are read first,
      then the metrics are reduced, then every metric is classified. */
  function Batch(store: Store, raw: RawMetrics, generate: Prompt -> Result<string>): (r: Result<seq<Row>>)
    ensures CategoriesForClassification(store).Failure?
            ==> r == Failure(CategoriesForClassification(store).error)
    ensures CategoriesForClassification(store).Success? && SimplifyMetrics(raw).Failure?
            ==> r == Failure(SimplifyMetrics(raw).error)
    ensures r.Success? <==> CategoriesForClassification(store).Success? && SimplifyMetrics(raw).Success?
                            && ClassifyAll(generate, SimplifyMetrics(raw).value,
                                           CategoriesForClassification(store).value).Success?
  {
    var categories :- CategoriesForClassification(store);
    var metrics :- SimplifyMetrics(raw);
    ClassifyAll(generate, metrics, categories)
  }

  /** A successful run has one row per fetched metric, in document order,
      named after its key, with a stripped category and a description on
      one line. */
  lemma BatchRows(store: Store, raw: RawMetrics, generate: Prompt -> Result<string>)
    requires Batch(store, raw, generate).Success?
    ensures |Batch(store, raw, generate).value| == |raw|
    ensures forall i :: 0 <= i < |raw| ==> Batch(store, raw, generate).value[i].name == raw[i].0
    ensures forall i :: 0 <= i < |raw| ==> IsStripped(Batch(store, raw, generate).value[i].category)
    ensures forall i :: 0 <= i < |raw| ==> NoNewline(Batch(store, raw, generate).value[i].description)
  {
    var categories := CategoriesForClassification(store).value;
    var metrics := SimplifyMetrics(raw).value;
    SimplifyMetricsEntries(raw);
    ClassifyAllEntries(generate, metrics, categories);
  }

  /** A run gets through only if every metric has a history: the one
      without gets no description and stops the run. */
  lemma BatchNeedsHistory(store: Store, raw: RawMetrics, generate: Prompt -> Result<string>)
    requires Batch(store, raw, generate).Success?
    ensures forall i :: 0 <= i < |raw| ==> raw[i].1.Object? && HasHistory(raw[i].1.fields)
  {
    var categories := CategoriesForClassification(store).value;
    var metrics := SimplifyMetrics(raw).value;
    SimplifyMetricsEntries(raw);
    ClassifyAllEntries(generate, metrics, categories);
    forall i | 0 <= i < |raw|
      ensures raw[i].1.Object? && HasHistory(raw[i].1.fields)
    {
      assert SimplifyMetric(raw[i].0, raw[i].1) == Success(metrics[i].1);
      assert metrics[i].1.description.Str?;
    }
  }

  /** The file of a successful run has the header and one line per metric,
      provided no category or name contains a line break. */
  lemma BatchReportLines(store: Store, raw: RawMetrics, generate: Prompt -> Result<string>)
    requires Batch(store, raw, generate).Success?
    requires forall i :: 0 <= i < |Batch(store, raw, generate).value|
               ==> NoNewline(Batch(store, raw, generate).value[i].category)
                   && NoNewline(Batch(store, raw, generate).value[i].name)
    ensures |SplitLines(Render(Batch(store, raw, generate).value))| == 1 + |raw|
  {
    var rows := Batch(store, raw, generate).value;
    BatchRows(store, raw, generate);
    ReportLines(rows);
  }

  /** The entry point of categorize.py: build the rows, then write the
      report. Any error stops the run before the report file is opened, so
      the file keeps what it held. */
  method RunBatch(store: Store, raw: RawMetrics, generate: Prompt -> Result<string>, out: ReportFile)
    returns (r: Result<seq<Row>>)
    modifies out
    ensures r == Batch(store, raw, generate)
    ensures r.Success? ==> out.contents == Render(r.value)
    ensures r.Failure? ==> out.contents == old(out.contents)
  {
    var categories :- CategoriesForClassification(store);
    var metrics :- SimplifyMetrics(raw);
    var rows :- ClassifyMetrics(generate, metrics, categories);
    WriteReport(out, rows);
    return Success(rows);
  }
}
