/** The metric side of the pipeline (metrics.py): reducing the raw metric
    definitions of one application to the fields classification needs, and
    the script that counts, per application and in total, how many metrics
    carry a `data_sensitivity`. */
module Metrics {
  import opened PyValues
  import opened Loops

  /** A reduced metric. `None` in the source is `Null` here. */
  datatype Metric = Metric(name: string, metricType: Value, description: Value, dataSensitivity: Value)

  /** The decoded metrics document: metric name to raw record, in document
      order (a Python dict keeps insertion order). */
  type RawMetrics = seq<(string, Value)>

  /** The reduced mapping, in the same order. */
  type MetricMap = seq<(string, Metric)>

  /** `'history' in metric_data and metric_data['history']`. */
  predicate HasHistory(data: map<string, Value>) {
    "history" in data && Truthy(data["history"])
  }

  /** `v[-1]` on a non-empty value: the last item of a list, the last
      character of a string; a dict has no key -1 and a number or boolean
      cannot be subscripted. */
  function LastItem(v: Value): Result<Value>
    requires Truthy(v)
  {
    match v
    case Array(items) => Success(items[|items| - 1])
    case Str(s) => Success(Str([s[|s| - 1]]))
    case Object(_) => Failure(KeyError(Num(-1)))
    case _ => Failure(TypeError)
  }

  /** `metric_data['history'][-1].get(key) if 'history' in metric_data and
      metric_data['history'] else None`: the last history entry wins. */
  function LatestField(data: map<string, Value>, key: string): (r: Result<Value>)
    ensures !HasHistory(data) ==> r == Success(Null)
    ensures HasHistory(data) && data["history"].Array? && Last(data["history"].items).Object?
            ==> r == Success(Field(Last(data["history"].items).fields, key))
    ensures HasHistory(data) && data["history"].Array? && !Last(data["history"].items).Object?
            ==> r == Failure(AttributeError("get"))
    ensures HasHistory(data) && data["history"].Str? ==> r == Failure(AttributeError("get"))
    ensures HasHistory(data) && data["history"].Object? ==> r == Failure(KeyError(Num(-1)))
    ensures HasHistory(data) && (data["history"].Num? || data["history"].Bool?) ==> r == Failure(TypeError)
  {
    if HasHistory(data) then
      var last :- LastItem(data["history"]);
      Get(last, key)
    else
      Success(Null)
  }

  function Last<T>(s: seq<T>): T
    requires s != []
  {
    s[|s| - 1]
  }

  /** One entry of the dict comprehension in `fetch_metrics`. The fields are
      evaluated in the order name, type, description, data_sensitivity, so
      a raw record that is not a dict fails at `.get("type")`. */
  function SimplifyMetric(name: string, data: Value): (r: Result<Metric>)
    ensures !data.Object? ==> r == Failure(AttributeError("get"))
    ensures data.Object? ==> (r.Success? <==> LatestField(data.fields, "description").Success?)
    ensures data.Object? && r.Failure? ==> r.error == LatestField(data.fields, "description").error
    ensures r.Success? ==> r.value.name == name
    ensures r.Success? ==> r.value.metricType == Field(data.fields, "type")
    ensures data.Object? && !HasHistory(data.fields)
            ==> r.Success? && r.value.description == Null && r.value.dataSensitivity == Null
    ensures r.Success? && HasHistory(data.fields)
            ==> data.fields["history"].Array? && Last(data.fields["history"].items).Object?
                && r.value.description == Field(Last(data.fields["history"].items).fields, "description")
                && r.value.dataSensitivity == Field(Last(data.fields["history"].items).fields, "data_sensitivity")
  {
    var metricType :- Get(data, "type");
    var description :- LatestField(data.fields, "description");
    // Reads the same history entry as the line before, so it cannot fail here.
    var dataSensitivity := LatestField(data.fields, "data_sensitivity");
    Success(Metric(name, metricType, description, dataSensitivity.value))
  }

  /** Only the last history entry matters: replacing the earlier entries
      changes nothing. */
  lemma OnlyLastHistoryEntryMatters(name: string, data: map<string, Value>,
                                     earlier: seq<Value>, others: seq<Value>, last: Value)
    requires "history" in data && data["history"] == Array(earlier + [last])
    ensures SimplifyMetric(name, Object(data))
            == SimplifyMetric(name, Object(data["history" := Array(others + [last])]))
  {
    var data' := data["history" := Array(others + [last])];
    assert Last(earlier + [last]) == last;
    assert Last(others + [last]) == last;
    assert Field(data', "type") == Field(data, "type");
  }

  /** The dict comprehension of `fetch_metrics`: one reduced entry per raw
      entry. */
  function SimplifyMetrics(raw: RawMetrics): (r: Result<MetricMap>)
    ensures r.Success? ==> |r.value| == |raw|
  {
    if raw == [] then Success([])
    else
      var metric :- SimplifyMetric(raw[0].0, raw[0].1);
      var rest :- SimplifyMetrics(raw[1..]);
      Success([(raw[0].0, metric)] + rest)
  }

  /** The comprehension succeeds exactly when every entry can be reduced. */
  lemma {:induction false} SimplifyMetricsSucceeds(raw: RawMetrics)
    ensures SimplifyMetrics(raw).Success? <==> forall i :: 0 <= i < |raw| ==> SimplifyMetric(raw[i].0, raw[i].1).Success?
  {
    if raw != [] {
      SimplifyMetricsSucceeds(raw[1..]);
      assert forall i :: 1 <= i < |raw| ==> raw[i] == raw[1..][i - 1];
    }
  }

  /** Entry by entry: every key is kept, in order, with its reduced record,
      whose `name` is the key. */
  lemma {:induction false} SimplifyMetricsEntries(raw: RawMetrics)
    requires SimplifyMetrics(raw).Success?
    ensures forall i :: 0 <= i < |raw| ==> SimplifyMetrics(raw).value[i].0 == raw[i].0
    ensures forall i :: 0 <= i < |raw| ==> SimplifyMetrics(raw).value[i].1.name == raw[i].0
    ensures forall i :: 0 <= i < |raw|
              ==> SimplifyMetric(raw[i].0, raw[i].1) == Success(SimplifyMetrics(raw).value[i].1)
  {
    if raw != [] {
      SimplifyMetricsEntries(raw[1..]);
      assert forall i :: 1 <= i < |raw| ==> raw[i] == raw[1..][i - 1];
    }
  }

  /** The error raised is that of the first entry that cannot be reduced. */
  lemma {:induction false} SimplifyMetricsFirstError(raw: RawMetrics)
    requires SimplifyMetrics(raw).Failure?
    ensures exists i :: 0 <= i < |raw|
                      && (forall j :: 0 <= j < i ==> SimplifyMetric(raw[j].0, raw[j].1).Success?)
                      && SimplifyMetric(raw[i].0, raw[i].1) == Failure(SimplifyMetrics(raw).error)
  {
    if SimplifyMetric(raw[0].0, raw[0].1).Failure? {
      assert SimplifyMetric(raw[0].0, raw[0].1) == Failure(SimplifyMetrics(raw).error);
    } else {
      SimplifyMetricsFirstError(raw[1..]);
      var i :| 0 <= i < |raw| - 1
               && (forall j :: 0 <= j < i ==> SimplifyMetric(raw[1..][j].0, raw[1..][j].1).Success?)
               && SimplifyMetric(raw[1..][i].0, raw[1..][i].1) == Failure(SimplifyMetrics(raw[1..]).error);
      assert forall j :: 1 <= j < |raw| ==> raw[j] == raw[1..][j - 1];
      assert SimplifyMetric(raw[i + 1].0, raw[i + 1].1) == Failure(SimplifyMetrics(raw).error);
    }
  }

  /** The two counters of metrics.py's entry point. */
  datatype SensitivityCounts = SensitivityCounts(withSensitivity: nat, withoutSensitivity: nat) {
    function Total(): nat {
      withSensitivity + withoutSensitivity
    }

    function Plus(other: SensitivityCounts): SensitivityCounts {
      SensitivityCounts(withSensitivity + other.withSensitivity, withoutSensitivity + other.withoutSensitivity)
    }
  }

  /** The bucket of one metric: with a sensitivity unless it is `None`. */
  function Bucket(metric: Metric): (b: SensitivityCounts)
    ensures b.Total() == 1
    ensures b.withSensitivity == 1 <==> !metric.dataSensitivity.Null?
  {
    if metric.dataSensitivity.Null? then SensitivityCounts(0, 1) else SensitivityCounts(1, 0)
  }

  /** How many metrics of a mapping fall into each bucket. */
  function SensitivityOf(metrics: MetricMap): SensitivityCounts {
    if metrics == [] then SensitivityCounts(0, 0)
    else Bucket(metrics[0].1).Plus(SensitivityOf(metrics[1..]))
  }

  /** Adding a metric at the end adds it to exactly one bucket. */
  lemma {:induction false} SensitivityOfAppend(metrics: MetricMap, entry: (string, Metric))
    ensures SensitivityOf(metrics + [entry]) == SensitivityOf(metrics).Plus(Bucket(entry.1))
  {
    if metrics == [] {
      assert metrics + [entry] == [entry];
    } else {
      var longer := metrics + [entry];
      assert longer[0] == metrics[0];
      assert longer[1..] == metrics[1..] + [entry];
      SensitivityOfAppend(metrics[1..], entry);
    }
  }

  lemma SensitivityOfPrefix(metrics: MetricMap, i: nat)
    requires i < |metrics|
    ensures SensitivityOf(metrics[..i + 1]) == SensitivityOf(metrics[..i]).Plus(Bucket(metrics[i].1))
  {
    assert metrics[..i + 1] == metrics[..i] + [metrics[i]];
    SensitivityOfAppend(metrics[..i], metrics[i]);
  }

  /** Every metric is counted exactly once. */
  lemma {:induction false} SensitivityOfPartition(metrics: MetricMap)
    ensures SensitivityOf(metrics).Total() == |metrics|
  {
    if metrics != [] {
      SensitivityOfPartition(metrics[1..]);
    }
  }

  /** The inner loop of metrics.py's entry point over one application's
      metrics. */
  method CountSensitivity(metrics: MetricMap) returns (hasSensitivity: nat, hasNoSensitivity: nat)
    ensures SensitivityCounts(hasSensitivity, hasNoSensitivity) == SensitivityOf(metrics)
    ensures hasSensitivity + hasNoSensitivity == |metrics|
  {
    hasSensitivity, hasNoSensitivity := 0, 0;
    var i := 0;
    while i < |metrics|
      invariant 0 <= i <= |metrics|
      invariant SensitivityCounts(hasSensitivity, hasNoSensitivity) == SensitivityOf(metrics[..i])
    {
      SensitivityOfPrefix(metrics, i);
      if metrics[i].1.dataSensitivity.Null? {
        hasNoSensitivity := hasNoSensitivity + 1;
      } else {
        hasSensitivity := hasSensitivity + 1;
      }
      i := i + 1;
    }
    assert metrics[..i] == metrics;
    SensitivityOfPartition(metrics);
  }

  /** Sum of per-application counters. */
  function SumCounts(counts: seq<SensitivityCounts>): SensitivityCounts {
    if counts == [] then SensitivityCounts(0, 0) else counts[0].Plus(SumCounts(counts[1..]))
  }

  lemma {:induction false} SumCountsAppend(counts: seq<SensitivityCounts>, c: SensitivityCounts)
    ensures SumCounts(counts + [c]) == SumCounts(counts).Plus(c)
  {
    if counts != [] {
      assert (counts + [c])[1..] == counts[1..] + [c];
      SumCountsAppend(counts[1..], c);
    }
  }

  /** Number of metric entries fetched over all applications. */
  function TotalEntries(apps: seq<RawMetrics>): nat {
    if apps == [] then 0 else |apps[0]| + TotalEntries(apps[1..])
  }

  /** Counters that each count one application's entries add up to the
      number of entries of all applications. */
  lemma {:induction false} SumCountsTotal(counts: seq<SensitivityCounts>, apps: seq<RawMetrics>)
    requires |counts| == |apps|
    requires forall i :: 0 <= i < |apps| ==> counts[i].Total() == |apps[i]|
    ensures SumCounts(counts).Total() == TotalEntries(apps)
  {
    if apps != [] {
      SumCountsTotal(counts[1..], apps[1..]);
    }
  }

  /** The counters of one application, or the exception `fetch_metrics`
      raises for its metrics document. */
  function AppCounts(app: RawMetrics): Result<SensitivityCounts> {
    var metrics :- SimplifyMetrics(app);
    Success(SensitivityOf(metrics))
  }

  /** The counters metrics.py's entry point prints for each application, in
      the order the applications are processed, or the error of the first
      application whose metrics `fetch_metrics` cannot reduce. */
  function PerAppCounts(apps: seq<RawMetrics>): Result<seq<SensitivityCounts>> {
    Collect(AppCounts, apps)
  }

  /** The script gets through every application exactly when every
      application's metrics can be reduced. */
  lemma PerAppCountsSucceeds(apps: seq<RawMetrics>)
    ensures PerAppCounts(apps).Success? <==> forall i :: 0 <= i < |apps| ==> SimplifyMetrics(apps[i]).Success?
  {
    CollectSucceeds(AppCounts, apps);
  }

  /** One line per application, in order, each with that application's
      counters. */
  lemma PerAppCountsEntries(apps: seq<RawMetrics>)
    requires PerAppCounts(apps).Success?
    ensures |PerAppCounts(apps).value| == |apps|
    ensures forall i :: 0 <= i < |apps|
              ==> SimplifyMetrics(apps[i]).Success?
                  && PerAppCounts(apps).value[i] == SensitivityOf(SimplifyMetrics(apps[i]).value)
  {
    CollectEntries(AppCounts, apps);
  }

  /** The script stops at the first application whose metrics cannot be
      reduced, with that application's error. */
  lemma PerAppCountsFirstError(apps: seq<RawMetrics>)
    requires PerAppCounts(apps).Failure?
    ensures exists i :: 0 <= i < |apps|
                      && (forall j :: 0 <= j < i ==> SimplifyMetrics(apps[j]).Success?)
                      && SimplifyMetrics(apps[i]) == Failure(PerAppCounts(apps).error)
  {
    CollectFirstError(AppCounts, apps);
  }

  /** The grand totals count every fetched metric exactly once. */
  lemma {:induction false} PerAppCountsTotal(apps: seq<RawMetrics>)
    requires PerAppCounts(apps).Success?
    ensures SumCounts(PerAppCounts(apps).value).Total() == TotalEntries(apps)
  {
    var counts := PerAppCounts(apps).value;
    PerAppCountsEntries(apps);
    forall i | 0 <= i < |apps|
      ensures counts[i].Total() == |apps[i]|
    {
      SensitivityOfPartition(SimplifyMetrics(apps[i]).value);
    }
    SumCountsTotal(counts, apps);
  }

  /** What metrics.py's entry point prints: one line of counters per
      application, then the totals. */
  datatype SensitivityReport = SensitivityReport(perApp: seq<SensitivityCounts>, total: SensitivityCounts)

  /** The outer loop of metrics.py's entry point. `apps` holds, for each
      application in the order listed, the metrics document fetched for it;
      a record that `fetch_metrics` cannot reduce aborts the script. The
      running totals are the sums of the per-application counters. */
  method TallySensitivity(apps: seq<RawMetrics>) returns (r: Result<SensitivityReport>)
    ensures r.Success? <==> PerAppCounts(apps).Success?
    ensures r.Failure? ==> PerAppCounts(apps) == Failure(r.error)
    ensures r.Success? ==> r.value.perApp == PerAppCounts(apps).value
    ensures r.Success? ==> r.value.total == SumCounts(r.value.perApp)
  {
    var perApp: seq<SensitivityCounts> := [];
    var hasSensitivityTotal, hasNoSensitivityTotal := 0, 0;
    var i := 0;
    while i < |apps|
      invariant 0 <= i <= |apps|
      invariant Collect(AppCounts, apps[..i]) == Success(perApp)
      invariant SensitivityCounts(hasSensitivityTotal, hasNoSensitivityTotal) == SumCounts(perApp)
    {
      CollectStep(AppCounts, apps, i);
      var fetched := SimplifyMetrics(apps[i]);
      if fetched.Failure? {
        CollectFailurePersists(AppCounts, apps, i + 1);
        return Failure(fetched.error);
      }
      var hasSensitivity, hasNoSensitivity := CountSensitivity(fetched.value);
      var counts := SensitivityCounts(hasSensitivity, hasNoSensitivity);
      SumCountsAppend(perApp, counts);
      perApp := perApp + [counts];
      hasSensitivityTotal := hasSensitivityTotal + hasSensitivity;
      hasNoSensitivityTotal := hasNoSensitivityTotal + hasNoSensitivity;
      i := i + 1;
    }
    assert apps[..i] == apps;
    return Success(SensitivityReport(perApp, SensitivityCounts(hasSensitivityTotal, hasNoSensitivityTotal)));
  }
}
