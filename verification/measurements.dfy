/**
 * `PerformanceMetrics`: an append-only history of named metric records, with
 * per-name summary statistics.
 */
module Measurements {
  import opened Wrappers
  import opened Numeric

  /** One `{'metric': ..., 'value': ..., 'timestamp': ...}` entry of the history. */
  datatype MetricRecord = MetricRecord(metric: string, value: real, timestamp: real)

  /** The statistics dictionary, without its `std` entry. */
  datatype MetricStats = MetricStats(mean: real, min: real, max: real, count: nat)

  /** The names of the records, in order. */
  function MetricNames(history: seq<MetricRecord>): (names: seq<string>)
    ensures |names| == |history|
    ensures forall i :: 0 <= i < |history| ==> names[i] == history[i].metric
  {
    seq(|history|, i requires 0 <= i < |history| => history[i].metric)
  }

  /** The list comprehension `[entry['value'] for entry in history if entry['metric'] == name]`. */
  function ValuesOf(history: seq<MetricRecord>, name: string): (values: seq<real>)
    ensures |values| == multiset(MetricNames(history))[name]
    ensures forall v :: v in values <==> exists i :: 0 <= i < |history| && history[i].metric == name && history[i].value == v
  {
    if history == [] then []
    else
      var init := history[..|history| - 1];
      var last := history[|history| - 1];
      assert MetricNames(history) == MetricNames(init) + [last.metric];
      assert forall i :: 0 <= i < |init| ==> history[i] == init[i];
      if last.metric == name then ValuesOf(init, name) + [last.value] else ValuesOf(init, name)
  }

  /** The values of a concatenated history are the values of its two parts, in order. */
  lemma {:induction false} ValuesOfAppend(h1: seq<MetricRecord>, h2: seq<MetricRecord>, name: string)
    ensures ValuesOf(h1 + h2, name) == ValuesOf(h1, name) + ValuesOf(h2, name)
    decreases |h2|
  {
    if h2 != [] {
      var init := h2[..|h2| - 1];
      assert (h1 + h2)[..|h1 + h2| - 1] == h1 + init;
      ValuesOfAppend(h1, init, name);
    } else {
      assert h1 + h2 == h1;
    }
  }

  function Minimum(values: seq<real>): (m: real)
    requires values != []
    ensures m in values
    ensures forall i :: 0 <= i < |values| ==> m <= values[i]
  {
    if |values| == 1 then values[0]
    else
      var rest := Minimum(values[..|values| - 1]);
      if values[|values| - 1] < rest then values[|values| - 1] else rest
  }

  function Maximum(values: seq<real>): (m: real)
    requires values != []
    ensures m in values
    ensures forall i :: 0 <= i < |values| ==> values[i] <= m
  {
    if |values| == 1 then values[0]
    else
      var rest := Maximum(values[..|values| - 1]);
      if values[|values| - 1] > rest then values[|values| - 1] else rest
  }

  /** `np.mean`, the arithmetic mean, which lies between the minimum and the maximum. */
  function Mean(values: seq<real>): (m: real)
    requires values != []
    ensures Minimum(values) <= m <= Maximum(values)
  {
    var n := |values| as real;
    SumBetween(values, Minimum(values), Maximum(values));
    QuotientBetween(Sum(values), n, Minimum(values), Maximum(values));
    Sum(values) / n
  }

  lemma QuotientBetween(total: real, n: real, lo: real, hi: real)
    requires 0.0 < n && n * lo <= total <= n * hi
    ensures lo <= total / n <= hi
  {
    var q := total / n;
    assert (q - lo) * n == total - n * lo;
    assert (hi - q) * n == n * hi - total;
  }

  /** `get_metric_stats(name)`: `None` stands for the empty dictionary `{}`. */
  function Stats(history: seq<MetricRecord>, name: string): (stats: Option<MetricStats>)
    ensures stats.None? <==> forall i :: 0 <= i < |history| ==> history[i].metric != name
    ensures stats.Some? ==> stats.value.count == multiset(MetricNames(history))[name]
    ensures stats.Some? ==> stats.value.min <= stats.value.mean <= stats.value.max
    ensures stats.Some? ==> exists i :: 0 <= i < |history| && history[i].metric == name && history[i].value == stats.value.min
    ensures stats.Some? ==> exists i :: 0 <= i < |history| && history[i].metric == name && history[i].value == stats.value.max
    ensures stats.Some? ==> forall i :: 0 <= i < |history| && history[i].metric == name ==>
      stats.value.min <= history[i].value <= stats.value.max
  {
    var values := ValuesOf(history, name);
    if values == [] then
      None
    else
      var mn := Minimum(values);
      var mx := Maximum(values);
      assert forall i :: 0 <= i < |history| && history[i].metric == name ==> history[i].value in values;
      Some(MetricStats(Mean(values), mn, mx, |values|))
  }

  /** Recording a value under one name leaves the statistics of every other name as they were. */
  lemma {:induction false} OtherNamesUnaffected(history: seq<MetricRecord>, r: MetricRecord, name: string)
    requires r.metric != name
    ensures Stats(history + [r], name) == Stats(history, name)
  {
    ValuesOfAppend(history, [r], name);
    assert [r][..0] == [];
    assert ValuesOf([r], name) == [];
  }

  /** Statistics only depend on the records carrying the name, in their order. */
  lemma {:induction false} StatsDependOnlyOnOwnValues(h1: seq<MetricRecord>, h2: seq<MetricRecord>, name: string)
    requires ValuesOf(h1, name) == ValuesOf(h2, name)
    ensures Stats(h1, name) == Stats(h2, name)
  {
  }

  class PerformanceMetrics {
    var history: seq<MetricRecord>

    constructor ()
      ensures history == []
    {
      history := [];
    }

    /** `record_metric`, with the timestamp passed in instead of read from the clock. */
    method RecordMetric(metricName: string, value: real, timestamp: real)
      modifies this
      ensures history == old(history) + [MetricRecord(metricName, value, timestamp)]
      ensures Stats(history, metricName).Some?
      ensures Stats(history, metricName).value.count == old(multiset(MetricNames(history))[metricName]) + 1
      ensures forall name :: name != metricName ==> Stats(history, name) == old(Stats(history, name))
    {
      var h := history;
      history := history + [MetricRecord(metricName, value, timestamp)];
      assert MetricNames(history) == MetricNames(h) + [metricName];
      forall name | name != metricName
        ensures Stats(history, name) == Stats(h, name)
      {
        OtherNamesUnaffected(h, MetricRecord(metricName, value, timestamp), name);
      }
    }

    /** `get_metric_stats`, which only reads the history. */
    method GetMetricStats(metricName: string) returns (stats: Option<MetricStats>)
      ensures stats == Stats(history, metricName)
    {
      stats := Stats(history, metricName);
    }

    /** `clear_history`. */
    method ClearHistory()
      modifies this
      ensures history == []
      ensures forall name :: Stats(history, name) == None
    {
      history := [];
    }
  }
}
