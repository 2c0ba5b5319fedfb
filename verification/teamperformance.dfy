/** The in-memory methods of the team performance document
    (backend/src/models/teamPerformanceModel.js): looking a current metric up by name, the
    upsert of a current metric (the schema trims a metric name when it is stored),
    appending a historical data point, and the date/metric
    filter `getHistoricalData` applies to the stored history. Dates are whole numbers
    supplied by the caller (milliseconds since the epoch). */
module TeamPerformance {
  import opened Wrappers
  import Js

  /** One entry of `currentMetrics`. */
  datatype Metric = Metric(
    metric: string,
    value: real,
    baseline: real,
    leagueAverage: real,
    sampleSize: real,
    lastUpdated: int)

  /** One entry of `historicalPerformance`: a date and the metrics recorded on it. */
  datatype DataPoint = DataPoint(date: int, metrics: map<string, real>)

  /** One row of `getHistoricalData`'s answer. */
  datatype Observation = Observation(date: int, value: real)

  // ---------------------------------------------------------------- current metrics

  /** `findIndex` by metric name: the first position holding that name, or -1. */
  function FindIndex(ms: seq<Metric>, name: string): (i: int)
    ensures -1 <= i < |ms|
    ensures i >= 0 ==> ms[i].metric == name && forall k :: 0 <= k < i ==> ms[k].metric != name
    ensures i == -1 <==> forall k :: 0 <= k < |ms| ==> ms[k].metric != name
  {
    if |ms| == 0 then -1
    else if ms[0].metric == name then 0
    else
      var j := FindIndex(ms[1..], name);
      if j == -1 then -1 else j + 1
  }

  /** `getMetric`: the first entry with the given name, or none. */
  function GetMetric(ms: seq<Metric>, name: string): (r: Option<Metric>)
    ensures r.None? <==> forall k :: 0 <= k < |ms| ==> ms[k].metric != name
    ensures r.Some? ==> exists i :: 0 <= i < |ms| && ms[i] == r.value
                                    && forall k :: 0 <= k < i ==> ms[k].metric != name
    ensures r.Some? ==> r.value.metric == name
  {
    var i := FindIndex(ms, name);
    if i >= 0 then Some(ms[i]) else None
  }

  /** `updateMetric`: when an entry with this name exists, the first one has its value,
      sample size, baseline, league average and time overwritten in place; otherwise a new
      entry is appended, under the name the schema stores: the given one trimmed. The
      lookup compares the name as given. */
  function UpdateMetric(ms: seq<Metric>, name: string, value: real, sampleSize: real, baseline: real,
                        leagueAverage: real, now: int): (r: seq<Metric>)
    ensures var i := FindIndex(ms, name);
            && (i >= 0 ==> |r| == |ms|
                           && r[i] == ms[i].(value := value, sampleSize := sampleSize, baseline := baseline,
                                             leagueAverage := leagueAverage, lastUpdated := now)
                           && forall k :: 0 <= k < |ms| && k != i ==> r[k] == ms[k])
            && (i == -1 ==> r == ms + [Metric(Js.Trim(name), value, baseline, leagueAverage, sampleSize, now)])
  {
    var i := FindIndex(ms, name);
    if i >= 0 then
      ms[i := ms[i].(value := value, sampleSize := sampleSize, baseline := baseline,
                     leagueAverage := leagueAverage, lastUpdated := now)]
    else ms + [Metric(Js.Trim(name), value, baseline, leagueAverage, sampleSize, now)]
  }

  /** Every stored metric name is trimmed. */
  predicate NamesTrimmed(ms: seq<Metric>)
  {
    forall k :: 0 <= k < |ms| ==> Js.IsTrimmed(ms[k].metric)
  }

  /** After an update under a trimmed name, looking the metric up finds exactly the values
      just written; every name other than the given one and the one stored finds what it
      found before. */
  lemma UpdateThenGet(ms: seq<Metric>, name: string, value: real, sampleSize: real, baseline: real,
                      leagueAverage: real, now: int, other: string)
    ensures var r := UpdateMetric(ms, name, value, sampleSize, baseline, leagueAverage, now);
            var m := GetMetric(r, name);
            Js.IsTrimmed(name) ==>
              && m.Some? && m.value.value == value && m.value.sampleSize == sampleSize
              && m.value.baseline == baseline && m.value.leagueAverage == leagueAverage
              && m.value.lastUpdated == now
    ensures other != name && other != Js.Trim(name) ==>
              GetMetric(UpdateMetric(ms, name, value, sampleSize, baseline, leagueAverage, now), other)
                == GetMetric(ms, other)
  {
    var r := UpdateMetric(ms, name, value, sampleSize, baseline, leagueAverage, now);
    var i := FindIndex(ms, name);
    assert forall k :: 0 <= k < |ms| ==> r[k].metric == ms[k].metric;
    if i >= 0 {
      FindIndexSameNames(ms, r, name);
    } else {
      assert r[|ms|].metric == Js.Trim(name);
    }
    if other != name && other != Js.Trim(name) {
      FindIndexSameNames(ms, r, other);
    }
  }

  /** Over trimmed stored names, a name with white space at an end is never found: each
      update under it appends another entry, every entry stays trimmed, and looking the
      name up afterwards still finds nothing. */
  lemma UntrimmedNameAppends(ms: seq<Metric>, name: string, value: real, sampleSize: real, baseline: real,
                             leagueAverage: real, now: int)
    requires NamesTrimmed(ms) && !Js.IsTrimmed(name)
    ensures var r := UpdateMetric(ms, name, value, sampleSize, baseline, leagueAverage, now);
            && r == ms + [Metric(Js.Trim(name), value, baseline, leagueAverage, sampleSize, now)]
            && NamesTrimmed(r)
            && GetMetric(r, name).None?
  {
    var r := UpdateMetric(ms, name, value, sampleSize, baseline, leagueAverage, now);
    assert forall k :: 0 <= k < |r| ==> Js.IsTrimmed(r[k].metric);
  }

  /** An update keeps the stored names trimmed. */
  lemma UpdateKeepsNamesTrimmed(ms: seq<Metric>, name: string, value: real, sampleSize: real, baseline: real,
                                leagueAverage: real, now: int)
    requires NamesTrimmed(ms)
    ensures NamesTrimmed(UpdateMetric(ms, name, value, sampleSize, baseline, leagueAverage, now))
  {
    var r := UpdateMetric(ms, name, value, sampleSize, baseline, leagueAverage, now);
    assert forall k :: 0 <= k < |ms| ==> r[k].metric == ms[k].metric;
  }

  /** A list that repeats another's names and then adds only different ones has the same
      first index for `name`. */
  lemma FindIndexSameNames(a: seq<Metric>, b: seq<Metric>, name: string)
    requires |a| <= |b|
    requires forall k :: 0 <= k < |a| ==> b[k].metric == a[k].metric
    requires forall k :: |a| <= k < |b| ==> b[k].metric != name
    ensures FindIndex(b, name) == FindIndex(a, name)
  {
    var t, u := FindIndex(a, name), FindIndex(b, name);
    if t >= 0 {
      assert b[t].metric == name;
    }
  }

  /** An update never removes a name and never adds any but its own; the list grows by one
      exactly when the name was new. */
  lemma UpdateKeepsNames(ms: seq<Metric>, name: string, value: real, sampleSize: real, baseline: real,
                         leagueAverage: real, now: int)
    ensures var r := UpdateMetric(ms, name, value, sampleSize, baseline, leagueAverage, now);
            && (forall k :: 0 <= k < |ms| ==> r[k].metric == ms[k].metric)
            && |r| == |ms| + (if GetMetric(ms, name).None? then 1 else 0)
  {
  }

  // ---------------------------------------------------------------- history

  /** `addHistoricalDataPoint`: one point appended, every earlier point kept. */
  function AddHistoricalDataPoint(history: seq<DataPoint>, date: int, metrics: map<string, real>)
    : (r: seq<DataPoint>)
    ensures |r| == |history| + 1 && r[..|history|] == history
    ensures r[|history|].date == date && r[|history|].metrics == metrics
  {
    history + [DataPoint(date, metrics)]
  }

  /** The date bounds of the filter: a bound that is not given does not apply; given bounds
      are inclusive. */
  predicate InWindow(date: int, start: Option<int>, end: Option<int>)
  {
    (start.None? || date >= start.value) && (end.None? || date <= end.value)
  }

  /** The filter of `getHistoricalData` on a stored history: keep the points inside the
      window, take each one's value for the metric, and drop the points that lack it. */
  function HistoricalData(history: seq<DataPoint>, metric: string, start: Option<int>, end: Option<int>)
    : (r: seq<Observation>)
    ensures |r| <= |history|
    ensures forall o :: o in r <==>
              exists p :: p in history && InWindow(p.date, start, end) && metric in p.metrics
                          && o == Observation(p.date, p.metrics[metric])
  {
    if |history| == 0 then []
    else
      var init := HistoricalData(history[..|history| - 1], metric, start, end);
      var p := history[|history| - 1];
      assert forall q :: q in history <==> q in history[..|history| - 1] || q == p;
      if InWindow(p.date, start, end) && metric in p.metrics then init + [Observation(p.date, p.metrics[metric])]
      else init
  }

  /** The filter keeps the stored order: filtering a history made of two parts gives the
      filtered first part followed by the filtered second part. */
  lemma {:induction false} HistoricalDataKeepsOrder(a: seq<DataPoint>, b: seq<DataPoint>, metric: string,
                                                     start: Option<int>, end: Option<int>)
    ensures HistoricalData(a + b, metric, start, end)
              == HistoricalData(a, metric, start, end) + HistoricalData(b, metric, start, end)
  {
    if |b| > 0 {
      var b' := b[..|b| - 1];
      assert (a + b)[..|a + b| - 1] == a + b';
      assert (a + b)[|a + b| - 1] == b[|b| - 1];
      HistoricalDataKeepsOrder(a, b', metric, start, end);
    } else {
      assert a + b == a;
    }
  }

  /** Without bounds, a history whose every point records the metric comes back whole, one
      observation per point. */
  lemma {:induction false} UnboundedKeepsEverything(history: seq<DataPoint>, metric: string)
    requires forall k :: 0 <= k < |history| ==> metric in history[k].metrics
    ensures var r := HistoricalData(history, metric, None, None);
            |r| == |history|
            && forall k :: 0 <= k < |history| ==> r[k] == Observation(history[k].date, history[k].metrics[metric])
  {
    if |history| > 0 {
      UnboundedKeepsEverything(history[..|history| - 1], metric);
    }
  }
}
