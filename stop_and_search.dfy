/**
 The stop-and-search script's bookkeeping: the nine `chart_data` lists filled
 one value per stop, the per-field tallies behind the pie charts, and the
 chart height derived from the largest of them.
 */
module StopAndSearch {
  import opened Json
  import opened Counting
  import MarkerPlacement

  /** One decoded stop: its top-level fields and the coordinate read from `location`. */
  datatype Stop = Stop(fields: Object, point: MarkerPlacement.GeoPoint)

  /** The keys of `chart_data`, in the dictionary's insertion order (one chart row each). */
  const TrackedFields: seq<string> := [
    "gender", "age_range", "self_defined_ethnicity", "officer_defined_ethnicity",
    "legislation", "object_of_search", "outcome", "outcome_linked_to_object_of_search",
    "removal_of_more_than_outer_clothing"
  ]

  /** Pixel height per chart row, and extra height per slice of the largest chart. */
  const RowHeight: nat := 300
  const SliceHeight: nat := 100

  lemma TrackedFieldsDistinct()
    ensures |TrackedFields| == 9
    ensures Distinct(TrackedFields)
  {
  }

  /** The list `chart_data[key]` holds once `stops` have been scanned. */
  function Column(stops: seq<Stop>, key: string): (col: seq<Value>)
    ensures |col| == |stops|
    ensures forall i :: 0 <= i < |stops| && key !in stops[i].fields ==> col[i] == Unknown
    ensures forall i :: 0 <= i < |stops| && key in stops[i].fields ==> col[i] == stops[i].fields[key]
  {
    if |stops| == 0 then []
    else
      var last := stops[|stops| - 1];
      Column(stops[..|stops| - 1], key) + [Get(last.fields, key, Unknown)]
  }

  /** One pass of the inner loop: append the stop's value of every key to that key's list. */
  method AppendStop(keys: seq<string>, chart: map<string, seq<Value>>, stop: Stop)
    returns (chart': map<string, seq<Value>>)
    requires Distinct(keys)
    requires forall k :: k in chart <==> k in keys
    ensures forall k :: k in chart' <==> k in keys
    ensures forall k :: k in keys ==> chart'[k] == chart[k] + [Get(stop.fields, k, Unknown)]
  {
    chart' := chart;
    var j := 0;
    while j < |keys|
      invariant 0 <= j <= |keys|
      invariant forall k :: k in chart' <==> k in keys
      invariant forall n :: 0 <= n < j ==> chart'[keys[n]] == chart[keys[n]] + [Get(stop.fields, keys[n], Unknown)]
      invariant forall n :: j <= n < |keys| ==> chart'[keys[n]] == chart[keys[n]]
    {
      var key := keys[j];
      chart' := chart'[key := chart'[key] + [Get(stop.fields, key, Unknown)]];
      j := j + 1;
    }
    assert forall k :: k in keys ==> exists n :: 0 <= n < |keys| && keys[n] == k;
  }

  /**
   The record loop's part in the charts: starting from an empty list per key,
   append each stop's value of every key.
   */
  method CollectChartData(keys: seq<string>, stops: seq<Stop>) returns (chart: map<string, seq<Value>>)
    requires Distinct(keys)
    ensures forall k :: k in chart <==> k in keys
    ensures forall k :: k in keys ==> chart[k] == Column(stops, k)
  {
    chart := map k | k in keys :: [];
    var i := 0;
    while i < |stops|
      invariant 0 <= i <= |stops|
      invariant forall k :: k in chart <==> k in keys
      invariant forall k :: k in keys ==> chart[k] == Column(stops[..i], k)
    {
      assert stops[..i + 1][..i] == stops[..i] && stops[..i + 1][i] == stops[i];
      chart := AppendStop(keys, chart, stops[i]);
      i := i + 1;
    }
    assert stops[..i] == stops;
  }

  /** One pie trace: the field it charts, its labels and the count of each label. */
  datatype Pie = Pie(name: string, labels: seq<Value>, counts: seq<nat>)

  /** The trace for `key` over `values`: the first-seen labels, each with its count. */
  function PieOf(key: string, values: seq<Value>): Pie
  {
    var labels := Dedup(values);
    Pie(key, labels, CountsOf(labels, values))
  }

  /** Every pie's counts add up to the number of values charted. */
  lemma PieOfSums(key: string, values: seq<Value>)
    ensures |PieOf(key, values).counts| == |PieOf(key, values).labels|
    ensures Sum(PieOf(key, values).counts) == |values|
  {
    TallySumsToLength(values);
    CountsOfSpec(Dedup(values), values);
  }

  /**
   One row of the chart loop: tally `values` and unpack the tally into labels
   and counts, which fails on an empty tally.
   */
  method PieFor(key: string, values: seq<Value>) returns (r: Result<Pie>)
    ensures r.Ok? <==> |values| > 0
    ensures r.Err? ==> r.error == ValueError
    ensures r.Ok? ==> r.value == PieOf(key, values) && |r.value.labels| >= 1
  {
    var labels, counts := Tally(values);
    DedupSpec(values);
    if |labels| == 0 {
      return Err(ValueError);
    }
    return Ok(Pie(key, labels, counts));
  }

  /** `max(max_slices, len(labels))` folded over the pies in row order, from 0. */
  function MaxSlices(pies: seq<Pie>): nat
  {
    if |pies| == 0 then 0
    else
      var before := MaxSlices(pies[..|pies| - 1]);
      var here := |pies[|pies| - 1].labels|;
      if before < here then here else before
  }

  /** The folded maximum bounds every pie's label count and, unless there are no pies, is one of them. */
  lemma {:induction false} MaxSlicesIsMaximum(pies: seq<Pie>)
    ensures forall n :: 0 <= n < |pies| ==> |pies[n].labels| <= MaxSlices(pies)
    ensures pies != [] ==> exists n :: 0 <= n < |pies| && |pies[n].labels| == MaxSlices(pies)
  {
    if |pies| > 0 {
      var init := pies[..|pies| - 1];
      var last := |pies| - 1;
      MaxSlicesIsMaximum(init);
      assert forall n :: 0 <= n < |init| ==> pies[n] == init[n];
      assert init == [] ==> MaxSlices(init) == 0;
      if MaxSlices(pies) == |pies[last].labels| {
        assert 0 <= last < |pies| && |pies[last].labels| == MaxSlices(pies);
      } else {
        var n :| 0 <= n < |init| && |init[n].labels| == MaxSlices(init);
        assert |pies[n].labels| == MaxSlices(pies);
      }
    }
  }

  /** The figure: one pie per row, the largest label count, and the figure height. */
  datatype Figure = Figure(pies: seq<Pie>, maxSlices: nat, height: nat)

  /**
   The chart loop: tally every list in row order, keep the largest number of
   labels, and size the figure from it. An empty list makes the unpacking of
   its tally fail.
   */
  method BuildFigure(keys: seq<string>, chart: map<string, seq<Value>>) returns (r: Result<Figure>)
    requires forall n :: 0 <= n < |keys| ==> keys[n] in chart
    ensures r.Ok? <==> forall n :: 0 <= n < |keys| ==> |chart[keys[n]]| > 0
    ensures r.Err? ==> r.error == ValueError
    ensures r.Ok? ==> r.value.height == RowHeight * 9 + SliceHeight * r.value.maxSlices
    ensures r.Ok? ==> |r.value.pies| == |keys|
    ensures r.Ok? ==> forall n :: 0 <= n < |keys| ==> r.value.pies[n] == PieOf(keys[n], chart[keys[n]])
    ensures r.Ok? ==> r.value.maxSlices == MaxSlices(r.value.pies)
  {
    var pies: seq<Pie> := [];
    var maxSlices: nat := 0;
    var n := 0;
    while n < |keys|
      invariant 0 <= n <= |keys|
      invariant |pies| == n
      invariant forall m :: 0 <= m < n ==> |chart[keys[m]]| > 0
      invariant maxSlices == MaxSlices(pies)
      invariant forall m :: 0 <= m < n ==> pies[m] == PieOf(keys[m], chart[keys[m]])
    {
      var key := keys[n];
      var pie := PieFor(key, chart[key]);
      if pie.Err? {
        return Err(ValueError);
      }
      if maxSlices < |pie.value.labels| {
        maxSlices := |pie.value.labels|;
      }
      assert (pies + [pie.value])[..n] == pies;
      pies := pies + [pie.value];
      n := n + 1;
    }
    r := Ok(Figure(pies, maxSlices, RowHeight * 9 + SliceHeight * maxSlices));
  }

  /**
   A figure built from the collected lists describes the stops: each pie is
   the tally of its key's column, counts every stop once, and has at most
   `maxSlices` labels, a bound one of the pies attains.
   */
  lemma FigureOfColumns(keys: seq<string>, stops: seq<Stop>, chart: map<string, seq<Value>>, fig: Figure)
    requires forall k :: k in keys ==> k in chart && chart[k] == Column(stops, k)
    requires |fig.pies| == |keys|
    requires forall n :: 0 <= n < |keys| ==> fig.pies[n] == PieOf(keys[n], chart[keys[n]])
    requires fig.maxSlices == MaxSlices(fig.pies)
    ensures forall n :: 0 <= n < |keys| ==>
              && fig.pies[n] == PieOf(keys[n], Column(stops, keys[n]))
              && Sum(fig.pies[n].counts) == |stops|
              && |fig.pies[n].labels| <= fig.maxSlices
    ensures keys != [] ==> exists n :: 0 <= n < |keys| && |fig.pies[n].labels| == fig.maxSlices
  {
    MaxSlicesIsMaximum(fig.pies);
    forall n | 0 <= n < |keys|
      ensures fig.pies[n] == PieOf(keys[n], Column(stops, keys[n]))
      ensures Sum(fig.pies[n].counts) == |stops|
    {
      assert keys[n] in keys;
      PieOfSums(keys[n], chart[keys[n]]);
    }
  }

  /**
   The chart side of a run over any distinct row keys: collect the lists,
   then build the figure. It fails exactly when some row is charted over no stops.
   */
  method ChartsFor(keys: seq<string>, stops: seq<Stop>) returns (r: Result<Figure>)
    requires Distinct(keys)
    ensures r.Ok? <==> keys == [] || |stops| > 0
    ensures r.Err? ==> r.error == ValueError
    ensures r.Ok? ==> r.value.height == RowHeight * 9 + SliceHeight * r.value.maxSlices
    ensures r.Ok? ==> |r.value.pies| == |keys|
    ensures r.Ok? ==> forall n :: 0 <= n < |keys| ==>
              && r.value.pies[n] == PieOf(keys[n], Column(stops, keys[n]))
              && Sum(r.value.pies[n].counts) == |stops|
              && |r.value.pies[n].labels| <= r.value.maxSlices
    ensures r.Ok? && keys != [] ==> exists n :: 0 <= n < |keys| && |r.value.pies[n].labels| == r.value.maxSlices
  {
    var chart := CollectChartData(keys, stops);
    assert forall n :: 0 <= n < |keys| ==> keys[n] in keys;
    r := BuildFigure(keys, chart);
    if r.Ok? {
      FigureOfColumns(keys, stops, chart, r.value);
    }
  }

  /**
   The whole chart side of a run: the figure fails exactly when there are no
   stops; otherwise every pie's counts add up to the number of stops and the
   height is 300 per row plus 100 per slice of the field with most distinct values.
   */
  method StopCharts(stops: seq<Stop>) returns (r: Result<Figure>)
    ensures r.Ok? <==> |stops| > 0
    ensures r.Err? ==> r.error == ValueError
    ensures r.Ok? ==> r.value.height == 2700 + 100 * r.value.maxSlices
    ensures r.Ok? ==> |r.value.pies| == |TrackedFields|
    ensures r.Ok? ==> forall n :: 0 <= n < |TrackedFields| ==>
              && r.value.pies[n] == PieOf(TrackedFields[n], Column(stops, TrackedFields[n]))
              && Sum(r.value.pies[n].counts) == |stops|
              && |r.value.pies[n].labels| <= r.value.maxSlices
    ensures r.Ok? ==> exists n :: 0 <= n < |TrackedFields| && |r.value.pies[n].labels| == r.value.maxSlices
  {
    TrackedFieldsDistinct();
    r := ChartsFor(TrackedFields, stops);
  }
}
