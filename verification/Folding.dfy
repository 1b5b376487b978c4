/** Readings, and `foldMetric` of back/src/dora/aggregate.ts with `measured` of back/src/dora/dora-metrics.ts. */
module Folding {
  import opened DoraEvents
  import opened Grouping
  import opened Lists
  import opened Options
  import opened Sorting
  import opened Sums

  datatype Metric =
    | DeploymentFrequency
    | ChangeFailureRate
    | Mttr
    | CodingTime
    | PickupTime
    | ReviewTime
    | LeadTime
    | DeployTime

  datatype Unit = PerDay | Seconds | Ratio

  /** `population` is what a duration was measured on; readings of other units carry none. */
  datatype DoraResult = DoraResult(
    metric: Metric,
    value: real,
    unit: Unit,
    dimensions: Dimensions,
    sampleSize: nat,
    population: Option<seq<real>>
  )

  function ValueOf(r: DoraResult): real { r.value }

  function Weighted(r: DoraResult): real { r.value * r.sampleSize as real }

  function PopulationOf(r: DoraResult): seq<real> { if r.population.Some? then r.population.value else [] }

  function MetricOf(r: DoraResult): Metric { r.metric }

  function TotalSize(results: seq<DoraResult>): nat {
    if results == [] then 0 else TotalSize(results[..|results| - 1]) + results[|results| - 1].sampleSize
  }

  function WeightedMean(results: seq<DoraResult>, sampleSize: nat): real
    requires results != []
  {
    if sampleSize > 0 then Sum(results, Weighted) / sampleSize as real
    else Sum(results, ValueOf) / |results| as real
  }

  function FoldValue(unit: Unit, results: seq<DoraResult>, sampleSize: nat, population: seq<real>): real
    requires results != []
  {
    if unit.PerDay? then Sum(results, ValueOf)
    else if unit.Seconds? && population != [] then Median(population)
    else WeightedMean(results, sampleSize)
  }

  function FoldMetric(results: seq<DoraResult>): Option<DoraResult> {
    if results == [] then None
    else
      var size := TotalSize(results);
      Some(DoraResult(results[0].metric,
                      FoldValue(results[0].unit, results, size, FlatMap(results, PopulationOf)),
                      results[0].unit, map[], size, None))
  }

  /** One fold per metric, over all the readings of that metric. */
  method FoldByMetric(results: seq<DoraResult>) returns (folds: seq<DoraResult>)
    ensures |folds| == |FirstSeen(results, MetricOf)|
    ensures forall i :: 0 <= i < |folds| ==> IsFoldOf(folds[i], results, FirstSeen(results, MetricOf)[i])
  {
    var byMetric := GroupBy(results, MetricOf);
    folds := [];
    for i := 0 to |byMetric.keys|
      invariant |folds| == i
      invariant forall j :: 0 <= j < i ==> IsFoldOf(folds[j], results, byMetric.keys[j])
    {
      var k := byMetric.keys[i];
      FoldOfGroup(results, k);
      var fold := FoldMetric(byMetric.at[k]);
      folds := folds + [fold.value];
    }
  }

  predicate IsFoldOf(fold: DoraResult, results: seq<DoraResult>, metric: Metric) {
    fold.metric == metric && Some(fold) == FoldMetric(Filter(results, Keyed(MetricOf, metric)))
  }

  lemma FoldOfGroup(results: seq<DoraResult>, k: Metric)
    requires k in FirstSeen(results, MetricOf)
    ensures var fold := FoldMetric(Filter(results, Keyed(MetricOf, k))); fold.Some? && IsFoldOf(fold.value, results, k)
  {
    var group := Filter(results, Keyed(MetricOf, k));
    GroupsAreNotEmpty(results, MetricOf, k);
    assert group[0] in group;
  }

  /** A duration reading, or none where nothing was measured. */
  function Measured(metric: Metric, dimensions: Dimensions, samples: seq<real>): seq<DoraResult> {
    if samples == [] then []
    else [DoraResult(metric, Median(samples), Seconds, dimensions, |samples|, Some(samples))]
  }

  function MeasuredAt(metric: Metric, samples: Dimensions -> seq<real>): Dimensions -> seq<DoraResult> {
    (k: Dimensions) => Measured(metric, k, samples(k))
  }

  function SizeOf(r: DoraResult): real { r.sampleSize as real }

  lemma {:induction false} TotalSizeIsSum(results: seq<DoraResult>)
    ensures TotalSize(results) as real == Sum(results, SizeOf)
  {
    if results != [] {
      TotalSizeIsSum(results[..|results| - 1]);
    }
  }

  lemma {:induction false} TotalSizeAppend(a: seq<DoraResult>, b: seq<DoraResult>)
    ensures TotalSize(a + b) == TotalSize(a) + TotalSize(b)
  {
    if b == [] {
      assert a + b == a;
    } else {
      assert (a + b)[..|a| + |b| - 1] == a + b[..|b| - 1];
      TotalSizeAppend(a, b[..|b| - 1]);
    }
  }

  lemma {:induction false} FlatMapAppend<T, U>(a: seq<T>, b: seq<T>, f: T -> seq<U>)
    ensures FlatMap(a + b, f) == FlatMap(a, f) + FlatMap(b, f)
  {
    if b == [] {
      assert a + b == a;
    } else {
      assert (a + b)[..|a| + |b| - 1] == a + b[..|b| - 1];
      FlatMapAppend(a, b[..|b| - 1], f);
    }
  }

  lemma {:induction false} SlicesKeepEverything(metric: Metric, ks: seq<Dimensions>, samples: Dimensions -> seq<real>)
    ensures var results := FlatMap(ks, MeasuredAt(metric, samples));
      && FlatMap(results, PopulationOf) == FlatMap(ks, samples)
      && TotalSize(results) == |FlatMap(ks, samples)|
      && (results == [] <==> FlatMap(ks, samples) == [])
      && forall r :: r in results ==> r.metric == metric && r.unit.Seconds?
  {
    if ks != [] {
      var n := |ks| - 1;
      SlicesKeepEverything(metric, ks[..n], samples);
      var here := Measured(metric, ks[n], samples(ks[n]));
      FlatMapAppend(FlatMap(ks[..n], MeasuredAt(metric, samples)), here, PopulationOf);
      TotalSizeAppend(FlatMap(ks[..n], MeasuredAt(metric, samples)), here);
      if here != [] {
        assert here[..0] == [];
        assert FlatMap(here, PopulationOf) == samples(ks[n]);
        assert TotalSize(here) == |samples(ks[n])|;
      }
    }
  }

  // ─── A fold without samples ───

  /** The mean of the readings weighed by their sizes, of the readings alone where no size is known. */
  ghost predicate IsMean(v: real, results: seq<DoraResult>) {
    if TotalSize(results) > 0 then IsQuotient(v, Sum(results, Weighted), TotalSize(results))
    else IsQuotient(v, Sum(results, ValueOf), |results|)
  }

  predicate IsQuotient(v: real, total: real, n: nat) { n > 0 && v == total / n as real }

  /** A rate, or a duration whose samples are gone, folds into that mean. */
  lemma FoldedMean(results: seq<DoraResult>)
    requires results != [] && !results[0].unit.PerDay?
    requires results[0].unit.Seconds? ==> FlatMap(results, PopulationOf) == []
    ensures var fold := FoldMetric(results);
      && fold.Some? && IsMean(fold.value.value, results) && fold.value.sampleSize == TotalSize(results)
      && fold.value.metric == results[0].metric && fold.value.unit == results[0].unit && fold.value.dimensions == map[]
  {
  }

  // ─── What one duration reading says ───

  /** A reading of these samples: all of them its population, their median its value. */
  ghost predicate ReadsSamples(r: DoraResult, metric: Metric, samples: seq<real>) {
    && r.metric == metric && r.unit == Seconds && samples != []
    && r.population == Some(samples) && r.sampleSize == |samples| && IsMedianOf(r.value, samples)
  }

  lemma MeasuredReads(metric: Metric, k: Dimensions, samples: seq<real>)
    ensures var r := Measured(metric, k, samples);
      if samples == [] then r == [] else |r| == 1 && r[0].dimensions == k && ReadsSamples(r[0], metric, samples)
  {
    if samples != [] {
      MedianIsMiddle(samples);
    }
  }

  /** Each reading is of the samples of one of these keys. */
  ghost predicate ReadsOnly(results: seq<DoraResult>, metric: Metric, ks: seq<Dimensions>,
                            samples: Dimensions -> seq<real>) {
    forall r :: r in results ==> r.dimensions in ks && ReadsSamples(r, metric, samples(r.dimensions))
  }

  predicate IsRead(results: seq<DoraResult>, k: Dimensions) {
    exists r :: r in results && r.dimensions == k
  }

  /** No key is read twice. */
  predicate ReadOnce(results: seq<DoraResult>) {
    forall i, j :: 0 <= i < j < |results| ==> results[i].dimensions != results[j].dimensions
  }

  /** One reading for each key with something to read, none for the others. */
  lemma SlicesReadEach(metric: Metric, ks: seq<Dimensions>, samples: Dimensions -> seq<real>)
    requires NoDuplicates(ks)
    ensures var results := FlatMap(ks, MeasuredAt(metric, samples));
      && ReadsOnly(results, metric, ks, samples) && ReadOnce(results)
      && forall k :: IsRead(results, k) <==> k in ks && samples(k) != []
  {
    SlicesReadOnly(metric, ks, samples);
    SlicesReadOnce(metric, ks, samples);
  }

  lemma {:induction false} SlicesReadOnly(metric: Metric, ks: seq<Dimensions>, samples: Dimensions -> seq<real>)
    ensures ReadsOnly(FlatMap(ks, MeasuredAt(metric, samples)), metric, ks, samples)
  {
    InFlatMap(ks, MeasuredAt(metric, samples));
    var results := FlatMap(ks, MeasuredAt(metric, samples));
    forall r | r in results ensures r.dimensions in ks && ReadsSamples(r, metric, samples(r.dimensions)) {
      var k :| k in ks && r in MeasuredAt(metric, samples)(k);
      MeasuredReads(metric, k, samples(k));
    }
  }

  lemma {:induction false} SlicesReadOnce(metric: Metric, ks: seq<Dimensions>, samples: Dimensions -> seq<real>)
    requires NoDuplicates(ks)
    ensures var results := FlatMap(ks, MeasuredAt(metric, samples));
      ReadOnce(results) && forall k :: IsRead(results, k) <==> k in ks && samples(k) != []
  {
    if ks != [] {
      var init, k := ks[..|ks| - 1], ks[|ks| - 1];
      SlicesReadOnce(metric, init, samples);
      assert ks == init + [k] && k !in init;
      OneMoreRead(FlatMap(init, MeasuredAt(metric, samples)), Measured(metric, k, samples(k)), k);
    }
  }

  lemma OneMoreRead(before: seq<DoraResult>, here: seq<DoraResult>, k: Dimensions)
    requires ReadOnce(before) && !IsRead(before, k)
    requires |here| <= 1 && (here != [] ==> here[0].dimensions == k)
    ensures ReadOnce(before + here)
    ensures forall j :: IsRead(before + here, j) <==> IsRead(before, j) || (j == k && here != [])
  {
    var results := before + here;
    forall i, j | 0 <= i < j < |results| ensures results[i].dimensions != results[j].dimensions {
      assert results[i] in before;
    }
    forall j ensures IsRead(results, j) <==> IsRead(before, j) || (j == k && here != []) {
      assert forall r :: r in results <==> r in before || r in here;
      assert here != [] ==> here[0] in here;
    }
  }

  /**
   * Folding undoes slicing: the slices of a duration metric fold into the median
   * of everything measured, over as many samples, whatever the slices were.
   */
  lemma {:induction false} FoldOfSlices(metric: Metric, ks: seq<Dimensions>, samples: Dimensions -> seq<real>,
                                        all: seq<real>)
    requires multiset(FlatMap(ks, samples)) == multiset(all)
    ensures FoldMetric(FlatMap(ks, MeasuredAt(metric, samples)))
         == if all == [] then None else Some(DoraResult(metric, Median(all), Seconds, map[], |all|, None))
  {
    SlicesKeepEverything(metric, ks, samples);
    var measured := FlatMap(ks, samples);
    SameElementsSameSize(measured, all);
    MedianOfPermutation(measured, all);
    var results := FlatMap(ks, MeasuredAt(metric, samples));
    if results != [] {
      assert results[0] in results;
    }
  }

  function GroupValues<T(!new)>(items: seq<T>, key: T -> Dimensions, value: T -> real): Dimensions -> seq<real> {
    (k: Dimensions) => Map(Filter(items, Keyed(key, k)), value)
  }

  /** Grouped by their dimensions and put back together, the same values come out. */
  lemma {:induction false} GroupingKeepsValues<T(!new)>(items: seq<T>, key: T -> Dimensions, value: T -> real)
    ensures multiset(FlatMap(FirstSeen(items, key), GroupValues(items, key, value))) == multiset(Map(items, value))
  {
    var ks := FirstSeen(items, key);
    forall v ensures Sum(FlatMap(ks, GroupValues(items, key, value)), Is(v)) == Sum(Map(items, value), Is(v)) {
      SumFlatMap(ks, GroupValues(items, key, value), Is(v));
      forall k | k in ks
        ensures Spread(GroupValues(items, key, value), Is(v))(k) == GroupWeight(items, key, After(value, Is(v)))(k)
      {
        SumMap(Filter(items, Keyed(key, k)), value, Is(v));
      }
      SumAgree(ks, Spread(GroupValues(items, key, value), Is(v)), GroupWeight(items, key, After(value, Is(v))));
      SumOfAllGroups(items, key, After(value, Is(v)));
      SumMap(items, value, Is(v));
    }
    SameSumsSameElements(FlatMap(ks, GroupValues(items, key, value)), Map(items, value));
  }
}
