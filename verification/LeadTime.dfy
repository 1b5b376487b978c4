/** `deploymentFrequency` of back/src/dora/dora-metrics.ts. */
module Frequency {
  import opened DoraEvents
  import opened Folding
  import opened Lists
  import opened Options
  import opened Sums

  predicate IsSuccess(d: Deployment) { d.status.Success? }

  function Successes(deployments: seq<Deployment>): seq<Deployment> { Filter(deployments, IsSuccess) }

  function FrequencyAt(successes: seq<Deployment>, days: real): Dimensions -> DoraResult
    requires days > 0.0
  {
    (k: Dimensions) =>
      var size := |Filter(successes, Keyed(DeploymentDimensions, k))|;
      DoraResult(DeploymentFrequency, size as real / days, PerDay, k, size, None)
  }

  /** A period without length has no slices to report, rather than counts in their place. */
  function Frequencies(deployments: seq<Deployment>, days: real): seq<DoraResult> {
    if days <= 0.0 then []
    else Map(FirstSeen(Successes(deployments), DeploymentDimensions), FrequencyAt(Successes(deployments), days))
  }

  function PerDayOf(days: real): Deployment -> real
    requires days > 0.0
  {
    (d: Deployment) => 1.0 / days
  }

  lemma {:induction false} SumPerDay(items: seq<Deployment>, days: real)
    requires days > 0.0
    ensures Sum(items, PerDayOf(days)) == |items| as real / days
  {
    if items != [] {
      var n := |items| - 1;
      SumPerDay(items[..n], days);
      assert |items| as real / days == n as real / days + 1.0 / days;
    }
  }

  lemma FrequenciesAddUp(deployments: seq<Deployment>, days: real)
    requires days > 0.0
    ensures Sum(Frequencies(deployments, days), ValueOf) == |Successes(deployments)| as real / days
    ensures Sum(Frequencies(deployments, days), SizeOf) == |Successes(deployments)| as real
  {
    var successes := Successes(deployments);
    var ks, at := FirstSeen(successes, DeploymentDimensions), FrequencyAt(successes, days);
    SumMap(ks, at, ValueOf);
    SumMap(ks, at, SizeOf);
    forall k | k in ks
      ensures After(at, ValueOf)(k) == GroupWeight(successes, DeploymentDimensions, PerDayOf(days))(k)
      ensures After(at, SizeOf)(k) == GroupWeight(successes, DeploymentDimensions, One)(k)
    {
      SumPerDay(Filter(successes, Keyed(DeploymentDimensions, k)), days);
      SumOfOnes(Filter(successes, Keyed(DeploymentDimensions, k)));
    }
    SumAgree(ks, After(at, ValueOf), GroupWeight(successes, DeploymentDimensions, PerDayOf(days)));
    SumAgree(ks, After(at, SizeOf), GroupWeight(successes, DeploymentDimensions, One));
    SumOfAllGroups(successes, DeploymentDimensions, PerDayOf(days));
    SumOfAllGroups(successes, DeploymentDimensions, One);
    SumPerDay(successes, days);
    SumOfOnes(successes);
  }

  /** Frequencies add up: over all slices, every success of the span over its days. */
  lemma FoldedFrequency(deployments: seq<Deployment>, days: real)
    ensures FoldMetric(Frequencies(deployments, days))
         == if days <= 0.0 || Successes(deployments) == [] then None
            else Some(DoraResult(DeploymentFrequency, |Successes(deployments)| as real / days, PerDay, map[],
                                 |Successes(deployments)|, None))
  {
    var results, successes := Frequencies(deployments, days), Successes(deployments);
    if days > 0.0 {
      FrequenciesAddUp(deployments, days);
      TotalSizeIsSum(results);
      if successes != [] {
        assert DeploymentDimensions(successes[0]) in FirstSeen(successes, DeploymentDimensions);
        assert results[0] == FrequencyAt(successes, days)(FirstSeen(successes, DeploymentDimensions)[0]);
      }
    }
  }
}

/** `leadTimeBreakdown` of back/src/dora/dora-metrics.ts: from the first commit to the merge, in segments. */
module LeadTime {
  import opened DoraEvents
  import opened Folding
  import opened Lists
  import opened Options
  import opened Sorting
  import opened Sums

  function PrDimensions(p: MergedPr): Dimensions { p.dimensions }

  /** First commit to opening. A segment whose dates are not known yields nothing. */
  function Coding(p: MergedPr): seq<real> {
    if p.firstCommitAt.None? then [] else [Clamp(SecondsBetween(p.firstCommitAt.value, p.openedAt))]
  }

  function Pickup(p: MergedPr): seq<real> {
    if p.firstReviewAt.None? then [] else [Clamp(SecondsBetween(p.openedAt, p.firstReviewAt.value))]
  }

  function Review(p: MergedPr): seq<real> {
    if p.firstReviewAt.None? then [] else [Clamp(SecondsBetween(p.firstReviewAt.value, p.mergedAt))]
  }

  function Lead(p: MergedPr): seq<real> {
    if p.firstCommitAt.None? then [] else [Clamp(SecondsBetween(p.firstCommitAt.value, p.mergedAt))]
  }

  /** The segments of one group of requests, filled in one walk. */
  datatype Segments = Segments(coding: seq<real>, pickup: seq<real>, review: seq<real>, lead: seq<real>)

  function SegmentsOf(items: seq<MergedPr>): Segments {
    Segments(FlatMap(items, Coding), FlatMap(items, Pickup), FlatMap(items, Review), FlatMap(items, Lead))
  }

  method Measure(items: seq<MergedPr>) returns (s: Segments)
    ensures s == SegmentsOf(items)
  {
    s := Segments([], [], [], []);
    for i := 0 to |items|
      invariant s == SegmentsOf(items[..i])
    {
      var p := items[i];
      OneMoreMeasured(items, i);
      if p.firstCommitAt.Some? {
        s := s.(coding := s.coding + [Clamp(SecondsBetween(p.firstCommitAt.value, p.openedAt))],
                lead := s.lead + [Clamp(SecondsBetween(p.firstCommitAt.value, p.mergedAt))]);
      }
      if p.firstReviewAt.Some? {
        s := s.(pickup := s.pickup + [Clamp(SecondsBetween(p.openedAt, p.firstReviewAt.value))],
                review := s.review + [Clamp(SecondsBetween(p.firstReviewAt.value, p.mergedAt))]);
      }
    }
    assert items[..|items|] == items;
  }

  lemma OneMoreMeasured(items: seq<MergedPr>, i: nat)
    requires i < |items|
    ensures var s, p := SegmentsOf(items[..i]), items[i];
      SegmentsOf(items[..i + 1]) == Segments(s.coding + Coding(p), s.pickup + Pickup(p), s.review + Review(p),
                                             s.lead + Lead(p))
  {
    FlatMapNext(items, i, Coding);
    FlatMapNext(items, i, Pickup);
    FlatMapNext(items, i, Review);
    FlatMapNext(items, i, Lead);
  }

  function ReadingsOf(k: Dimensions, s: Segments): seq<DoraResult> {
    Measured(CodingTime, k, s.coding) + Measured(PickupTime, k, s.pickup) + Measured(ReviewTime, k, s.review)
    + Measured(LeadTime, k, s.lead)
  }

  function ReadingsAt(prs: seq<MergedPr>): Dimensions -> seq<DoraResult> {
    (k: Dimensions) => ReadingsOf(k, SegmentsOf(Filter(prs, Keyed(PrDimensions, k))))
  }

  function LeadTimes(prs: seq<MergedPr>): seq<DoraResult> {
    FlatMap(FirstSeen(prs, PrDimensions), ReadingsAt(prs))
  }

  method LeadTimeBreakdown(prs: seq<MergedPr>) returns (results: seq<DoraResult>)
    ensures results == LeadTimes(prs)
  {
    var ks := FirstSeen(prs, PrDimensions);
    results := [];
    for i := 0 to |ks|
      invariant results == FlatMap(ks[..i], ReadingsAt(prs))
    {
      FlatMapNext(ks, i, ReadingsAt(prs));
      var segments := Measure(Filter(prs, Keyed(PrDimensions, ks[i])));
      results := results + ReadingsOf(ks[i], segments);
    }
    assert ks[..|ks|] == ks;
  }

  /**
   * The decomposition is one: with all dates known, coding, pickup and review
   * add up to the lead time exactly where the dates follow one another, or run
   * backwards all the way and everything is clamped to nothing.
   */
  lemma SegmentsAddUpIff(p: MergedPr)
    requires p.firstCommitAt.Some? && p.firstReviewAt.Some?
    ensures Coding(p)[0] + Pickup(p)[0] + Review(p)[0] >= Lead(p)[0]
    ensures Coding(p)[0] + Pickup(p)[0] + Review(p)[0] == Lead(p)[0]
       <==> p.firstCommitAt.value <= p.openedAt <= p.firstReviewAt.value <= p.mergedAt
            || p.firstCommitAt.value >= p.openedAt >= p.firstReviewAt.value >= p.mergedAt
  {
  }

  // ─── Folded over every slice ───

  function Segment(metric: Metric): MergedPr -> seq<real> {
    match metric
    case CodingTime => Coding
    case PickupTime => Pickup
    case ReviewTime => Review
    case LeadTime => Lead
    case _ => Nothing
  }

  function Nothing(p: MergedPr): seq<real> { [] }

  function GroupSegments(prs: seq<MergedPr>, metric: Metric): Dimensions -> seq<real> {
    (k: Dimensions) => FlatMap(Filter(prs, Keyed(PrDimensions, k)), Segment(metric))
  }

  lemma {:induction false} FlatMapNothing(items: seq<MergedPr>)
    ensures FlatMap(items, Nothing) == []
  {
    if items != [] {
      FlatMapNothing(items[..|items| - 1]);
    }
  }

  /** Of one group's readings, those of one metric. */
  lemma ReadingsOfMetric(prs: seq<MergedPr>, k: Dimensions, metric: Metric)
    ensures Filter(ReadingsAt(prs)(k), Keyed(MetricOf, metric)) == Measured(metric, k, GroupSegments(prs, metric)(k))
  {
    var items := Filter(prs, Keyed(PrDimensions, k));
    FlatMapNothing(items);
    SegmentOfMetric(k, SegmentsOf(items), metric);
  }

  function SamplesOf(s: Segments, metric: Metric): seq<real> {
    match metric
    case CodingTime => s.coding
    case PickupTime => s.pickup
    case ReviewTime => s.review
    case LeadTime => s.lead
    case _ => []
  }

  lemma SegmentOfMetric(k: Dimensions, s: Segments, metric: Metric)
    ensures Kept(ReadingsOf(k, s), Keyed(MetricOf, metric)) == Measured(metric, k, SamplesOf(s, metric))
  {
    MeasuredOfMetric(CodingTime, k, s.coding, metric);
    MeasuredOfMetric(PickupTime, k, s.pickup, metric);
    MeasuredOfMetric(ReviewTime, k, s.review, metric);
    MeasuredOfMetric(LeadTime, k, s.lead, metric);
    KeptOfFour(Measured(CodingTime, k, s.coding), Measured(PickupTime, k, s.pickup),
                 Measured(ReviewTime, k, s.review), Measured(LeadTime, k, s.lead), Keyed(MetricOf, metric));
  }

  lemma KeptOfFour(a: seq<DoraResult>, b: seq<DoraResult>, c: seq<DoraResult>, d: seq<DoraResult>,
                   keep: DoraResult -> bool)
    ensures Kept(b, keep) == Kept(c, keep) == Kept(d, keep) == [] ==> Kept(a + b + c + d, keep) == Kept(a, keep)
    ensures Kept(a, keep) == Kept(c, keep) == Kept(d, keep) == [] ==> Kept(a + b + c + d, keep) == Kept(b, keep)
    ensures Kept(a, keep) == Kept(b, keep) == Kept(d, keep) == [] ==> Kept(a + b + c + d, keep) == Kept(c, keep)
    ensures Kept(a, keep) == Kept(b, keep) == Kept(c, keep) == [] ==> Kept(a + b + c + d, keep) == Kept(d, keep)
  {
    KeptAppend(a, b, keep);
    KeptAppend(a + b, c, keep);
    KeptAppend(a + b + c, d, keep);
    OnlyOnePart(Kept(a, keep), Kept(b, keep), Kept(c, keep), Kept(d, keep), []);
  }

  lemma MeasuredOfMetric(of: Metric, k: Dimensions, samples: seq<real>, metric: Metric)
    ensures Kept(Measured(of, k, samples), Keyed(MetricOf, metric)) == if of == metric then Measured(of, k, samples)
                                                                       else []
  {
    var r := Measured(of, k, samples);
    forall i | 0 <= i < |r| ensures Keyed(MetricOf, metric)(r[i]) == (of == metric) {
      assert MetricOf(r[i]) == of;
    }
    if of == metric {
      KeptAll(r, Keyed(MetricOf, metric));
    } else {
      NoneKept(r, Keyed(MetricOf, metric));
    }
  }

  lemma {:induction false} OneMetricOf(prs: seq<MergedPr>, ks: seq<Dimensions>, metric: Metric)
    ensures Filter(FlatMap(ks, ReadingsAt(prs)), Keyed(MetricOf, metric))
            == FlatMap(ks, MeasuredAt(metric, GroupSegments(prs, metric)))
  {
    if ks != [] {
      var n := |ks| - 1;
      OneMetricOf(prs, ks[..n], metric);
      FilterAppend(FlatMap(ks[..n], ReadingsAt(prs)), ReadingsAt(prs)(ks[n]), Keyed(MetricOf, metric));
      ReadingsOfMetric(prs, ks[n], metric);
    }
  }

  /** Each segment folds into the median over every request of the window that states its dates. */
  lemma FoldedLeadTime(prs: seq<MergedPr>, metric: Metric)
    ensures var all := FlatMap(prs, Segment(metric));
      FoldMetric(Filter(LeadTimes(prs), Keyed(MetricOf, metric)))
      == if all == [] then None else Some(DoraResult(metric, Median(all), Seconds, map[], |all|, None))
  {
    var ks, all := FirstSeen(prs, PrDimensions), FlatMap(prs, Segment(metric));
    OneMetricOf(prs, ks, metric);
    forall v ensures Sum(FlatMap(ks, GroupSegments(prs, metric)), Is(v)) == Sum(all, Is(v)) {
      GroupsHoldSegments(prs, metric, Is(v));
    }
    SameSumsSameElements(FlatMap(ks, GroupSegments(prs, metric)), all);
    FoldOfSlices(metric, ks, GroupSegments(prs, metric), all);
  }

  lemma GroupsHoldSegments(prs: seq<MergedPr>, metric: Metric, w: real -> real)
    ensures Sum(FlatMap(FirstSeen(prs, PrDimensions), GroupSegments(prs, metric)), w)
            == Sum(FlatMap(prs, Segment(metric)), w)
  {
    var ks, each := FirstSeen(prs, PrDimensions), Spread(Segment(metric), w);
    SumFlatMap(ks, GroupSegments(prs, metric), w);
    forall k | k in ks ensures Spread(GroupSegments(prs, metric), w)(k) == GroupWeight(prs, PrDimensions, each)(k) {
      SumFlatMap(Filter(prs, Keyed(PrDimensions, k)), Segment(metric), w);
    }
    SumAgree(ks, Spread(GroupSegments(prs, metric), w), GroupWeight(prs, PrDimensions, each));
    SumOfAllGroups(prs, PrDimensions, each);
    SumFlatMap(prs, Segment(metric), w);
  }
}
