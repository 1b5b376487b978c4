/** `computeOver` of back/src/dora/dora.service.ts: how the engine's parts are wired over one period. */
module DoraService {
  import opened Attribution
  import opened Blame
  import opened Carriers
  import opened DeployTimes
  import opened DoraEvents
  import opened FailureRate
  import opened Folding
  import opened Frequency
  import opened LeadTime
  import opened Lists
  import opened Numbers
  import opened Options
  import opened Restore
  import opened Series
  import opened Sorting

  function DeployedIn(period: Period): Deployment -> bool { (d: Deployment) => Within(d.createdAt, period) }

  function MergedIn(period: Period): MergedPr -> bool { (p: MergedPr) => Within(p.mergedAt, period) }

  function OpenedIn(period: Period): Incident -> bool { (i: Incident) => Within(i.openedAt, period) }

  /** The length of a period in days, of which a frequency is a rate. */
  function DaysBetween(period: Period): (days: real)
    ensures days * (24 * 60 * 60 * 1000) as real == (period.to - period.from) as real
  {
    (period.to - period.from) as real / DAY_MS as real
  }

  /** A period holds the events on either bound and all in between. */
  lemma EventsOfPeriod(period: Period, d: Deployment, pr: MergedPr, i: Incident)
    ensures DeployedIn(period)(d) <==> period.from <= d.createdAt <= period.to
    ensures MergedIn(period)(pr) <==> period.from <= pr.mergedAt <= period.to
    ensures OpenedIn(period)(i) <==> period.from <= i.openedAt <= period.to
  {
  }

  datatype Report = Report(results: seq<DoraResult>, orphans: seq<Dimensions>, mismatched: seq<(string, string)>)

  /** Every reading of a window, metric after metric. */
  function Results(deployments: seq<Deployment>, prs: seq<MergedPr>, incidents: seq<Incident>,
                   source: FailureSource, carriers: Carriers, linked: Linked, days: real): seq<DoraResult>
  {
    Frequencies(deployments, days)
    + Rates(deployments, incidents, source, linked)
    + MttrOf(deployments, incidents, source, linked)
    + LeadTimes(prs)
    + Slices(Landings(prs, carriers))
  }

  /** The report is that of these events, correlated among themselves and with nothing else. */
  ghost predicate Reports(report: Report, deployments: seq<Deployment>, prs: seq<MergedPr>, incidents: seq<Incident>,
                          source: FailureSource, key: Option<string>, days: real, carriers: Carriers, linked: Linked)
  {
    && IsCarriers(carriers, prs, deployments, key) && IsOrdered(carriers, deployments, key)
    && IsLinked(linked, incidents, prs, carriers)
    && report.results == Results(deployments, prs, incidents, source, carriers, linked, days)
    && report.orphans == OrphanDimensions(deployments, incidents, linked)
    && NoDuplicates(report.mismatched)
    && forall pair :: pair in report.mismatched <==> IsMismatch(pair, prs, deployments, key)
  }

  ghost predicate IsReport(report: Report, deployments: seq<Deployment>, prs: seq<MergedPr>, incidents: seq<Incident>,
                           source: FailureSource, key: Option<string>, days: real)
  {
    exists carriers, linked :: Reports(report, deployments, prs, incidents, source, key, days, carriers, linked)
  }

  /** Which deployment carried what, which broke what, and what the component test left with nothing. */
  method Correlate(deployments: seq<Deployment>, prs: seq<MergedPr>, incidents: seq<Incident>, key: Option<string>)
    returns (carriers: Carriers, linked: Linked, mismatched: seq<(string, string)>)
    ensures IsCarriers(carriers, prs, deployments, key) && IsOrdered(carriers, deployments, key)
    ensures IsLinked(linked, incidents, prs, carriers)
    ensures NoDuplicates(mismatched) && forall pair :: pair in mismatched <==> IsMismatch(pair, prs, deployments, key)
  {
    carriers := CarriedBy(prs, deployments, key);
    linked := IncidentsByDeployment(incidents, prs, carriers);
    var byRepoAndTime := carriers;
    if Designated(key) {
      byRepoAndTime := CarriedBy(prs, deployments, None);
    }
    mismatched := ComponentMismatches(prs, carriers, byRepoAndTime, key);
    MismatchesNamed(mismatched, prs, carriers, byRepoAndTime, deployments, key);
  }

  method Compute(deployments: seq<Deployment>, prs: seq<MergedPr>, incidents: seq<Incident>,
                 source: FailureSource, key: Option<string>, days: real)
    returns (report: Report)
    ensures IsReport(report, deployments, prs, incidents, source, key, days)
  {
    var carriers, linked, mismatched := Correlate(deployments, prs, incidents, key);
    var leadTimes := LeadTimeBreakdown(prs);
    var deployTimes := DeployTimeOf(prs, carriers);
    report := Report(
      Frequencies(deployments, days)
      + Rates(deployments, incidents, source, linked)
      + MttrOf(deployments, incidents, source, linked)
      + leadTimes
      + deployTimes,
      OrphanDimensions(deployments, incidents, linked),
      mismatched);
    assert Reports(report, deployments, prs, incidents, source, key, days, carriers, linked);
  }

  /** Every reading is taken over the events of the period alone. */
  method ComputeOver(deploymentEvents: seq<Deployment>, prEvents: seq<MergedPr>, incidentEvents: seq<Incident>,
                     period: Period, source: FailureSource, key: Option<string>)
    returns (report: Report)
    ensures IsReport(report, Filter(deploymentEvents, DeployedIn(period)), Filter(prEvents, MergedIn(period)),
                     Filter(incidentEvents, OpenedIn(period)), source, key, DaysBetween(period))
  {
    report := Compute(
      Filter(deploymentEvents, DeployedIn(period)), Filter(prEvents, MergedIn(period)),
      Filter(incidentEvents, OpenedIn(period)), source, key, DaysBetween(period));
  }

  // ─── What the readings of a window fold into ───

  /** Every reading of the list is of this metric. */
  predicate AllOf(results: seq<DoraResult>, metric: Metric) {
    forall r :: r in results ==> MetricOf(r) == metric
  }

  /** One metric's readings, taken out of the whole list. */
  function Of(results: seq<DoraResult>, metric: Metric): seq<DoraResult> { Kept(results, Keyed(MetricOf, metric)) }

  lemma {:induction false} OfItsOwn(results: seq<DoraResult>, metric: Metric, wanted: Metric)
    requires AllOf(results, metric)
    ensures Of(results, wanted) == if wanted == metric then results else []
  {
    if results != [] {
      var init, last := results[..|results| - 1], results[|results| - 1];
      assert results == init + [last];
      OfItsOwn(init, metric, wanted);
      KeptSnoc(init, last, Keyed(MetricOf, wanted));
      assert Keyed(MetricOf, wanted)(last) == (MetricOf(last) == wanted);
    }
  }

  lemma EachOfItsMetric(deployments: seq<Deployment>, prs: seq<MergedPr>, incidents: seq<Incident>,
                        source: FailureSource, carriers: Carriers, linked: Linked, days: real)
    ensures AllOf(Frequencies(deployments, days), DeploymentFrequency)
    ensures AllOf(Rates(deployments, incidents, source, linked), ChangeFailureRate)
    ensures AllOf(MttrOf(deployments, incidents, source, linked), Mttr)
    ensures AllOf(Slices(Landings(prs, carriers)), DeployTime)
  {
    SlicesKeepEverything(Mttr, Restore.Keys(deployments, incidents, source, linked),
                         MttrSamples(deployments, incidents, source, linked));
    var landings := Landings(prs, carriers);
    SlicesKeepEverything(DeployTime, FirstSeen(landings, LandingDimensions),
                         GroupValues(landings, LandingDimensions, LandingTime));
  }

  predicate IsLeadTime(metric: Metric) {
    metric.CodingTime? || metric.PickupTime? || metric.ReviewTime? || metric.LeadTime?
  }

  /** The part of the list that reads one metric. */
  function Part(deployments: seq<Deployment>, prs: seq<MergedPr>, incidents: seq<Incident>,
                source: FailureSource, carriers: Carriers, linked: Linked, days: real, metric: Metric): seq<DoraResult>
  {
    match metric
    case DeploymentFrequency => Frequencies(deployments, days)
    case ChangeFailureRate => Rates(deployments, incidents, source, linked)
    case Mttr => MttrOf(deployments, incidents, source, linked)
    case DeployTime => Slices(Landings(prs, carriers))
    case _ => Of(LeadTimes(prs), metric)
  }

  lemma PartsOfResults(deployments: seq<Deployment>, prs: seq<MergedPr>, incidents: seq<Incident>,
                       source: FailureSource, carriers: Carriers, linked: Linked, days: real, metric: Metric)
    ensures Of(Results(deployments, prs, incidents, source, carriers, linked, days), metric)
         == Part(deployments, prs, incidents, source, carriers, linked, days, metric)
  {
    EachTakenOut(deployments, prs, incidents, source, carriers, linked, days, metric);
    if !IsLeadTime(metric) {
      NoLeadTimeIn(prs, metric);
    }
    TakenApart(Frequencies(deployments, days), Rates(deployments, incidents, source, linked),
               MttrOf(deployments, incidents, source, linked), LeadTimes(prs), Slices(Landings(prs, carriers)), metric);
  }

  lemma EachTakenOut(deployments: seq<Deployment>, prs: seq<MergedPr>, incidents: seq<Incident>,
                     source: FailureSource, carriers: Carriers, linked: Linked, days: real, metric: Metric)
    ensures var f := Frequencies(deployments, days); Of(f, metric) == if metric.DeploymentFrequency? then f else []
    ensures var r := Rates(deployments, incidents, source, linked);
      Of(r, metric) == if metric.ChangeFailureRate? then r else []
    ensures var m := MttrOf(deployments, incidents, source, linked); Of(m, metric) == if metric.Mttr? then m else []
    ensures var d := Slices(Landings(prs, carriers)); Of(d, metric) == if metric.DeployTime? then d else []
  {
    EachOfItsMetric(deployments, prs, incidents, source, carriers, linked, days);
    OfItsOwn(Frequencies(deployments, days), DeploymentFrequency, metric);
    OfItsOwn(Rates(deployments, incidents, source, linked), ChangeFailureRate, metric);
    OfItsOwn(MttrOf(deployments, incidents, source, linked), Mttr, metric);
    OfItsOwn(Slices(Landings(prs, carriers)), DeployTime, metric);
  }

  /** Five parts put together, each of its own metric, give each back. */
  lemma TakenApart(f: seq<DoraResult>, r: seq<DoraResult>, m: seq<DoraResult>, l: seq<DoraResult>, d: seq<DoraResult>,
                   metric: Metric)
    requires Of(f, metric) == if metric.DeploymentFrequency? then f else []
    requires Of(r, metric) == if metric.ChangeFailureRate? then r else []
    requires Of(m, metric) == if metric.Mttr? then m else []
    requires Of(d, metric) == if metric.DeployTime? then d else []
    requires !IsLeadTime(metric) ==> Of(l, metric) == []
    ensures Of(f + r + m + l + d, metric)
         == match metric
            case DeploymentFrequency => f
            case ChangeFailureRate => r
            case Mttr => m
            case DeployTime => d
            case _ => Of(l, metric)
  {
    var keep := Keyed(MetricOf, metric);
    KeptOfFive(f, r, m, l, d, keep);
    OnlyOnePart(Kept(f, keep), Kept(r, keep), Kept(m, keep), Kept(l, keep), Kept(d, keep));
    if IsLeadTime(metric) {
      assert Kept(f, keep) == Kept(r, keep) == Kept(m, keep) == Kept(d, keep) == [];
    }
  }

  lemma KeptOfFive<T>(a: seq<T>, b: seq<T>, c: seq<T>, d: seq<T>, e: seq<T>, keep: T -> bool)
    ensures Kept(a + b + c + d + e, keep) == Kept(a, keep) + Kept(b, keep) + Kept(c, keep) + Kept(d, keep)
                                             + Kept(e, keep)
  {
    KeptAppend(a, b, keep);
    KeptAppend(a + b, c, keep);
    KeptAppend(a + b + c, d, keep);
    KeptAppend(a + b + c + d, e, keep);
  }

  lemma NoLeadTimeIn(prs: seq<MergedPr>, metric: Metric)
    requires !IsLeadTime(metric)
    ensures Of(LeadTimes(prs), metric) == []
  {
    OneMetricOf(prs, FirstSeen(prs, PrDimensions), metric);
    NothingMeasured(prs, FirstSeen(prs, PrDimensions), metric);
  }

  lemma {:induction false} NothingMeasured(prs: seq<MergedPr>, ks: seq<Dimensions>, metric: Metric)
    requires !IsLeadTime(metric)
    ensures FlatMap(ks, MeasuredAt(metric, GroupSegments(prs, metric))) == []
  {
    if ks != [] {
      var k := ks[|ks| - 1];
      NothingMeasured(prs, ks[..|ks| - 1], metric);
      FlatMapNothing(Filter(prs, Keyed(PrDimensions, k)));
      assert GroupSegments(prs, metric)(k) == [];
    }
  }

  function MedianOf(metric: Metric, all: seq<real>): Option<DoraResult> {
    if all == [] then None else Some(DoraResult(metric, Median(all), Seconds, map[], |all|, None))
  }

  /** What one metric reads over a whole window, with no slices to it. */
  function Overall(deployments: seq<Deployment>, prs: seq<MergedPr>, incidents: seq<Incident>,
                   source: FailureSource, carriers: Carriers, linked: Linked, days: real,
                     metric: Metric): Option<DoraResult>
  {
    match metric
    case DeploymentFrequency =>
      var n := |Successes(deployments)|;
      if days <= 0.0 || n == 0 then None else Some(DoraResult(metric, n as real / days, PerDay, map[], n, None))
    case ChangeFailureRate =>
      var n := |Known(deployments)|;
      if n == 0 then None
      else Some(DoraResult(metric, TotalFailures(deployments, incidents, source, linked) as real / n as real, Ratio,
                           map[], n, None))
    case Mttr => MedianOf(metric, AllRestores(Deploys(deployments, source), Read(incidents, source, linked)))
    case DeployTime => MedianOf(metric, Map(Landings(prs, carriers), LandingTime))
    case _ => MedianOf(metric, FlatMap(prs, Segment(metric)))
  }

  lemma PartFolds(deployments: seq<Deployment>, prs: seq<MergedPr>, incidents: seq<Incident>,
                  source: FailureSource, key: Option<string>, carriers: Carriers, linked: Linked, days: real,
                    metric: Metric)
    requires Correlated(linked, incidents, prs, carriers, deployments, key)
    ensures FoldMetric(Part(deployments, prs, incidents, source, carriers, linked, days, metric))
         == Overall(deployments, prs, incidents, source, carriers, linked, days, metric)
  {
    if metric.DeploymentFrequency? {
      FoldedFrequency(deployments, days);
    } else if metric.ChangeFailureRate? {
      FoldedRateIsPooled(linked, incidents, prs, carriers, deployments, key, source);
    } else {
      DurationFolds(deployments, prs, incidents, source, key, carriers, linked, days, metric);
    }
  }

  lemma DurationFolds(deployments: seq<Deployment>, prs: seq<MergedPr>, incidents: seq<Incident>,
                      source: FailureSource, key: Option<string>, carriers: Carriers, linked: Linked, days: real,
                        metric: Metric)
    requires Correlated(linked, incidents, prs, carriers, deployments, key)
    requires !metric.DeploymentFrequency? && !metric.ChangeFailureRate?
    ensures FoldMetric(Part(deployments, prs, incidents, source, carriers, linked, days, metric))
         == Overall(deployments, prs, incidents, source, carriers, linked, days, metric)
  {
    match metric
    case Mttr => FoldedMttr(linked, incidents, prs, carriers, deployments, key, source);
    case DeployTime => FoldedDeployTime(prs, carriers, Landings(prs, carriers));
    case _ => FoldedLeadTime(prs, metric);
  }

  /**
   * The overall reading of each metric over a window, whatever the dimensions:
   * successes over days, failures over known deployments, and medians of every
   * restore, lead-time segment and landing. Only the orphans named are missing.
   */
  lemma OverallReadings(report: Report, deployments: seq<Deployment>, prs: seq<MergedPr>, incidents: seq<Incident>,
                        source: FailureSource, key: Option<string>, days: real, carriers: Carriers, linked: Linked,
                          metric: Metric)
    requires NoDuplicates(deployments) && NoDuplicates(incidents)
    requires Reports(report, deployments, prs, incidents, source, key, days, carriers, linked)
    ensures FoldMetric(Of(report.results, metric)) == Overall(deployments, prs, incidents, source, carriers, linked,
                                                              days, metric)
  {
    PartsOfResults(deployments, prs, incidents, source, carriers, linked, days, metric);
    PartFolds(deployments, prs, incidents, source, key, carriers, linked, days, metric);
  }

  /** The same over a period: events being objects of their own, those in it are distinct too. */
  lemma OverallOfPeriod(report: Report, deploymentEvents: seq<Deployment>, prs: seq<MergedPr>,
                        incidentEvents: seq<Incident>,
                        period: Period, source: FailureSource, key: Option<string>, carriers: Carriers, linked: Linked,
                          metric: Metric)
    requires NoDuplicates(deploymentEvents) && NoDuplicates(incidentEvents)
    requires Reports(report, Filter(deploymentEvents, DeployedIn(period)), prs,
                     Filter(incidentEvents, OpenedIn(period)),
                     source, key, DaysBetween(period), carriers, linked)
    ensures FoldMetric(Of(report.results, metric))
         == Overall(Filter(deploymentEvents, DeployedIn(period)), prs, Filter(incidentEvents, OpenedIn(period)),
                    source, carriers, linked, DaysBetween(period), metric)
  {
    FilterNoDuplicates(deploymentEvents, DeployedIn(period));
    FilterNoDuplicates(incidentEvents, OpenedIn(period));
    OverallReadings(report, Filter(deploymentEvents, DeployedIn(period)), prs, Filter(incidentEvents, OpenedIn(period)),
                    source, key, DaysBetween(period), carriers, linked, metric);
  }

  lemma MismatchesNamed(pairs: seq<(string, string)>, prs: seq<MergedPr>, carriers: Carriers, plain: Carriers,
                        deployments: seq<Deployment>, key: Option<string>)
    requires IsCarriers(carriers, prs, deployments, key)
    requires Designated(key) ==> IsCarriers(plain, prs, deployments, None)
    requires forall pair :: pair in pairs <==> LeftOut(pair, prs, carriers, plain, key)
    ensures forall pair :: pair in pairs <==> IsMismatch(pair, prs, deployments, key)
  {
    forall pair ensures LeftOut(pair, prs, carriers, plain, key) <==> IsMismatch(pair, prs, deployments, key) {
      if Designated(key) {
        LeftOutIsMismatched(pair, prs, carriers, plain, deployments, key);
      }
    }
  }
}
