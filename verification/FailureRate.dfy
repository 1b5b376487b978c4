/** How the incidents of a window are shared out between its slices. */
module Attribution {
  import opened Blame
  import opened Carriers
  import opened DoraEvents
  import opened Lists
  import opened Options
  import opened Sums

  datatype FailureSource = Pipelines | Incidents | Both

  function AttributedIn(linked: Linked): set<Incident> {
    set d, i | d in linked && i in linked[d] :: i
  }

  function Unattributed(incidents: seq<Incident>, linked: Linked): seq<Incident> {
    Filter(incidents, Not(Among(AttributedIn(linked))))
  }

  function Attributed(incidents: seq<Incident>, linked: Linked): seq<Incident> {
    Filter(incidents, Among(AttributedIn(linked)))
  }

  /** The incidents of one slice: those traced to its deployments, then its untraced own. */
  function RelatedTo(items: seq<Deployment>, unattributed: seq<Incident>, linked: Linked): Dimensions -> seq<Incident> {
    (k: Dimensions) =>
      FlatMap(Filter(items, Keyed(DeploymentDimensions, k)), LinkedTo(linked))
      + Filter(unattributed, Keyed(IncidentDimensions, k))
  }

  lemma AttributedIff(linked: Linked, incidents: seq<Incident>, prs: seq<MergedPr>, carriers: Carriers)
    requires IsLinked(linked, incidents, prs, carriers)
    ensures forall i :: i in AttributedIn(linked) <==> i in incidents && Culprit(prs, carriers)(i).Some?
  {
    forall i ensures i in AttributedIn(linked) <==> i in incidents && Culprit(prs, carriers)(i).Some? {
      forall d ensures i in LinkedTo(linked)(d) <==> i in incidents && Culprit(prs, carriers)(i) == Some(d) {
        InBucketIff(linked, incidents, prs, carriers, d, i);
      }
      if i in incidents && Culprit(prs, carriers)(i).Some? {
        assert i in LinkedTo(linked)(Culprit(prs, carriers)(i).value);
      }
      if i in AttributedIn(linked) {
        var d :| d in linked && i in linked[d];
        assert i in LinkedTo(linked)(d);
      }
    }
  }

  /** Every culprit is a success among the deployments the carriers were computed from. */
  lemma CulpritsAreSuccesses(linked: Linked, incidents: seq<Incident>, prs: seq<MergedPr>, carriers: Carriers,
                             deployments: seq<Deployment>, key: Option<string>)
    requires IsLinked(linked, incidents, prs, carriers) && IsCarriers(carriers, prs, deployments, key)
    ensures forall i :: i in incidents && Culprit(prs, carriers)(i).Some? ==>
      Culprit(prs, carriers)(i).value in deployments && Culprit(prs, carriers)(i).value.status.Success?
  {
    forall i | i in incidents && Culprit(prs, carriers)(i).Some?
      ensures Culprit(prs, carriers)(i).value in deployments && Culprit(prs, carriers)(i).value.status.Success?
    {
      var d := Culprit(prs, carriers)(i).value;
      InBucketIff(linked, incidents, prs, carriers, d, i);
      BlameIsCausalAndUnique(linked, incidents, prs, carriers, deployments, key, d, i);
    }
  }

  function Present<T>(x: T): Option<T> { Some(x) }

  /** Deployments that include every culprit carry each attributed incident once. */
  lemma {:induction false} LinkedSum(items: seq<Deployment>, linked: Linked, incidents: seq<Incident>,
                                     prs: seq<MergedPr>, carriers: Carriers, w: Incident -> real)
    requires NoDuplicates(items) && NoDuplicates(incidents)
    requires IsLinked(linked, incidents, prs, carriers)
    requires forall i :: i in incidents && Culprit(prs, carriers)(i).Some? ==> Culprit(prs, carriers)(i).value in items
    ensures Sum(items, Spread(LinkedTo(linked), w)) == Sum(Attributed(incidents, linked), w)
  {
    var culprit := Culprit(prs, carriers);
    var ks := Map(items, Present);
    SumByGroups(ks, incidents, culprit, w);
    SumMap(items, Present, GroupWeight(incidents, culprit, w));
    forall d | d in items
      ensures Spread(LinkedTo(linked), w)(d) == After(Present, GroupWeight(incidents, culprit, w))(d)
    {
      assert LinkedTo(linked)(d) == Bucket(incidents, prs, carriers, d);
      FilterNoDuplicates(incidents, Keyed(culprit, Some(d)));
      FirstSeenOfDistinct(Filter(incidents, Keyed(culprit, Some(d))));
    }
    SumAgree(items, Spread(LinkedTo(linked), w), After(Present, GroupWeight(incidents, culprit, w)));
    AttributedIff(linked, incidents, prs, carriers);
    forall i | i in incidents ensures KeyIn(culprit, ks)(i) == Among(AttributedIn(linked))(i) {
      if culprit(i).Some? {
        var n :| 0 <= n < |items| && items[n] == culprit(i).value;
        assert ks[n] == culprit(i);
      }
    }
    FilterAgree(incidents, KeyIn(culprit, ks), Among(AttributedIn(linked)));
  }

  /** What the slices of given keys hold together, traced and untraced. */
  lemma RelatedSum(ks: seq<Dimensions>, items: seq<Deployment>, unattributed: seq<Incident>, linked: Linked,
                   w: Incident -> real)
    requires NoDuplicates(ks)
    ensures Sum(FlatMap(ks, RelatedTo(items, unattributed, linked)), w)
         == Sum(Filter(items, KeyIn(DeploymentDimensions, ks)), Spread(LinkedTo(linked), w))
          + Sum(Filter(unattributed, KeyIn(IncidentDimensions, ks)), w)
  {
    var related := RelatedTo(items, unattributed, linked);
    var traced := GroupWeight(items, DeploymentDimensions, Spread(LinkedTo(linked), w));
    var own := GroupWeight(unattributed, IncidentDimensions, w);
    SumFlatMap(ks, related, w);
    forall k | k in ks ensures Spread(related, w)(k) == Plus(traced, own)(k) {
      var here := Filter(items, Keyed(DeploymentDimensions, k));
      SumAppend(FlatMap(here, LinkedTo(linked)), Filter(unattributed, Keyed(IncidentDimensions, k)), w);
      SumFlatMap(here, LinkedTo(linked), w);
    }
    SumAgree(ks, Spread(related, w), Plus(traced, own));
    SumPlus(ks, traced, own);
    SumByGroups(ks, items, DeploymentDimensions, Spread(LinkedTo(linked), w));
    SumByGroups(ks, unattributed, IncidentDimensions, w);
  }
}

/** `changeFailureRate` and `orphanIncidentDimensions` of back/src/dora/dora-metrics.ts. */
module FailureRate {
  import opened Attribution
  import opened Blame
  import opened Carriers
  import opened DoraEvents
  import opened Folding
  import opened Lists
  import opened Options
  import opened Sums

  predicate IsKnown(d: Deployment) { !d.status.Other? }

  predicate IsFailed(d: Deployment) { d.status.Failed? }

  function Known(deployments: seq<Deployment>): seq<Deployment> { Filter(deployments, IsKnown) }

  function FailedDeploys(known: seq<Deployment>, source: FailureSource): Dimensions -> seq<Deployment> {
    (k: Dimensions) => if source.Incidents? then [] else Filter(Filter(known, Keyed(DeploymentDimensions, k)), IsFailed)
  }

  function Related(known: seq<Deployment>, incidents: seq<Incident>, source: FailureSource,
                   linked: Linked): Dimensions -> seq<Incident> {
    (k: Dimensions) => if source.Pipelines? then [] else RelatedTo(known, Unattributed(incidents, linked), linked)(k)
  }

  function RatioOf(failures: nat, size: nat): real {
    if size > 0 then failures as real / size as real else 0.0
  }

  function Failures(known: seq<Deployment>, incidents: seq<Incident>, source: FailureSource, linked: Linked,
                    k: Dimensions): nat {
    |FailedDeploys(known, source)(k)| + |Related(known, incidents, source, linked)(k)|
  }

  function Rate(known: seq<Deployment>, incidents: seq<Incident>, source: FailureSource, linked: Linked,
                k: Dimensions): DoraResult {
    var size := |Filter(known, Keyed(DeploymentDimensions, k))|;
    DoraResult(ChangeFailureRate, RatioOf(Failures(known, incidents, source, linked, k), size), Ratio, k, size, None)
  }

  function RateAt(known: seq<Deployment>, incidents: seq<Incident>, source: FailureSource,
                  linked: Linked): Dimensions -> DoraResult {
    (k: Dimensions) => Rate(known, incidents, source, linked, k)
  }

  function Rates(deployments: seq<Deployment>, incidents: seq<Incident>, source: FailureSource,
                 linked: Linked): seq<DoraResult> {
    var known := Known(deployments);
    Map(FirstSeen(known, DeploymentDimensions), RateAt(known, incidents, source, linked))
  }

  function OrphanDimensions(deployments: seq<Deployment>, incidents: seq<Incident>, linked: Linked): seq<Dimensions> {
    var deployed := FirstSeen(Known(deployments), DeploymentDimensions);
    Filter(FirstSeen(Unattributed(incidents, linked), IncidentDimensions), Not(Among(set k | k in deployed)))
  }

  /** The incidents lying in the slices the caller warns about. */
  function Orphans(deployments: seq<Deployment>, incidents: seq<Incident>, linked: Linked): seq<Incident> {
    Filter(Unattributed(incidents, linked), KeyIn(IncidentDimensions, OrphanDimensions(deployments, incidents, linked)))
  }

  /** The links a window's own events produce: `computeOver` builds them so. */
  ghost predicate Correlated(linked: Linked, incidents: seq<Incident>, prs: seq<MergedPr>, carriers: Carriers,
                             deployments: seq<Deployment>, key: Option<string>)
  {
    && NoDuplicates(deployments) && NoDuplicates(incidents)
    && IsCarriers(carriers, prs, deployments, key)
    && IsLinked(linked, incidents, prs, carriers)
  }

  /**
   * Incident conservation. Whatever incidents are weighed by, those counted over
   * all slices and those in the orphan slices add up to the incidents given: none
   * is counted twice, none is lost without being named.
   */
  lemma {:induction false} IncidentsConserved(linked: Linked, incidents: seq<Incident>, prs: seq<MergedPr>,
                                              carriers: Carriers,
                           deployments: seq<Deployment>, key: Option<string>, w: Incident -> real)
    requires Correlated(linked, incidents, prs, carriers, deployments, key)
    ensures var known := Known(deployments);
      Sum(FlatMap(FirstSeen(known, DeploymentDimensions), RelatedTo(known, Unattributed(incidents, linked), linked)), w)
      + Sum(Orphans(deployments, incidents, linked), w)
      == Sum(incidents, w)
  {
    var known, un := Known(deployments), Unattributed(incidents, linked);
    var ks := FirstSeen(known, DeploymentDimensions);
    RelatedSum(ks, known, un, linked, w);
    FilterAll(known, KeyIn(DeploymentDimensions, ks));
    FilterNoDuplicates(deployments, IsKnown);
    CulpritsAreSuccesses(linked, incidents, prs, carriers, deployments, key);
    LinkedSum(known, linked, incidents, prs, carriers, w);
    SumSplit(incidents, Among(AttributedIn(linked)), w);
    SumSplit(un, KeyIn(IncidentDimensions, ks), w);
    OrphansAreUndeployed(deployments, incidents, linked);
  }

  /** The orphans are exactly the untraced incidents of a slice nothing was deployed to. */
  lemma {:induction false} OrphansAreUndeployed(deployments: seq<Deployment>, incidents: seq<Incident>, linked: Linked)
    ensures Orphans(deployments, incidents, linked)
         == Filter(Unattributed(incidents, linked), Not(KeyIn(IncidentDimensions,
                                                              FirstSeen(Known(deployments), DeploymentDimensions))))
  {
    FilterAgree(Unattributed(incidents, linked),
                KeyIn(IncidentDimensions, OrphanDimensions(deployments, incidents, linked)),
                Not(KeyIn(IncidentDimensions, FirstSeen(Known(deployments), DeploymentDimensions))));
  }

  /** As multisets: each incident once, in one slice or among the orphans. */
  lemma {:induction false} EachIncidentOnce(linked: Linked, incidents: seq<Incident>, prs: seq<MergedPr>,
                                            carriers: Carriers,
                         deployments: seq<Deployment>, key: Option<string>)
    requires Correlated(linked, incidents, prs, carriers, deployments, key)
    ensures var known := Known(deployments);
      multiset(FlatMap(FirstSeen(known, DeploymentDimensions),
                       RelatedTo(known, Unattributed(incidents, linked), linked))
               + Orphans(deployments, incidents, linked)) == multiset(incidents)
  {
    var known := Known(deployments);
    var counted := FlatMap(FirstSeen(known, DeploymentDimensions),
                           RelatedTo(known, Unattributed(incidents, linked), linked));
    var orphans := Orphans(deployments, incidents, linked);
    forall i ensures Sum(counted + orphans, Is(i)) == Sum(incidents, Is(i)) {
      SumAppend(counted, orphans, Is(i));
      IncidentsConserved(linked, incidents, prs, carriers, deployments, key, Is(i));
    }
    SameSumsSameElements(counted + orphans, incidents);
  }

  // ─── The rates themselves ───

  /** The failures a slice reports are its rate times its size. */
  lemma {:induction false} SliceFailures(known: seq<Deployment>, incidents: seq<Incident>, source: FailureSource,
                                         linked: Linked, k: Dimensions)
    requires k in FirstSeen(known, DeploymentDimensions)
    ensures Weighted(RateAt(known, incidents, source, linked)(k))
         == Sum(FailedDeploys(known, source)(k), One) + Sum(Related(known, incidents, source, linked)(k), One)
    ensures RateAt(known, incidents, source, linked)(k).sampleSize > 0
  {
    var size := |Filter(known, Keyed(DeploymentDimensions, k))|;
    assert size > 0 by {
      var d :| d in known && DeploymentDimensions(d) == k;
      assert d in Filter(known, Keyed(DeploymentDimensions, k));
    }
    WeighedBack(Rate(known, incidents, source, linked, k), Failures(known, incidents, source, linked, k));
    SumOfOnes(FailedDeploys(known, source)(k));
    SumOfOnes(Related(known, incidents, source, linked)(k));
  }

  lemma WeighedBack(r: DoraResult, failures: nat)
    requires r.sampleSize > 0 && r.value == RatioOf(failures, r.sampleSize)
    ensures Weighted(r) == failures as real
  {
    var f, n := failures as real, r.sampleSize as real;
    assert f / n * n == f;
  }

  function FailureWeight(d: Deployment): real { if IsFailed(d) then 1.0 else 0.0 }

  lemma {:induction false} FailuresCounted(items: seq<Deployment>)
    ensures Sum(Filter(items, IsFailed), One) == Sum(items, FailureWeight)
  {
    if items != [] {
      var n := |items| - 1;
      FailuresCounted(items[..n]);
      assert items == items[..n] + [items[n]];
      FilterSnoc(items[..n], items[n], IsFailed);
      SumAppend(Filter(items[..n], IsFailed), [items[n]], One);
      assert Sum([items[n]], One) == 1.0;
    }
  }

  lemma FailedConserved(deployments: seq<Deployment>, source: FailureSource)
    ensures var known := Known(deployments);
      Sum(FlatMap(FirstSeen(known, DeploymentDimensions), FailedDeploys(known, source)), One)
      == if source.Incidents? then 0.0 else |Filter(deployments, IsFailed)| as real
  {
    var known := Known(deployments);
    var ks := FirstSeen(known, DeploymentDimensions);
    SumFlatMap(ks, FailedDeploys(known, source), One);
    if source.Incidents? {
      SumAgree(ks, Spread(FailedDeploys(known, source), One), Zero());
      SumOfZero(ks);
    } else {
      forall k | k in ks
        ensures Spread(FailedDeploys(known, source), One)(k)
                == GroupWeight(known, DeploymentDimensions, FailureWeight)(k)
      {
        FailuresCounted(Filter(known, Keyed(DeploymentDimensions, k)));
      }
      SumAgree(ks, Spread(FailedDeploys(known, source), One), GroupWeight(known, DeploymentDimensions, FailureWeight));
      SumOfAllGroups(known, DeploymentDimensions, FailureWeight);
      FailuresCounted(known);
      FilterTwice(deployments, IsKnown, IsFailed);
      SumOfOnes(Filter(deployments, IsFailed));
    }
  }

  /** What the slices report in all: failed deployments where they count, and incidents but the orphans. */
  function TotalFailures(deployments: seq<Deployment>, incidents: seq<Incident>, source: FailureSource,
                         linked: Linked): int {
    (if source.Incidents? then 0 else |Filter(deployments, IsFailed)|)
    + (if source.Pipelines? then 0 else |incidents| - |Orphans(deployments, incidents, linked)|)
  }

  lemma FailuresConserved(linked: Linked, incidents: seq<Incident>, prs: seq<MergedPr>, carriers: Carriers,
                          deployments: seq<Deployment>, key: Option<string>, source: FailureSource)
    requires Correlated(linked, incidents, prs, carriers, deployments, key)
    ensures Sum(Rates(deployments, incidents, source, linked), Weighted)
         == TotalFailures(deployments, incidents, source, linked) as real
  {
    SplitFailures(deployments, incidents, source, linked);
    FailedConserved(deployments, source);
    RelatedConserved(linked, incidents, prs, carriers, deployments, key, source);
  }

  /** The reported failures are the failed deployments of the slices, then their incidents. */
  lemma {:induction false} SplitFailures(deployments: seq<Deployment>, incidents: seq<Incident>, source: FailureSource,
                                         linked: Linked)
    ensures var known := Known(deployments);
      var ks := FirstSeen(known, DeploymentDimensions);
      Sum(Rates(deployments, incidents, source, linked), Weighted)
      == Sum(FlatMap(ks, FailedDeploys(known, source)), One)
         + Sum(FlatMap(ks, Related(known, incidents, source, linked)), One)
  {
    var known := Known(deployments);
    var ks := FirstSeen(known, DeploymentDimensions);
    var failed, related := FailedDeploys(known, source), Related(known, incidents, source, linked);
    var rate := RateAt(known, incidents, source, linked);
    SumMap(ks, rate, Weighted);
    forall k | k in ks ensures After(rate, Weighted)(k) == Plus(Spread(failed, One), Spread(related, One))(k) {
      SliceFailures(known, incidents, source, linked, k);
    }
    SumAgree(ks, After(rate, Weighted), Plus(Spread(failed, One), Spread(related, One)));
    SumPlus(ks, Spread(failed, One), Spread(related, One));
    SumFlatMap(ks, failed, One);
    SumFlatMap(ks, related, One);
  }

  lemma RelatedConserved(linked: Linked, incidents: seq<Incident>, prs: seq<MergedPr>, carriers: Carriers,
                         deployments: seq<Deployment>, key: Option<string>, source: FailureSource)
    requires Correlated(linked, incidents, prs, carriers, deployments, key)
    ensures var known := Known(deployments);
      Sum(FlatMap(FirstSeen(known, DeploymentDimensions), Related(known, incidents, source, linked)), One)
      == if source.Pipelines? then 0.0 else (|incidents| - |Orphans(deployments, incidents, linked)|) as real
  {
    var known := Known(deployments);
    var ks := FirstSeen(known, DeploymentDimensions);
    var related := Related(known, incidents, source, linked);
    if source.Pipelines? {
      SumFlatMap(ks, related, One);
      SumAgree(ks, Spread(related, One), Zero());
      SumOfZero(ks);
    } else {
      FlatMapAgree(ks, related, RelatedTo(known, Unattributed(incidents, linked), linked));
      IncidentsConserved(linked, incidents, prs, carriers, deployments, key, One);
      SumOfOnes(incidents);
      SumOfOnes(Orphans(deployments, incidents, linked));
    }
  }

  /** The sizes add up to the known deployments. */
  lemma {:induction false} SizesConserved(deployments: seq<Deployment>, incidents: seq<Incident>, source: FailureSource,
                                          linked: Linked)
    ensures TotalSize(Rates(deployments, incidents, source, linked)) == |Known(deployments)|
  {
    var known := Known(deployments);
    var ks := FirstSeen(known, DeploymentDimensions);
    TotalSizeIsSum(Rates(deployments, incidents, source, linked));
    SumMap(ks, RateAt(known, incidents, source, linked), SizeOf);
    forall k | k in ks
      ensures After(RateAt(known, incidents, source, linked), SizeOf)(k)
              == GroupWeight(known, DeploymentDimensions, One)(k)
    {
      SumOfOnes(Filter(known, Keyed(DeploymentDimensions, k)));
    }
    SumAgree(ks, After(RateAt(known, incidents, source, linked), SizeOf),
             GroupWeight(known, DeploymentDimensions, One));
    SumOfAllGroups(known, DeploymentDimensions, One);
    SumOfOnes(known);
  }

  /**
   * Folding every slice of the failure rate gives total failures over total known
   * deployments, exactly, however the dimensions cut the deployments up.
   */
  lemma {:induction false} FoldedRateIsPooled(linked: Linked, incidents: seq<Incident>, prs: seq<MergedPr>,
                                              carriers: Carriers,
                           deployments: seq<Deployment>, key: Option<string>, source: FailureSource)
    requires Correlated(linked, incidents, prs, carriers, deployments, key)
    ensures FoldMetric(Rates(deployments, incidents, source, linked))
         == if Known(deployments) == [] then None
            else Some(DoraResult(
              ChangeFailureRate,
              TotalFailures(deployments, incidents, source, linked) as real / |Known(deployments)| as real,
              Ratio, map[], |Known(deployments)|, None))
  {
    var results, known := Rates(deployments, incidents, source, linked), Known(deployments);
    FailuresConserved(linked, incidents, prs, carriers, deployments, key, source);
    SizesConserved(deployments, incidents, source, linked);
    if known != [] {
      assert known[0] in known;
      assert results[0] == Rate(known, incidents, source, linked, FirstSeen(known, DeploymentDimensions)[0]);
      FoldOfRatios(results, TotalFailures(deployments, incidents, source, linked) as real);
    }
  }

  lemma FoldOfRatios(results: seq<DoraResult>, failures: real)
    requires results != [] && results[0].unit.Ratio? && TotalSize(results) > 0
    requires Sum(results, Weighted) == failures
    ensures FoldMetric(results)
         == Some(DoraResult(results[0].metric, failures / TotalSize(results) as real, Ratio, map[], TotalSize(results),
                            None))
  {
  }
}
