/** What each reading of the failure rate and of the frequency says, read off the given events. */
module RateReadings {
  import opened Attribution
  import opened Blame
  import opened Carriers
  import opened Distinct
  import opened DoraEvents
  import opened FailureRate
  import opened Folding
  import opened Frequency
  import opened Lists
  import opened Options

  lemma DeploymentsHere(items: seq<Deployment>, k: Dimensions)
    ensures forall d :: d in Filter(items, Keyed(DeploymentDimensions, k)) <==> d in items && d.dimensions == k
  {
    forall d ensures Keyed(DeploymentDimensions, k)(d) <==> d.dimensions == k {
      assert DeploymentDimensions(d) == d.dimensions;
    }
  }

  lemma IncidentsHere(items: seq<Incident>, k: Dimensions)
    ensures forall i :: i in Filter(items, Keyed(IncidentDimensions, k)) <==> i in items && i.dimensions == k
  {
    forall i ensures Keyed(IncidentDimensions, k)(i) <==> i.dimensions == k {
      assert IncidentDimensions(i) == i.dimensions;
    }
  }

  lemma CountedAsSet<T(!new)>(s: seq<T>, members: set<T>)
    requires NoDuplicates(s) && forall x :: x in s <==> x in members
    ensures |s| == |members|
  {
    SizeOfDistinct(s);
    assert (set x | x in s) == members;
  }

  /** Readings made one for each of these keys. */
  lemma OneEach(ks: seq<Dimensions>, f: Dimensions -> DoraResult)
    requires NoDuplicates(ks) && forall k :: k in ks ==> f(k).dimensions == k
    ensures ReadOnce(Map(ks, f))
    ensures forall k :: IsRead(Map(ks, f), k) <==> k in ks
  {
    var results := Map(ks, f);
    assert forall i :: 0 <= i < |ks| ==> ks[i] in ks && results[i].dimensions == ks[i];
    forall k | k in ks ensures IsRead(results, k) {
      var i :| 0 <= i < |ks| && ks[i] == k;
      assert results[i] in results;
    }
  }

  lemma ReadingOfItsKey(ks: seq<Dimensions>, f: Dimensions -> DoraResult, r: DoraResult)
    requires (forall k :: k in ks ==> f(k).dimensions == k) && r in Map(ks, f)
    ensures r.dimensions in ks && r == f(r.dimensions)
  {
    var i :| 0 <= i < |ks| && Map(ks, f)[i] == r;
    assert ks[i] in ks;
  }

  /** Some deployment holds the incident: it was traced. */
  ghost predicate IsTraced(i: Incident, linked: Linked) {
    exists d :: d in linked && i in linked[d]
  }

  /** The incident was traced to one of these deployments, of these dimensions. */
  ghost predicate IsTracedTo(i: Incident, linked: Linked, deployments: seq<Deployment>, k: Dimensions) {
    exists d :: d in deployments && d.dimensions == k && d in linked && i in linked[d]
  }

  lemma UnattributedIff(i: Incident, incidents: seq<Incident>, linked: Linked)
    ensures i in Unattributed(incidents, linked) <==> i in incidents && !IsTraced(i, linked)
  {
    assert i in AttributedIn(linked) <==> IsTraced(i, linked);
  }

  /** One slice's incidents, once each: those traced to its deployments, and its untraced own. */
  lemma RelatedAreThose(items: seq<Deployment>, incidents: seq<Incident>, linked: Linked, prs: seq<MergedPr>,
                        carriers: Carriers, k: Dimensions)
    requires NoDuplicates(items) && NoDuplicates(incidents) && IsLinked(linked, incidents, prs, carriers)
    ensures var related := RelatedTo(items, Unattributed(incidents, linked), linked)(k);
      && NoDuplicates(related)
      && forall i :: i in related <==> i in incidents && (IsTracedTo(i, linked, items, k)
                                                          || (!IsTraced(i, linked) && i.dimensions == k))
  {
    var here := Filter(items, Keyed(DeploymentDimensions, k));
    var traced := FlatMap(here, LinkedTo(linked));
    var own := Filter(Unattributed(incidents, linked), Keyed(IncidentDimensions, k));
    TracedAreThose(items, incidents, linked, prs, carriers, k);
    OwnAreThose(incidents, linked, k);
    forall i | i in traced ensures i !in own {
      var d :| d in items && d.dimensions == k && d in linked && i in linked[d];
    }
    AppendNoDuplicates(traced, own);
  }

  lemma TracedAreThose(items: seq<Deployment>, incidents: seq<Incident>, linked: Linked, prs: seq<MergedPr>,
                       carriers: Carriers, k: Dimensions)
    requires NoDuplicates(items) && IsLinked(linked, incidents, prs, carriers)
    ensures var traced := FlatMap(Filter(items, Keyed(DeploymentDimensions, k)), LinkedTo(linked));
      NoDuplicates(traced) && forall i :: i in traced <==> i in incidents && IsTracedTo(i, linked, items, k)
  {
    var here := Filter(items, Keyed(DeploymentDimensions, k));
    FilterNoDuplicates(items, Keyed(DeploymentDimensions, k));
    assert NoDuplicates(FlatMap(here, LinkedTo(linked))) by {
      forall d, e, i | d in here && e in here && i in LinkedTo(linked)(d) && i in LinkedTo(linked)(e) ensures d == e {
        InBucketIff(linked, incidents, prs, carriers, d, i);
        InBucketIff(linked, incidents, prs, carriers, e, i);
      }
      forall d | d in here ensures NoDuplicates(LinkedTo(linked)(d)) {
        BucketHoldsOnce(linked, incidents, prs, carriers, d);
      }
      FlatMapNoDuplicates(here, LinkedTo(linked));
    }
    InFlatMap(here, LinkedTo(linked));
    forall i ensures i in FlatMap(here, LinkedTo(linked)) <==> i in incidents && IsTracedTo(i, linked, items, k) {
      InHereIff(i, items, incidents, linked, prs, carriers, k);
    }
  }

  lemma BucketHoldsOnce(linked: Linked, incidents: seq<Incident>, prs: seq<MergedPr>, carriers: Carriers, d: Deployment)
    requires IsLinked(linked, incidents, prs, carriers)
    ensures NoDuplicates(LinkedTo(linked)(d))
  {
    assert LinkedTo(linked)(d) == Bucket(incidents, prs, carriers, d);
  }

  lemma InHereIff(i: Incident, items: seq<Deployment>, incidents: seq<Incident>, linked: Linked, prs: seq<MergedPr>,
                  carriers: Carriers, k: Dimensions)
    requires IsLinked(linked, incidents, prs, carriers)
    ensures (exists d :: d in Filter(items, Keyed(DeploymentDimensions, k)) && i in LinkedTo(linked)(d))
       <==> i in incidents && IsTracedTo(i, linked, items, k)
  {
    DeploymentsHere(items, k);
    forall d ensures i in LinkedTo(linked)(d) <==> d in linked && i in linked[d] {
      assert LinkedTo(linked)(d) == if d in linked then linked[d] else [];
    }
    forall d | i in LinkedTo(linked)(d) ensures i in incidents {
      InBucketIff(linked, incidents, prs, carriers, d, i);
    }
  }

  lemma OwnAreThose(incidents: seq<Incident>, linked: Linked, k: Dimensions)
    requires NoDuplicates(incidents)
    ensures var own := Filter(Unattributed(incidents, linked), Keyed(IncidentDimensions, k));
      NoDuplicates(own) && forall i :: i in own <==> i in incidents && !IsTraced(i, linked) && i.dimensions == k
  {
    FilterNoDuplicates(incidents, Not(Among(AttributedIn(linked))));
    FilterNoDuplicates(Unattributed(incidents, linked), Keyed(IncidentDimensions, k));
    forall i ensures i in Unattributed(incidents, linked) <==> i in incidents && !IsTraced(i, linked) {
      UnattributedIff(i, incidents, linked);
    }
    IncidentsHere(Unattributed(incidents, linked), k);
  }

  // ─── The failure rate ───

  /** Known deployments of these dimensions: those that ended, well or not. */
  ghost function KnownOf(deployments: seq<Deployment>, k: Dimensions): set<Deployment> {
    set d | d in deployments && (d.status.Success? || d.status.Failed?) && d.dimensions == k
  }

  ghost function FailedOf(deployments: seq<Deployment>, k: Dimensions): set<Deployment> {
    set d | d in deployments && d.status.Failed? && d.dimensions == k
  }

  /** The incidents counted in a slice: traced to one of its known deployments, or of its dimensions and untraced. */
  ghost function IncidentsOf(deployments: seq<Deployment>, incidents: seq<Incident>, linked: Linked,
                             k: Dimensions): set<Incident> {
    set i | i in incidents && ((exists d :: d in KnownOf(deployments, k) && d in linked && i in linked[d])
                               || (!IsTraced(i, linked) && i.dimensions == k))
  }

  lemma KnownCounted(deployments: seq<Deployment>, k: Dimensions)
    requires NoDuplicates(deployments)
    ensures |Filter(Known(deployments), Keyed(DeploymentDimensions, k))| == |KnownOf(deployments, k)|
    ensures |Filter(Filter(Known(deployments), Keyed(DeploymentDimensions, k)), IsFailed)| == |FailedOf(deployments, k)|
  {
    var here := Filter(Known(deployments), Keyed(DeploymentDimensions, k));
    KnownAreThose(deployments, k);
    FilterNoDuplicates(here, IsFailed);
    CountedAsSet(here, KnownOf(deployments, k));
    CountedAsSet(Filter(here, IsFailed), FailedOf(deployments, k));
  }

  lemma KnownAreThose(deployments: seq<Deployment>, k: Dimensions)
    requires NoDuplicates(deployments)
    ensures var here := Filter(Known(deployments), Keyed(DeploymentDimensions, k));
      NoDuplicates(here) && forall d :: d in here <==> d in KnownOf(deployments, k)
  {
    FilterNoDuplicates(deployments, IsKnown);
    FilterNoDuplicates(Known(deployments), Keyed(DeploymentDimensions, k));
    DeploymentsHere(Known(deployments), k);
  }

  lemma IncidentsCounted(deployments: seq<Deployment>, incidents: seq<Incident>, linked: Linked, prs: seq<MergedPr>,
                         carriers: Carriers, k: Dimensions)
    requires NoDuplicates(deployments) && NoDuplicates(incidents) && IsLinked(linked, incidents, prs, carriers)
    ensures |RelatedTo(Known(deployments), Unattributed(incidents, linked), linked)(k)|
         == |IncidentsOf(deployments, incidents, linked, k)|
  {
    var related := RelatedTo(Known(deployments), Unattributed(incidents, linked), linked)(k);
    FilterNoDuplicates(deployments, IsKnown);
    RelatedAreThose(Known(deployments), incidents, linked, prs, carriers, k);
    forall i ensures i in related <==> i in IncidentsOf(deployments, incidents, linked, k) {
      TracedToKnown(i, linked, deployments, k);
    }
    CountedAsSet(related, IncidentsOf(deployments, incidents, linked, k));
  }

  lemma TracedToKnown(i: Incident, linked: Linked, deployments: seq<Deployment>, k: Dimensions)
    ensures IsTracedTo(i, linked, Known(deployments), k)
       <==> exists d :: d in KnownOf(deployments, k) && d in linked && i in linked[d]
  {
    assert forall d :: d in KnownOf(deployments, k) <==> d in Known(deployments) && d.dimensions == k;
  }

  /**
   * What one reading of the failure rate says: its size is the known deployments
   * of its dimensions, and its value times that the failed ones where they count,
   * and the incidents of the slice where those do.
   */
  ghost predicate SaysRate(r: DoraResult, deployments: seq<Deployment>, incidents: seq<Incident>, linked: Linked,
                           source: FailureSource)
  {
    && r.metric == ChangeFailureRate && r.unit == Ratio && r.population == None
    && r.sampleSize == |KnownOf(deployments, r.dimensions)| && r.sampleSize > 0
    && r.value * r.sampleSize as real
       == (if source.Incidents? then 0 else |FailedOf(deployments, r.dimensions)|) as real
        + (if source.Pipelines? then 0 else |IncidentsOf(deployments, incidents, linked, r.dimensions)|) as real
  }

  lemma RateReads(linked: Linked, incidents: seq<Incident>, prs: seq<MergedPr>, carriers: Carriers,
                  deployments: seq<Deployment>, source: FailureSource, r: DoraResult)
    requires NoDuplicates(deployments) && NoDuplicates(incidents) && IsLinked(linked, incidents, prs, carriers)
    requires r in Rates(deployments, incidents, source, linked)
    ensures SaysRate(r, deployments, incidents, linked, source)
  {
    RateIsRated(deployments, incidents, source, linked, r);
    RateAtReads(linked, incidents, prs, carriers, deployments, source, r.dimensions);
  }

  lemma RateIsRated(deployments: seq<Deployment>, incidents: seq<Incident>, source: FailureSource, linked: Linked,
                    r: DoraResult)
    requires r in Rates(deployments, incidents, source, linked)
    ensures r.dimensions in FirstSeen(Known(deployments), DeploymentDimensions)
    ensures r == Rate(Known(deployments), incidents, source, linked, r.dimensions)
  {
    ReadingOfItsKey(FirstSeen(Known(deployments), DeploymentDimensions),
                    RateAt(Known(deployments), incidents, source, linked), r);
  }

  lemma RateAtReads(linked: Linked, incidents: seq<Incident>, prs: seq<MergedPr>, carriers: Carriers,
                    deployments: seq<Deployment>, source: FailureSource, k: Dimensions)
    requires NoDuplicates(deployments) && NoDuplicates(incidents) && IsLinked(linked, incidents, prs, carriers)
    requires k in FirstSeen(Known(deployments), DeploymentDimensions)
    ensures SaysRate(Rate(Known(deployments), incidents, source, linked, k), deployments, incidents, linked, source)
  {
    var known := Known(deployments);
    KnownCounted(deployments, k);
    IncidentsCounted(deployments, incidents, linked, prs, carriers, k);
    assert Rate(known, incidents, source, linked, k).sampleSize > 0 by {
      SliceFailures(known, incidents, source, linked, k);
    }
    WeighedBack(Rate(known, incidents, source, linked, k), Failures(known, incidents, source, linked, k));
  }

  /** The rates are of the distinct dimensions something known was deployed to, once each, and of no others. */
  lemma RatedDimensions(deployments: seq<Deployment>, incidents: seq<Incident>, source: FailureSource, linked: Linked)
    ensures ReadOnce(Rates(deployments, incidents, source, linked))
    ensures forall k :: IsRead(Rates(deployments, incidents, source, linked), k) <==> KnownOf(deployments, k) != {}
  {
    OneEach(FirstSeen(Known(deployments), DeploymentDimensions), RateAt(Known(deployments), incidents, source, linked));
    forall k ensures IsRead(Rates(deployments, incidents, source, linked), k) <==> KnownOf(deployments, k) != {} {
      DeployedIff(deployments, k);
    }
  }

  /** The dimensions warned about: those of an untraced incident, to which nothing known was deployed. */
  lemma OrphansAreNamed(deployments: seq<Deployment>, incidents: seq<Incident>, linked: Linked, k: Dimensions)
    ensures NoDuplicates(OrphanDimensions(deployments, incidents, linked))
    ensures k in OrphanDimensions(deployments, incidents, linked)
       <==> KnownOf(deployments, k) == {} && exists i :: i in incidents && !IsTraced(i, linked) && i.dimensions == k
  {
    var deployed := FirstSeen(Known(deployments), DeploymentDimensions);
    var named := FirstSeen(Unattributed(incidents, linked), IncidentDimensions);
    FilterNoDuplicates(named, Not(Among(set j | j in deployed)));
    assert k in deployed <==> KnownOf(deployments, k) != {} by {
      DeployedIff(deployments, k);
    }
    assert k in named <==> exists i :: i in incidents && !IsTraced(i, linked) && i.dimensions == k by {
      NamedIff(incidents, linked, k);
    }
  }

  lemma DeployedIff(deployments: seq<Deployment>, k: Dimensions)
    ensures k in FirstSeen(Known(deployments), DeploymentDimensions) <==> KnownOf(deployments, k) != {}
  {
    if k in FirstSeen(Known(deployments), DeploymentDimensions) {
      var d :| d in Known(deployments) && DeploymentDimensions(d) == k;
      assert d in KnownOf(deployments, k);
    }
    if d :| d in KnownOf(deployments, k) {
      assert d in Known(deployments) && DeploymentDimensions(d) == k;
    }
  }

  lemma NamedIff(incidents: seq<Incident>, linked: Linked, k: Dimensions)
    ensures k in FirstSeen(Unattributed(incidents, linked), IncidentDimensions)
       <==> exists i :: i in incidents && !IsTraced(i, linked) && i.dimensions == k
  {
    if k in FirstSeen(Unattributed(incidents, linked), IncidentDimensions) {
      var i :| i in Unattributed(incidents, linked) && IncidentDimensions(i) == k;
      UnattributedIff(i, incidents, linked);
    }
    if i :| i in incidents && !IsTraced(i, linked) && i.dimensions == k {
      UnattributedIff(i, incidents, linked);
      assert IncidentDimensions(i) == k;
    }
  }

  // ─── The frequency ───

  ghost function SuccessesOf(deployments: seq<Deployment>, k: Dimensions): set<Deployment> {
    set d | d in deployments && d.status.Success? && d.dimensions == k
  }

  lemma SuccessesCounted(deployments: seq<Deployment>, k: Dimensions)
    requires NoDuplicates(deployments)
    ensures |Filter(Successes(deployments), Keyed(DeploymentDimensions, k))| == |SuccessesOf(deployments, k)|
  {
    FilterNoDuplicates(deployments, IsSuccess);
    FilterNoDuplicates(Successes(deployments), Keyed(DeploymentDimensions, k));
    DeploymentsHere(Successes(deployments), k);
    CountedAsSet(Filter(Successes(deployments), Keyed(DeploymentDimensions, k)), SuccessesOf(deployments, k));
  }

  lemma SucceededIff(deployments: seq<Deployment>, k: Dimensions)
    ensures k in FirstSeen(Successes(deployments), DeploymentDimensions) <==> SuccessesOf(deployments, k) != {}
  {
    if k in FirstSeen(Successes(deployments), DeploymentDimensions) {
      var d :| d in Successes(deployments) && DeploymentDimensions(d) == k;
      assert d in SuccessesOf(deployments, k);
    }
    if d :| d in SuccessesOf(deployments, k) {
      assert d in Successes(deployments) && DeploymentDimensions(d) == k;
    }
  }

  /** What one reading of the frequency says: the successes of its dimensions, and their number per day. */
  ghost predicate SaysFrequency(r: DoraResult, deployments: seq<Deployment>, days: real) {
    && r.metric == DeploymentFrequency && r.unit == PerDay && r.population == None
    && r.sampleSize == |SuccessesOf(deployments, r.dimensions)| && r.sampleSize > 0
    && days > 0.0 && r.value == r.sampleSize as real / days
  }

  lemma FrequencyReads(deployments: seq<Deployment>, days: real, r: DoraResult)
    requires NoDuplicates(deployments) && r in Frequencies(deployments, days)
    ensures SaysFrequency(r, deployments, days)
  {
    FrequencyIsOfSuccesses(deployments, days, r);
    FrequencyPerDay(deployments, days, r.dimensions);
  }

  lemma FrequencyIsOfSuccesses(deployments: seq<Deployment>, days: real, r: DoraResult)
    requires days > 0.0 && r in Frequencies(deployments, days)
    ensures r.dimensions in FirstSeen(Successes(deployments), DeploymentDimensions)
    ensures r == FrequencyAt(Successes(deployments), days)(r.dimensions)
  {
    var ks := FirstSeen(Successes(deployments), DeploymentDimensions);
    FrequencyOfItsKey(Successes(deployments), days, ks);
    ReadingOfItsKey(ks, FrequencyAt(Successes(deployments), days), r);
  }

  lemma FrequencyPerDay(deployments: seq<Deployment>, days: real, k: Dimensions)
    requires NoDuplicates(deployments) && days > 0.0
    requires k in FirstSeen(Successes(deployments), DeploymentDimensions)
    ensures SaysFrequency(FrequencyAt(Successes(deployments), days)(k), deployments, days)
  {
    var n := |SuccessesOf(deployments, k)|;
    assert n == |Filter(Successes(deployments), Keyed(DeploymentDimensions, k))| by {
      SuccessesCounted(deployments, k);
    }
    assert n > 0 by {
      SucceededIff(deployments, k);
    }
  }

  lemma FrequencyOfItsKey(successes: seq<Deployment>, days: real, ks: seq<Dimensions>)
    requires days > 0.0
    ensures forall k :: k in ks ==> FrequencyAt(successes, days)(k).dimensions == k
  {
  }

  /** The frequencies are of the distinct dimensions of the successes, once each; of none without a span. */
  lemma FrequentDimensions(deployments: seq<Deployment>, days: real)
    ensures ReadOnce(Frequencies(deployments, days))
    ensures forall k :: IsRead(Frequencies(deployments, days), k) <==> days > 0.0 && SuccessesOf(deployments, k) != {}
  {
    if days > 0.0 {
      OneEach(FirstSeen(Successes(deployments), DeploymentDimensions), FrequencyAt(Successes(deployments), days));
      forall k ensures IsRead(Frequencies(deployments, days), k) <==> SuccessesOf(deployments, k) != {} {
        SucceededIff(deployments, k);
      }
    }
  }
}
