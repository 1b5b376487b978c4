/** `mttr` of back/src/dora/dora-metrics.ts: what a restore is, and what it is measured on. */
module Restore {
  import opened Attribution
  import opened Blame
  import opened Carriers
  import opened DoraEvents
  import opened FailureRate
  import opened Folding
  import opened Grouping
  import opened Lists
  import opened Options
  import opened Sorting
  import opened Sums

  /** A failed deployment and the success that ended it. */
  datatype Recovery = Recovery(failed: Deployment, restored: Deployment)

  function Duration(r: Recovery): real { SecondsBetween(r.failed.createdAt, r.restored.createdAt) }

  /** The same deployable: repository and environment. */
  function Deployable(d: Deployment): (string, string) { (d.repo, d.environment) }

  function NextSuccess(sorted: seq<Deployment>, i: nat): Option<nat>
    decreases |sorted| - i
  {
    if i >= |sorted| then None
    else if sorted[i].status.Success? then Some(i)
    else NextSuccess(sorted, i + 1)
  }

  lemma {:induction false} NextSuccessIsNearest(sorted: seq<Deployment>, i: nat)
    ensures match NextSuccess(sorted, i)
            case None => forall j :: i <= j < |sorted| ==> !sorted[j].status.Success?
            case Some(n) => i <= n < |sorted| && sorted[n].status.Success? && forall j :: i <= j < n ==>
                !sorted[j].status.Success?
    decreases |sorted| - i
  {
    if i < |sorted| && !sorted[i].status.Success? {
      NextSuccessIsNearest(sorted, i + 1);
    }
  }

  /** The sample the run at `i` yields: one for a failure something later ended, else none. */
  function RecoveryAt(sorted: seq<Deployment>, i: nat): seq<Recovery>
    requires i < |sorted|
  {
    NextSuccessIsNearest(sorted, i + 1);
    var next := NextSuccess(sorted, i + 1);
    if sorted[i].status.Failed? && next.Some? then [Recovery(sorted[i], sorted[next.value])] else []
  }

  function RecoveriesUpTo(sorted: seq<Deployment>, n: nat): seq<Recovery>
    requires n <= |sorted|
  {
    if n == 0 then [] else RecoveriesUpTo(sorted, n - 1) + RecoveryAt(sorted, n - 1)
  }

  /**
   * Exactly the failures with a success later in the order yield a sample, one
   * each, ended by the nearest such success and never negative.
   */
  lemma FailureEndsAtNearestSuccess(sorted: seq<Deployment>, i: nat)
    requires i < |sorted| && Ascending(sorted, CreatedAt)
    ensures |RecoveryAt(sorted, i)| ==
      if sorted[i].status.Failed? && exists j :: i < j < |sorted| && sorted[j].status.Success? then 1 else 0
    ensures forall r :: r in RecoveryAt(sorted, i) ==>
      r.failed == sorted[i] && Duration(r) >= 0.0
      && exists n :: i < n < |sorted| && r.restored == sorted[n] && sorted[n].status.Success?
                     && forall j :: i < j < n ==> !sorted[j].status.Success?
  {
    NextSuccessIsNearest(sorted, i + 1);
    var next := NextSuccess(sorted, i + 1);
    if next.Some? {
      assert CreatedAt(sorted[i]) <= CreatedAt(sorted[next.value]);
    }
  }

  function RecoveriesOf(deploys: seq<Deployment>): ((string, string)) -> seq<Recovery> {
    (g: (string, string)) =>
      var sorted := Sort(Filter(deploys, Keyed(Deployable, g)), CreatedAt);
      RecoveriesUpTo(sorted, |sorted|)
  }

  function Recoveries(deploys: seq<Deployment>): seq<Recovery> {
    FlatMap(FirstSeen(deploys, Deployable), RecoveriesOf(deploys))
  }

  method RecoveriesIn(sorted: seq<Deployment>) returns (samples: seq<Recovery>)
    ensures samples == RecoveriesUpTo(sorted, |sorted|)
  {
    samples := [];
    for i := 0 to |sorted|
      invariant samples == RecoveriesUpTo(sorted, i)
    {
      if sorted[i].status.Failed? {
        var j := i + 1;
        while j < |sorted| && !sorted[j].status.Success?
          invariant i < j <= |sorted|
          invariant NextSuccess(sorted, j) == NextSuccess(sorted, i + 1)
        {
          j := j + 1;
        }
        if j < |sorted| {
          samples := samples + [Recovery(sorted[i], sorted[j])];
        }
      }
    }
  }

  method PipelineRecoveries(deploys: seq<Deployment>) returns (samples: seq<Recovery>)
    ensures samples == Recoveries(deploys)
  {
    var groups := GroupBy(deploys, Deployable);
    samples := [];
    for g := 0 to |groups.keys|
      invariant samples == FlatMap(groups.keys[..g], RecoveriesOf(deploys))
    {
      FlatMapNext(groups.keys, g, RecoveriesOf(deploys));
      var found := RecoveriesIn(Sort(groups.at[groups.keys[g]], CreatedAt));
      samples := samples + found;
    }
    assert groups.keys[..|groups.keys|] == groups.keys;
  }

  /**
   * Pairing is local: whatever set of deployables is taken apart from the rest,
   * the samples of the whole are those of each part computed alone.
   */
  lemma {:induction false} RecoveriesAreLocal(deploys: seq<Deployment>, part: ((string, string)) -> bool)
    ensures multiset(Recoveries(deploys))
         == multiset(Recoveries(Filter(deploys, OnKey(Deployable, part))))
          + multiset(Recoveries(Filter(deploys, OnKey(Deployable, Not(part)))))
  {
    var inside, outside := Filter(deploys, OnKey(Deployable, part)), Filter(deploys, OnKey(Deployable, Not(part)));
    forall r ensures Sum(Recoveries(deploys), Is(r)) == Sum(Recoveries(inside) + Recoveries(outside), Is(r)) {
      var ks := FirstSeen(deploys, Deployable);
      SumFlatMap(ks, RecoveriesOf(deploys), Is(r));
      SumSplit(ks, part, Spread(RecoveriesOf(deploys), Is(r)));
      PartAlone(deploys, part, Is(r));
      PartAlone(deploys, Not(part), Is(r));
      SumAppend(Recoveries(inside), Recoveries(outside), Is(r));
    }
    SameSumsSameElements(Recoveries(deploys), Recoveries(inside) + Recoveries(outside));
  }

  lemma {:induction false} PartAlone(deploys: seq<Deployment>, part: ((string, string)) -> bool, w: Recovery -> real)
    ensures Sum(Recoveries(Filter(deploys, OnKey(Deployable, part))), w)
         == Sum(Filter(FirstSeen(deploys, Deployable), part), Spread(RecoveriesOf(deploys), w))
  {
    var alone := Filter(deploys, OnKey(Deployable, part));
    FirstSeenFiltered(deploys, Deployable, part);
    var ks := FirstSeen(alone, Deployable);
    SumFlatMap(ks, RecoveriesOf(alone), w);
    forall g | g in ks ensures Spread(RecoveriesOf(alone), w)(g) == Spread(RecoveriesOf(deploys), w)(g) {
      FilterTwice(deploys, OnKey(Deployable, part), Keyed(Deployable, g));
    }
    SumAgree(ks, Spread(RecoveriesOf(alone), w), Spread(RecoveriesOf(deploys), w));
  }

  // ─── The metric ───

  /** The deployments a slice reads: none when only incidents count. */
  function Deploys(deployments: seq<Deployment>, source: FailureSource): seq<Deployment> {
    if source.Incidents? then [] else deployments
  }

  function Untraced(incidents: seq<Incident>, source: FailureSource, linked: Linked): seq<Incident> {
    if source.Pipelines? then [] else Unattributed(incidents, linked)
  }

  /** A `Set` of two lists of distinct keys: the first, then what the second adds. */
  function Union<K(!new, ==)>(a: seq<K>, b: seq<K>): (r: seq<K>)
    requires NoDuplicates(a) && NoDuplicates(b)
    ensures NoDuplicates(r)
    ensures forall k :: k in r <==> k in a || k in b
  {
    var added := Filter(b, Not(KeyIn(Self, a)));
    FilterNoDuplicates(b, Not(KeyIn(Self, a)));
    assert forall k :: k in added <==> k in b && !KeyIn(Self, a)(k);
    assert forall k :: KeyIn(Self, a)(k) <==> k in a;
    assert forall i :: 0 <= i < |added| ==> added[i] in added;
    a + added
  }

  function Keys(deployments: seq<Deployment>, incidents: seq<Incident>, source: FailureSource,
                linked: Linked): seq<Dimensions> {
    Union(FirstSeen(Deploys(deployments, source), DeploymentDimensions),
          FirstSeen(Untraced(incidents, source, linked), IncidentDimensions))
  }

  function MttrRelated(deployments: seq<Deployment>, incidents: seq<Incident>, source: FailureSource,
                       linked: Linked): Dimensions -> seq<Incident> {
    (k: Dimensions) =>
      if source.Pipelines? then []
      else RelatedTo(Deploys(deployments, source), Untraced(incidents, source, linked), linked)(k)
  }

  /** One sample where the incident was resolved, none before. */
  function RestoreTime(i: Incident): seq<real> {
    if i.resolvedAt.None? then [] else [Clamp(SecondsBetween(i.openedAt, i.resolvedAt.value))]
  }

  function SliceRecoveries(deployments: seq<Deployment>): Dimensions -> seq<Recovery> {
    (k: Dimensions) => Recoveries(Filter(deployments, Keyed(DeploymentDimensions, k)))
  }

  function SliceSamples(deployments: seq<Deployment>, incidents: seq<Incident>, source: FailureSource, linked: Linked,
                        k: Dimensions): seq<real> {
    Map(SliceRecoveries(Deploys(deployments, source))(k), Duration)
    + FlatMap(MttrRelated(deployments, incidents, source, linked)(k), RestoreTime)
  }

  function MttrSamples(deployments: seq<Deployment>, incidents: seq<Incident>, source: FailureSource,
                       linked: Linked): Dimensions -> seq<real> {
    (k: Dimensions) => SliceSamples(deployments, incidents, source, linked, k)
  }

  function MttrOf(deployments: seq<Deployment>, incidents: seq<Incident>, source: FailureSource,
                  linked: Linked): seq<DoraResult> {
    FlatMap(Keys(deployments, incidents, source, linked),
            MeasuredAt(Mttr, MttrSamples(deployments, incidents, source, linked)))
  }

  /** The slices hold every incident of the window, but for those traced when only incidents count. */
  lemma {:induction false} MttrIncidents(linked: Linked, incidents: seq<Incident>, prs: seq<MergedPr>,
                                         carriers: Carriers,
                      deployments: seq<Deployment>, key: Option<string>, source: FailureSource)
    requires Correlated(linked, incidents, prs, carriers, deployments, key) && !source.Pipelines?
    ensures multiset(FlatMap(Keys(deployments, incidents, source, linked),
                             MttrRelated(deployments, incidents, source, linked)))
         == multiset(if source.Incidents? then Unattributed(incidents, linked) else incidents)
  {
    var held := FlatMap(Keys(deployments, incidents, source, linked),
                        MttrRelated(deployments, incidents, source, linked));
    var expected := if source.Incidents? then Unattributed(incidents, linked) else incidents;
    forall i ensures Sum(held, Is(i)) == Sum(expected, Is(i)) {
      RelatedTotal(deployments, incidents, source, linked, Is(i));
      if source.Both? {
        TracedTotal(linked, incidents, prs, carriers, deployments, key, Is(i));
      }
    }
    SameSumsSameElements(held, expected);
  }

  /** The slices hold what was traced to a deployment they read, and everything untraced. */
  lemma RelatedTotal(deployments: seq<Deployment>, incidents: seq<Incident>, source: FailureSource, linked: Linked,
                     w: Incident -> real)
    requires !source.Pipelines?
    ensures Sum(FlatMap(Keys(deployments, incidents, source, linked),
                        MttrRelated(deployments, incidents, source, linked)), w)
         == Sum(Deploys(deployments, source), Spread(LinkedTo(linked), w)) + Sum(Unattributed(incidents, linked), w)
  {
    var ks, items, un := Keys(deployments, incidents, source, linked), Deploys(deployments, source),
      Unattributed(incidents, linked);
    assert FlatMap(ks, MttrRelated(deployments, incidents, source, linked))
           == FlatMap(ks, RelatedTo(items, un, linked)) by {
      FlatMapAgree(ks, MttrRelated(deployments, incidents, source, linked), RelatedTo(items, un, linked));
    }
    RelatedSum(ks, items, un, linked, w);
    assert Filter(items, KeyIn(DeploymentDimensions, ks)) == items
           && Filter(un, KeyIn(IncidentDimensions, ks)) == un by {
      KeysCover(deployments, incidents, source, linked);
      FilterAll(items, KeyIn(DeploymentDimensions, ks));
      FilterAll(un, KeyIn(IncidentDimensions, ks));
    }
  }

  lemma TracedTotal(linked: Linked, incidents: seq<Incident>, prs: seq<MergedPr>, carriers: Carriers,
                    deployments: seq<Deployment>, key: Option<string>, w: Incident -> real)
    requires Correlated(linked, incidents, prs, carriers, deployments, key)
    ensures Sum(deployments, Spread(LinkedTo(linked), w)) + Sum(Unattributed(incidents, linked), w) == Sum(incidents, w)
  {
    CulpritsAreSuccesses(linked, incidents, prs, carriers, deployments, key);
    LinkedSum(deployments, linked, incidents, prs, carriers, w);
    SumSplit(incidents, Among(AttributedIn(linked)), w);
  }

  lemma KeysCover(deployments: seq<Deployment>, incidents: seq<Incident>, source: FailureSource, linked: Linked)
    ensures var ks := Keys(deployments, incidents, source, linked);
      && (forall d :: d in Deploys(deployments, source) ==> d.dimensions in ks)
      && (forall i :: i in Untraced(incidents, source, linked) ==> i.dimensions in ks)
  {
    forall d | d in Deploys(deployments, source) ensures d.dimensions in Keys(deployments, incidents, source, linked) {
      assert DeploymentDimensions(d) in FirstSeen(Deploys(deployments, source), DeploymentDimensions);
    }
    forall i | i in Untraced(incidents, source,
                             linked) ensures i.dimensions in Keys(deployments, incidents, source, linked) {
      assert IncidentDimensions(i) in FirstSeen(Untraced(incidents, source, linked), IncidentDimensions);
    }
  }

  /**
   * The failure rate and the restore time read the same incidents, orphans aside,
   * exactly when deployments are read too or nothing was traced to one: with
   * incidents alone as the source, a traced incident has no slice left to be in.
   */
  lemma {:induction false} RestoreReadsEveryIncidentIff(linked: Linked, incidents: seq<Incident>, prs: seq<MergedPr>,
                                                        carriers: Carriers,
                                     deployments: seq<Deployment>, key: Option<string>, source: FailureSource)
    requires Correlated(linked, incidents, prs, carriers, deployments, key) && !source.Pipelines?
    ensures multiset(FlatMap(Keys(deployments, incidents, source, linked),
                             MttrRelated(deployments, incidents, source, linked)))
         == multiset(incidents)
        <==> source.Both? || linked == map[]
  {
    MttrIncidents(linked, incidents, prs, carriers, deployments, key, source);
    if source.Incidents? {
      var un := Unattributed(incidents, linked);
      if linked == map[] {
        FilterAll(incidents, Not(Among(AttributedIn(linked))));
      } else {
        var d :| d in linked;
        var i := linked[d][0];
        assert i in linked[d];
        assert i in AttributedIn(linked);
        InBucketIff(linked, incidents, prs, carriers, d, i);
        assert i in LinkedTo(linked)(d);
        assert i in multiset(incidents) && i !in multiset(un);
      }
    }
  }

  /**
   * Such an incident does come up: its ticket is that of a request a success
   * carried before it opened. Resolved or not, with incidents as the source it
   * leaves no slice and no reading.
   */
  lemma TracedIncidentIsNotRead(d: Deployment, pr: MergedPr, i: Incident, t: Ticket, key: Option<string>)
    requires d.status.Success? && pr.repo == d.repo && pr.mergedAt <= d.createdAt <= i.openedAt
    requires SameComponent(key, pr.dimensions, d.dimensions) && pr.tickets == [t] && i.tickets == [t]
    ensures var (linked, carriers) := (map[d := [i]], map[pr := [d]]);
      && Correlated(linked, [i], [pr], carriers, [d], key)
      && MttrOf([d], [i], Incidents, linked) == []
  {
    OneIsTraced(d, pr, i, t, key);
    var linked := map[d := [i]];
    assert i in linked[d];
    assert i in AttributedIn(linked);
    NoneKept([i], Not(Among(AttributedIn(linked))));
    assert Keys([d], [i], Incidents, linked) == [];
  }

  lemma OneIsTraced(d: Deployment, pr: MergedPr, i: Incident, t: Ticket, key: Option<string>)
    requires d.status.Success? && pr.repo == d.repo && pr.mergedAt <= d.createdAt <= i.openedAt
    requires SameComponent(key, pr.dimensions, d.dimensions) && pr.tickets == [t] && i.tickets == [t]
    ensures Correlated(map[d := [i]], [i], [pr], map[pr := [d]], [d], key)
  {
    var carriers := map[pr := [d]];
    assert Eligible(d, pr, [d], key);
    assert IsCarriers(carriers, [pr], [d], key) by {
      assert Reaches([d], d.environment) by { assert d in [d]; }
    }
    EarliestIsFirst([d]);
    assert DeploymentCarrying(pr, carriers) == Some(d);
    assert TicketCarrier([pr], carriers, t) == Some(d);
    assert Culprit([pr], carriers)(i) == Some(d);
    forall e ensures LinkedTo(map[d := [i]])(e) == Bucket([i], [pr], carriers, e) {
      OneBucket(i, [pr], carriers, d, e);
    }
  }

  lemma OneBucket(i: Incident, prs: seq<MergedPr>, carriers: Carriers, d: Deployment, e: Deployment)
    requires Culprit(prs, carriers)(i) == Some(d)
    ensures Bucket([i], prs, carriers, e) == if e == d then [i] else []
  {
    var blamed := Keyed(Culprit(prs, carriers), Some(e));
    assert blamed(i) == (e == d);
    if e == d {
      KeptAll([i], blamed);
      FirstSeenOfDistinct([i]);
    } else {
      NoneKept([i], blamed);
    }
  }

  /** The incidents a source reads: those the slices hold between them. */
  function Read(incidents: seq<Incident>, source: FailureSource, linked: Linked): seq<Incident> {
    match source
    case Pipelines => []
    case Incidents => Unattributed(incidents, linked)
    case Both => incidents
  }

  /** Every restore of a window: its recoveries, then the times of the incidents read. */
  function AllRestores(deployments: seq<Deployment>, incidents: seq<Incident>): seq<real> {
    Map(FlatMap(FirstSeen(deployments, DeploymentDimensions), SliceRecoveries(deployments)), Duration)
    + FlatMap(incidents, RestoreTime)
  }

  /** Folding every slice gives the median of all restores the source reads, over as many samples. */
  lemma FoldedMttr(linked: Linked, incidents: seq<Incident>, prs: seq<MergedPr>, carriers: Carriers,
                   deployments: seq<Deployment>, key: Option<string>, source: FailureSource)
    requires Correlated(linked, incidents, prs, carriers, deployments, key)
    ensures var all := AllRestores(Deploys(deployments, source), Read(incidents, source, linked));
      FoldMetric(MttrOf(deployments, incidents, source, linked))
      == if all == [] then None else Some(DoraResult(Mttr, Median(all), Seconds, map[], |all|, None))
  {
    var ks := Keys(deployments, incidents, source, linked);
    var f := MttrSamples(deployments, incidents, source, linked);
    var all := AllRestores(Deploys(deployments, source), Read(incidents, source, linked));
    forall v ensures Sum(FlatMap(ks, f), Is(v)) == Sum(all, Is(v)) {
      MttrSampleSums(linked, incidents, prs, carriers, deployments, key, source, Is(v));
    }
    SameSumsSameElements(FlatMap(ks, f), all);
    FoldOfSlices(Mttr, ks, f, all);
  }

  lemma MttrSampleSums(linked: Linked, incidents: seq<Incident>, prs: seq<MergedPr>, carriers: Carriers,
                       deployments: seq<Deployment>, key: Option<string>, source: FailureSource, w: real -> real)
    requires Correlated(linked, incidents, prs, carriers, deployments, key)
    ensures Sum(FlatMap(Keys(deployments, incidents, source, linked),
                        MttrSamples(deployments, incidents, source, linked)), w)
         == Sum(AllRestores(Deploys(deployments, source), Read(incidents, source, linked)), w)
  {
    var items := Deploys(deployments, source);
    var recovered := Spread(SliceRecoveries(items), After(Duration, w));
    SamplesSplit(deployments, incidents, source, linked, w);
    assert Sum(Keys(deployments, incidents, source, linked), recovered)
           == Sum(FirstSeen(items, DeploymentDimensions), recovered) by {
      NothingRecovered(items, After(Duration, w));
      RecoveredOverDeployed(deployments, incidents, source, linked, recovered);
    }
    RestoredTotal(linked, incidents, prs, carriers, deployments, key, source, Spread(RestoreTime, w));
    AllMeasured(items, Read(incidents, source, linked), w);
  }

  lemma RestoredTotal(linked: Linked, incidents: seq<Incident>, prs: seq<MergedPr>, carriers: Carriers,
                      deployments: seq<Deployment>, key: Option<string>, source: FailureSource, w: Incident -> real)
    requires Correlated(linked, incidents, prs, carriers, deployments, key)
    ensures Sum(Keys(deployments, incidents, source, linked),
                Spread(MttrRelated(deployments, incidents, source, linked), w))
         == Sum(Read(incidents, source, linked), w)
  {
    var ks, related := Keys(deployments, incidents, source, linked),
      MttrRelated(deployments, incidents, source, linked);
    if source.Pipelines? {
      SumAgree(ks, Spread(related, w), Zero());
      SumOfZero(ks);
    } else {
      SumFlatMap(ks, related, w);
      MttrIncidents(linked, incidents, prs, carriers, deployments, key, source);
      SumOfPermutation(FlatMap(ks, related), Read(incidents, source, linked), w);
    }
  }

  /** The samples of the slices are their recoveries, then their incidents' restore times. */
  lemma {:induction false} SamplesSplit(deployments: seq<Deployment>, incidents: seq<Incident>, source: FailureSource,
                                        linked: Linked, w: real -> real)
    ensures var ks := Keys(deployments, incidents, source, linked);
      Sum(FlatMap(ks, MttrSamples(deployments, incidents, source, linked)), w)
      == Sum(ks, Spread(SliceRecoveries(Deploys(deployments, source)), After(Duration, w)))
       + Sum(ks, Spread(MttrRelated(deployments, incidents, source, linked), Spread(RestoreTime, w)))
  {
    var ks := Keys(deployments, incidents, source, linked);
    var samples, related := MttrSamples(deployments, incidents, source, linked),
      MttrRelated(deployments, incidents, source, linked);
    var recovered := Spread(SliceRecoveries(Deploys(deployments, source)), After(Duration, w));
    var restored := Spread(related, Spread(RestoreTime, w));
    SumFlatMap(ks, samples, w);
    forall k | k in ks ensures Spread(samples, w)(k) == Plus(recovered, restored)(k) {
      SliceSplit(deployments, incidents, source, linked, w, k);
    }
    SumAgree(ks, Spread(samples, w), Plus(recovered, restored));
    SumPlus(ks, recovered, restored);
  }

  lemma SliceSplit(deployments: seq<Deployment>, incidents: seq<Incident>, source: FailureSource, linked: Linked,
                   w: real -> real, k: Dimensions)
    ensures Spread(MttrSamples(deployments, incidents, source, linked), w)(k)
         == Plus(Spread(SliceRecoveries(Deploys(deployments, source)), After(Duration, w)),
                 Spread(MttrRelated(deployments, incidents, source, linked), Spread(RestoreTime, w)))(k)
  {
    SumOfBoth(SliceRecoveries(Deploys(deployments, source))(k), MttrRelated(deployments, incidents, source, linked)(k),
              w);
  }

  lemma SumOfBoth(here: seq<Recovery>, related: seq<Incident>, w: real -> real)
    ensures Sum(Map(here, Duration) + FlatMap(related, RestoreTime), w)
         == Sum(here, After(Duration, w)) + Sum(related, Spread(RestoreTime, w))
  {
    SumAppend(Map(here, Duration), FlatMap(related, RestoreTime), w);
    SumMap(here, Duration, w);
    SumFlatMap(related, RestoreTime, w);
  }

  lemma NothingRecovered(deployments: seq<Deployment>, w: Recovery -> real)
    ensures forall k :: k !in FirstSeen(deployments, DeploymentDimensions) ==>
        Spread(SliceRecoveries(deployments), w)(k) == 0.0
  {
    forall k | k !in FirstSeen(deployments, DeploymentDimensions) ensures Spread(SliceRecoveries(deployments), w)(k)
    == 0.0 {
      GroupsAreNotEmpty(deployments, DeploymentDimensions, k);
      assert FirstSeen([], Deployable) == [];
      assert SliceRecoveries(deployments)(k) == Recoveries([]) == [];
    }
  }

  lemma {:induction false} AllMeasured(deployments: seq<Deployment>, incidents: seq<Incident>, w: real -> real)
    ensures Sum(AllRestores(deployments, incidents), w)
         == Sum(FirstSeen(deployments, DeploymentDimensions), Spread(SliceRecoveries(deployments), After(Duration, w)))
          + Sum(incidents, Spread(RestoreTime, w))
  {
    var deployed := FirstSeen(deployments, DeploymentDimensions);
    SumOfBoth(FlatMap(deployed, SliceRecoveries(deployments)), incidents, w);
    SumFlatMap(deployed, SliceRecoveries(deployments), After(Duration, w));
  }

  /** Slices known only through their incidents hold no deployment to recover from. */
  lemma RecoveredOverDeployed(deployments: seq<Deployment>, incidents: seq<Incident>, source: FailureSource,
                              linked: Linked,
                              recovered: Dimensions -> real)
    requires forall k :: k !in FirstSeen(Deploys(deployments, source), DeploymentDimensions) ==> recovered(k) == 0.0
    ensures Sum(Keys(deployments, incidents, source, linked), recovered)
         == Sum(FirstSeen(Deploys(deployments, source), DeploymentDimensions), recovered)
  {
    SumOfUnion(FirstSeen(Deploys(deployments, source), DeploymentDimensions),
               FirstSeen(Untraced(incidents, source, linked), IncidentDimensions), recovered);
  }

  lemma SumOfUnion(a: seq<Dimensions>, b: seq<Dimensions>, w: Dimensions -> real)
    requires NoDuplicates(a) && NoDuplicates(b)
    requires forall k :: k !in a ==> w(k) == 0.0
    ensures Sum(Union(a, b), w) == Sum(a, w)
  {
    var added := Filter(b, Not(KeyIn(Self, a)));
    SumAppend(a, added, w);
    assert Sum(added, w) == 0.0 by {
      SumAgree(added, w, Zero());
      SumOfZero(added);
    }
  }

  lemma {:induction false} SumOfPermutation<T(!new)>(a: seq<T>, b: seq<T>, w: T -> real)
    requires multiset(a) == multiset(b)
    ensures Sum(a, w) == Sum(b, w)
  {
    SameElementsSameSize(a, b);
    if a != [] {
      var n := |a| - 1;
      assert a == a[..n] + [a[n]];
      assert a[n] in multiset(b);
      var j :| 0 <= j < |b| && b[j] == a[n];
      assert multiset(b[..j] + b[j + 1..]) == multiset(a[..n]) by {
        assert b == b[..j] + [b[j]] + b[j + 1..];
        assert multiset(b[..j] + b[j + 1..]) == multiset(b) - multiset{b[j]};
        assert multiset(a[..n]) == multiset(a) - multiset{a[n]};
      }
      SumOfPermutation(a[..n], b[..j] + b[j + 1..], w);
      assert b == b[..j] + [b[j]] + b[j + 1..];
      SumMiddle(b[..j], b[j], b[j + 1..], w);
    }
  }

  lemma SumMiddle<T>(before: seq<T>, x: T, after: seq<T>, w: T -> real)
    ensures Sum(before + [x] + after, w) == Sum(before + after, w) + w(x)
  {
    SumAppend(before, after, w);
    SumAppend(before + [x], after, w);
    SumSnoc(before, x, w);
  }
}
