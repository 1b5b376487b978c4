/** What each reading of the restore time says, read off the given events. */
module RestoreReadings {
  import opened Attribution
  import opened Blame
  import opened Carriers
  import opened Distinct
  import opened DoraEvents
  import opened Folding
  import Grouping
  import opened Lists
  import opened Options
  import opened RateReadings
  import opened Restore
  import opened Sorting

  // ─── Which success ends a failure ───

  /** Strictly later: by date, and at one date by the order the deployments are given in. */
  ghost predicate IsLater(deployments: seq<Deployment>, x: Deployment, y: Deployment) {
    x.createdAt < y.createdAt || (x.createdAt == y.createdAt && Precedes(deployments, x, y))
  }

  /** A success of this slice, repository and environment. */
  predicate IsSuccessOf(s: Deployment, f: Deployment, deployments: seq<Deployment>) {
    s in deployments && s.status.Success? && s.dimensions == f.dimensions && s.repo == f.repo
    && s.environment == f.environment
  }

  /** The failure ends with the first success of its slice, repository and environment to follow it. */
  ghost predicate EndsWith(f: Deployment, s: Deployment, deployments: seq<Deployment>) {
    && f in deployments && f.status.Failed?
    && IsSuccessOf(s, f, deployments) && IsLater(deployments, f, s)
    && forall e :: IsSuccessOf(e, f, deployments) && IsLater(deployments, f, e) ==> e == s || IsLater(deployments, s, e)
  }

  lemma LaterIsOneWay(deployments: seq<Deployment>, x: Deployment, y: Deployment)
    requires NoDuplicates(deployments) && IsLater(deployments, x, y)
    ensures x != y && !IsLater(deployments, y, x)
  {
  }

  /** The group of one deployable of one slice, in order. */
  function GroupOf(deployments: seq<Deployment>, k: Dimensions, g: (string, string)): seq<Deployment> {
    Filter(Filter(deployments, Keyed(DeploymentDimensions, k)), Keyed(Deployable, g))
  }

  lemma GroupHolds(deployments: seq<Deployment>, k: Dimensions, g: (string, string))
    ensures forall d :: d in GroupOf(deployments, k, g) <==>
                        d in deployments && d.dimensions == k && (d.repo, d.environment) == g
  {
    DeploymentsHere(deployments, k);
    forall d ensures Keyed(Deployable, g)(d) <==> (d.repo, d.environment) == g {
      assert Deployable(d) == (d.repo, d.environment);
    }
  }

  lemma GroupKeepsOrder(deployments: seq<Deployment>, k: Dimensions, g: (string, string), x: Deployment, y: Deployment)
    requires Precedes(GroupOf(deployments, k, g), x, y)
    ensures Precedes(deployments, x, y)
  {
    var slice, group := Filter(deployments, Keyed(DeploymentDimensions, k)), GroupOf(deployments, k, g);
    var i, j :| 0 <= i < j < |group| && group[i] == x && group[j] == y;
    KeptKeepsOrder(slice, Keyed(Deployable, g), i, j);
    var a, b :| 0 <= a < b < |slice| && slice[a] == x && slice[b] == y;
    KeptKeepsOrder(deployments, Keyed(DeploymentDimensions, k), a, b);
  }

  function SortedGroup(deployments: seq<Deployment>, k: Dimensions, g: (string, string)): seq<Deployment> {
    Sort(GroupOf(deployments, k, g), CreatedAt)
  }

  lemma SortedIsLater(deployments: seq<Deployment>, k: Dimensions, g: (string, string), p: nat, q: nat)
    requires p < q < |SortedGroup(deployments, k, g)|
    ensures IsLater(deployments, SortedGroup(deployments, k, g)[p], SortedGroup(deployments, k, g)[q])
  {
    var sorted := SortedGroup(deployments, k, g);
    SortKeepsTies(GroupOf(deployments, k, g), CreatedAt, p, q);
    if CreatedAt(sorted[p]) == CreatedAt(sorted[q]) {
      GroupKeepsOrder(deployments, k, g, sorted[p], sorted[q]);
    }
  }

  /** Later in the order of the group is later among the deployments. */
  lemma PositionIffLater(deployments: seq<Deployment>, k: Dimensions, g: (string, string), p: nat, q: nat)
    requires NoDuplicates(deployments)
    requires p < |SortedGroup(deployments, k, g)| && q < |SortedGroup(deployments, k, g)|
    ensures p < q <==> IsLater(deployments, SortedGroup(deployments, k, g)[p], SortedGroup(deployments, k, g)[q])
  {
    var sorted := SortedGroup(deployments, k, g);
    if p < q {
      SortedIsLater(deployments, k, g, p, q);
    } else if q < p {
      SortedIsLater(deployments, k, g, q, p);
      LaterIsOneWay(deployments, sorted[q], sorted[p]);
    } else if IsLater(deployments, sorted[p], sorted[p]) {
      LaterIsOneWay(deployments, sorted[p], sorted[p]);
    }
  }

  /** The position holding the failure yields a sample exactly for the success it ends with. */
  lemma YieldsIffEnds(deployments: seq<Deployment>, f: Deployment, s: Deployment, i: nat)
    requires NoDuplicates(deployments)
    requires var sorted := SortedGroup(deployments, f.dimensions, (f.repo, f.environment));
      i < |sorted| && sorted[i] == f
    ensures Recovery(f, s) in RecoveryAt(SortedGroup(deployments, f.dimensions, (f.repo, f.environment)), i)
       <==> EndsWith(f, s, deployments)
  {
    var k, g := f.dimensions, (f.repo, f.environment);
    var sorted := SortedGroup(deployments, k, g);
    SuccessesInGroup(deployments, f);
    NextSuccessIsNearest(sorted, i + 1);
    var next := NextSuccess(sorted, i + 1);
    if next.Some? {
      NextIsFirst(deployments, f, i, next.value);
      if EndsWith(f, s, deployments) {
        assert sorted[next.value] in sorted;
        OnlyOneIsFirst(deployments, f, s, sorted[next.value]);
      }
    } else if IsSuccessOf(s, f, deployments) {
      NoneFollows(deployments, f, s, i);
    }
  }

  lemma NoneFollows(deployments: seq<Deployment>, f: Deployment, s: Deployment, i: nat)
    requires NoDuplicates(deployments) && IsSuccessOf(s, f, deployments)
    requires var sorted := SortedGroup(deployments, f.dimensions, (f.repo, f.environment));
      i < |sorted| && sorted[i] == f && forall j :: i < j < |sorted| ==> !sorted[j].status.Success?
    ensures !IsLater(deployments, f, s)
  {
    var sorted := SortedGroup(deployments, f.dimensions, (f.repo, f.environment));
    SuccessesInGroup(deployments, f);
    assert s in sorted;
    var n :| 0 <= n < |sorted| && sorted[n] == s;
    PositionIffLater(deployments, f.dimensions, (f.repo, f.environment), i, n);
  }

  lemma SuccessesInGroup(deployments: seq<Deployment>, f: Deployment)
    ensures var sorted := SortedGroup(deployments, f.dimensions, (f.repo, f.environment));
      forall e :: e in sorted <==> e in deployments && e.dimensions == f.dimensions && e.repo == f.repo
                                   && e.environment == f.environment
  {
    GroupHolds(deployments, f.dimensions, (f.repo, f.environment));
    SortSorts(GroupOf(deployments, f.dimensions, (f.repo, f.environment)), CreatedAt);
  }

  /** The success the search stops at is the first to follow. */
  lemma NextIsFirst(deployments: seq<Deployment>, f: Deployment, i: nat, n: nat)
    requires NoDuplicates(deployments)
    requires var sorted := SortedGroup(deployments, f.dimensions, (f.repo, f.environment));
      && i < n < |sorted| && sorted[i] == f && sorted[n].status.Success?
      && forall j :: i < j < n ==> !sorted[j].status.Success?
    ensures var s := SortedGroup(deployments, f.dimensions, (f.repo, f.environment))[n];
      && IsSuccessOf(s, f, deployments) && IsLater(deployments, f, s)
      && forall e :: IsSuccessOf(e, f, deployments) && IsLater(deployments, f, e) ==>
          e == s || IsLater(deployments, s, e)
  {
    var k, g := f.dimensions, (f.repo, f.environment);
    var sorted := SortedGroup(deployments, k, g);
    SuccessesInGroup(deployments, f);
    PositionIffLater(deployments, k, g, i, n);
    assert sorted[n] in sorted;
    forall e | IsSuccessOf(e, f, deployments) && IsLater(deployments, f, e)
      ensures e == sorted[n] || IsLater(deployments, sorted[n], e)
    {
      assert e in sorted;
      var m :| 0 <= m < |sorted| && sorted[m] == e;
      PositionIffLater(deployments, k, g, i, m);
      PositionIffLater(deployments, k, g, n, m);
    }
  }

  lemma OnlyOneIsFirst(deployments: seq<Deployment>, f: Deployment, s: Deployment, t: Deployment)
    requires NoDuplicates(deployments) && EndsWith(f, s, deployments)
    requires IsSuccessOf(t, f, deployments) && IsLater(deployments, f, t)
    requires forall e :: IsSuccessOf(e, f, deployments) && IsLater(deployments, f, e) ==>
        e == t || IsLater(deployments, t, e)
    ensures s == t
  {
    if s != t {
      LaterIsOneWay(deployments, s, t);
    }
  }

  // ─── The recoveries of a slice ───

  lemma {:induction false} YieldedUpTo(sorted: seq<Deployment>, n: nat)
    requires n <= |sorted| && NoDuplicates(sorted)
    ensures NoDuplicates(RecoveriesUpTo(sorted, n))
    ensures forall r :: r in RecoveriesUpTo(sorted, n) <==> exists i :: 0 <= i < n && r in RecoveryAt(sorted, i)
  {
    if n > 0 {
      YieldedUpTo(sorted, n - 1);
      var before, here := RecoveriesUpTo(sorted, n - 1), RecoveryAt(sorted, n - 1);
      forall r | r in before ensures r !in here {
        var i :| 0 <= i < n - 1 && r in RecoveryAt(sorted, i);
        assert r.failed == sorted[i] != sorted[n - 1];
      }
      AppendNoDuplicates(before, here);
    }
  }

  lemma SortedGroupOnce(deployments: seq<Deployment>, k: Dimensions, g: (string, string))
    requires NoDuplicates(deployments)
    ensures NoDuplicates(SortedGroup(deployments, k, g))
  {
    var sorted := SortedGroup(deployments, k, g);
    forall p, q | 0 <= p < q < |sorted| ensures sorted[p] != sorted[q] {
      SortedIsLater(deployments, k, g, p, q);
      LaterIsOneWay(deployments, sorted[p], sorted[q]);
    }
  }

  lemma InSortedGroup(deployments: seq<Deployment>, k: Dimensions, g: (string, string))
    ensures var sorted := SortedGroup(deployments, k, g);
      forall d :: d in sorted <==> d in deployments && d.dimensions == k && (d.repo, d.environment) == g
  {
    GroupHolds(deployments, k, g);
    SortSorts(GroupOf(deployments, k, g), CreatedAt);
  }

  /** The samples of one deployable: the failures of it that end, each with what it ends with. */
  lemma GroupYields(deployments: seq<Deployment>, k: Dimensions, g: (string, string), f: Deployment, s: Deployment)
    requires NoDuplicates(deployments)
    ensures var sorted := SortedGroup(deployments, k, g);
      Recovery(f, s) in RecoveriesUpTo(sorted, |sorted|)
      <==> f.dimensions == k && (f.repo, f.environment) == g && EndsWith(f, s, deployments)
  {
    YieldedEnds(deployments, k, g, f, s);
    if f.dimensions == k && (f.repo, f.environment) == g && EndsWith(f, s, deployments) {
      EndedIsYielded(deployments, f, s);
    }
  }

  lemma YieldedEnds(deployments: seq<Deployment>, k: Dimensions, g: (string, string), f: Deployment, s: Deployment)
    requires NoDuplicates(deployments)
    ensures var sorted := SortedGroup(deployments, k, g);
      Recovery(f, s) in RecoveriesUpTo(sorted, |sorted|) ==>
        f.dimensions == k && (f.repo, f.environment) == g && EndsWith(f, s, deployments)
  {
    var sorted := SortedGroup(deployments, k, g);
    if Recovery(f, s) in RecoveriesUpTo(sorted, |sorted|) {
      SortedGroupOnce(deployments, k, g);
      YieldedUpTo(sorted, |sorted|);
      var i :| 0 <= i < |sorted| && Recovery(f, s) in RecoveryAt(sorted, i);
      assert sorted[i] == f && f in sorted;
      InSortedGroup(deployments, k, g);
      YieldsIffEnds(deployments, f, s, i);
    }
  }

  lemma EndedIsYielded(deployments: seq<Deployment>, f: Deployment, s: Deployment)
    requires NoDuplicates(deployments) && EndsWith(f, s, deployments)
    ensures var sorted := SortedGroup(deployments, f.dimensions, (f.repo, f.environment));
      Recovery(f, s) in RecoveriesUpTo(sorted, |sorted|)
  {
    var k, g := f.dimensions, (f.repo, f.environment);
    var sorted := SortedGroup(deployments, k, g);
    InSortedGroup(deployments, k, g);
    assert f in sorted;
    var i :| 0 <= i < |sorted| && sorted[i] == f;
    YieldsIffEnds(deployments, f, s, i);
    SortedGroupOnce(deployments, k, g);
    YieldedUpTo(sorted, |sorted|);
  }

  /** A slice's recoveries are those of its deployables. */
  lemma SliceIsGroups(deployments: seq<Deployment>, k: Dimensions, g: (string, string))
    ensures var sorted := SortedGroup(deployments, k, g);
      RecoveriesOf(Filter(deployments, Keyed(DeploymentDimensions, k)))(g) == RecoveriesUpTo(sorted, |sorted|)
  {
  }

  lemma RecoveredOnce(deployments: seq<Deployment>, k: Dimensions)
    requires NoDuplicates(deployments)
    ensures NoDuplicates(SliceRecoveries(deployments)(k))
  {
    var here := Filter(deployments, Keyed(DeploymentDimensions, k));
    var groups := FirstSeen(here, Deployable);
    forall g | g in groups ensures NoDuplicates(RecoveriesOf(here)(g)) {
      SliceIsGroups(deployments, k, g);
      SortedGroupOnce(deployments, k, g);
      YieldedUpTo(SortedGroup(deployments, k, g), |SortedGroup(deployments, k, g)|);
    }
    forall g, h, r | g in groups && h in groups && r in RecoveriesOf(here)(g) && r in RecoveriesOf(here)(h)
      ensures g == h
    {
      SliceIsGroups(deployments, k, g);
      SliceIsGroups(deployments, k, h);
      GroupYields(deployments, k, g, r.failed, r.restored);
      GroupYields(deployments, k, h, r.failed, r.restored);
      assert r == Recovery(r.failed, r.restored);
    }
    FlatMapNoDuplicates(groups, RecoveriesOf(here));
  }

  /** A slice's recoveries: exactly its failures that end, each with what it ends with. */
  lemma RecoveredIff(deployments: seq<Deployment>, k: Dimensions, f: Deployment, s: Deployment)
    requires NoDuplicates(deployments)
    ensures Recovery(f, s) in SliceRecoveries(deployments)(k) <==> f.dimensions == k && EndsWith(f, s, deployments)
  {
    var here := Filter(deployments, Keyed(DeploymentDimensions, k));
    var groups := FirstSeen(here, Deployable);
    InFlatMap(groups, RecoveriesOf(here));
    forall g ensures Recovery(f, s) in RecoveriesOf(here)(g)
                <==> f.dimensions == k && (f.repo, f.environment) == g && EndsWith(f, s, deployments) {
      SliceIsGroups(deployments, k, g);
      GroupYields(deployments, k, g, f, s);
    }
    if f.dimensions == k && EndsWith(f, s, deployments) {
      DeploymentsHere(deployments, k);
      assert f in here && Deployable(f) in groups;
    }
  }

  // ─── The incidents of a slice ───

  predicate IsResolved(i: Incident) { i.resolvedAt.Some? }

  /** Seconds from opening to resolution, none where the dates run backwards. */
  lemma {:induction false} RestoreTimesOf(related: seq<Incident>)
    ensures var (times, resolved) := (FlatMap(related, RestoreTime), Kept(related, IsResolved));
      && |times| == |resolved|
      && forall j :: 0 <= j < |times| ==> IsRestoreTime(times[j], resolved[j])
  {
    if related != [] {
      RestoreTimesOf(related[..|related| - 1]);
    }
  }

  predicate IsRestoreTime(t: real, i: Incident) {
    && i.resolvedAt.Some?
    && t == if i.resolvedAt.value < i.openedAt then 0.0 else (i.resolvedAt.value - i.openedAt) as real / 1000.0
  }

  /**
   * The incidents a slice reads: of its dimensions and untraced, or traced to one of its
   * deployments where those are read.
   */
  ghost predicate IsReadIn(i: Incident, deployments: seq<Deployment>, incidents: seq<Incident>, source: FailureSource,
                           linked: Linked, k: Dimensions)
  {
    && i in incidents && !source.Pipelines?
    && ((source.Both? && IsTracedTo(i, linked, deployments, k)) || (!IsTraced(i, linked) && i.dimensions == k))
  }

  lemma RelatedReads(linked: Linked, incidents: seq<Incident>, prs: seq<MergedPr>, carriers: Carriers,
                     deployments: seq<Deployment>, source: FailureSource, k: Dimensions)
    requires NoDuplicates(deployments) && NoDuplicates(incidents) && IsLinked(linked, incidents, prs, carriers)
    ensures var related := MttrRelated(deployments, incidents, source, linked)(k);
      NoDuplicates(related) && forall i :: i in related <==> IsReadIn(i, deployments, incidents, source, linked, k)
  {
    var items := Deploys(deployments, source);
    if !source.Pipelines? {
      var untraced := Untraced(incidents, source, linked);
      assert untraced == Unattributed(incidents, linked);
      assert MttrRelated(deployments, incidents, source, linked)(k) == RelatedTo(items, untraced, linked)(k);
      RelatedAreThose(items, incidents, linked, prs, carriers, k);
      forall i ensures IsTracedTo(i, linked, items, k) <==> source.Both? && IsTracedTo(i, linked, deployments, k) {
        assert items == if source.Incidents? then [] else deployments;
      }
    } else {
      assert MttrRelated(deployments, incidents, source, linked)(k) == [];
    }
  }

  // ─── One reading ───

  ghost predicate AreRecoveries(recoveries: seq<Recovery>, deployments: seq<Deployment>, source: FailureSource,
                                k: Dimensions) {
    && NoDuplicates(recoveries)
    && forall f, s :: Recovery(f, s) in recoveries <==> !source.Incidents? && f.dimensions == k
                                                        && EndsWith(f, s, deployments)
  }

  ghost predicate AreResolved(resolved: seq<Incident>, deployments: seq<Deployment>, incidents: seq<Incident>,
                              source: FailureSource, linked: Linked, k: Dimensions)
  {
    && NoDuplicates(resolved)
    && forall i :: i in resolved <==> i.resolvedAt.Some? && IsReadIn(i, deployments, incidents, source, linked, k)
  }

  /** The seconds of each recovery, then of each incident. */
  predicate AreTimes(times: seq<real>, recoveries: seq<Recovery>, resolved: seq<Incident>) {
    && |times| == |recoveries| + |resolved|
    && (forall j :: 0 <= j < |recoveries| ==> IsDuration(times[j], recoveries[j]))
    && (forall j :: 0 <= j < |resolved| ==> IsRestoreTime(times[|recoveries| + j], resolved[j]))
  }

  predicate IsDuration(t: real, r: Recovery) {
    t == (r.restored.createdAt - r.failed.createdAt) as real / 1000.0
  }

  lemma SliceSamplesAre(linked: Linked, incidents: seq<Incident>, prs: seq<MergedPr>, carriers: Carriers,
                        deployments: seq<Deployment>, source: FailureSource, k: Dimensions)
    requires NoDuplicates(deployments) && NoDuplicates(incidents) && IsLinked(linked, incidents, prs, carriers)
    ensures var (recoveries, related) := (SliceRecoveries(Deploys(deployments, source))(k),
                                          MttrRelated(deployments, incidents, source, linked)(k));
      && AreRecoveries(recoveries, deployments, source, k)
      && AreResolved(Filter(related, IsResolved), deployments, incidents, source, linked, k)
      && AreTimes(SliceSamples(deployments, incidents, source, linked, k), recoveries, Filter(related, IsResolved))
  {
    var related := MttrRelated(deployments, incidents, source, linked)(k);
    RecoveredOnce(Deploys(deployments, source), k);
    forall f, s ensures Recovery(f, s) in SliceRecoveries(Deploys(deployments, source))(k)
                   <==> !source.Incidents? && f.dimensions == k && EndsWith(f, s, deployments) {
      RecoveredIff(Deploys(deployments, source), k, f, s);
    }
    RelatedReads(linked, incidents, prs, carriers, deployments, source, k);
    FilterNoDuplicates(related, IsResolved);
    RestoreTimesOf(related);
  }

  /**
   * What one reading of the restore time says: the failures of its slice that end,
   * each with its own deployable's next success, and the resolved incidents the
   * slice reads, once each; how many, how long each took, and the median of that.
   */
  lemma RestoreReads(linked: Linked, incidents: seq<Incident>, prs: seq<MergedPr>, carriers: Carriers,
                     deployments: seq<Deployment>, source: FailureSource, r: DoraResult)
    requires NoDuplicates(deployments) && NoDuplicates(incidents) && IsLinked(linked, incidents, prs, carriers)
    requires r in MttrOf(deployments, incidents, source, linked)
    ensures r.population.Some? && ReadsSamples(r, Mttr, r.population.value)
    ensures exists recoveries, resolved ::
      && AreTimes(r.population.value, recoveries, resolved)
      && AreRecoveries(recoveries, deployments, source, r.dimensions)
      && AreResolved(resolved, deployments, incidents, source, linked, r.dimensions)
  {
    SlicesReadEach(Mttr, Keys(deployments, incidents, source, linked),
                   MttrSamples(deployments, incidents, source, linked));
    SliceSamplesAre(linked, incidents, prs, carriers, deployments, source, r.dimensions);
  }

  /** A slice is read exactly where a failure of it ends or an incident it reads is resolved, and once. */
  lemma RestoredDimensions(linked: Linked, incidents: seq<Incident>, prs: seq<MergedPr>, carriers: Carriers,
                           deployments: seq<Deployment>, source: FailureSource, k: Dimensions)
    requires NoDuplicates(deployments) && NoDuplicates(incidents) && IsLinked(linked, incidents, prs, carriers)
    ensures ReadOnce(MttrOf(deployments, incidents, source, linked))
    ensures IsRead(MttrOf(deployments, incidents, source, linked), k)
       <==> (!source.Incidents?
             && exists f: Deployment, s: Deployment :: f.dimensions == k && EndsWith(f, s, deployments))
            || exists i: Incident :: i.resolvedAt.Some? && IsReadIn(i, deployments, incidents, source, linked, k)
  {
    var samples := MttrSamples(deployments, incidents, source, linked);
    SlicesReadEach(Mttr, Keys(deployments, incidents, source, linked), samples);
    SamplesHaveKeys(linked, incidents, deployments, source, k);
    assert samples(k) == SliceSamples(deployments, incidents, source, linked, k);
    SamplesIff(linked, incidents, prs, carriers, deployments, source, k);
  }

  lemma SamplesIff(linked: Linked, incidents: seq<Incident>, prs: seq<MergedPr>, carriers: Carriers,
                   deployments: seq<Deployment>, source: FailureSource, k: Dimensions)
    requires NoDuplicates(deployments) && NoDuplicates(incidents) && IsLinked(linked, incidents, prs, carriers)
    ensures SliceSamples(deployments, incidents, source, linked, k) != []
       <==> (!source.Incidents?
             && exists f: Deployment, s: Deployment :: f.dimensions == k && EndsWith(f, s, deployments))
            || exists i: Incident :: i.resolvedAt.Some? && IsReadIn(i, deployments, incidents, source, linked, k)
  {
    SliceSamplesAre(linked, incidents, prs, carriers, deployments, source, k);
    var recoveries := SliceRecoveries(Deploys(deployments, source))(k);
    var resolved := Filter(MttrRelated(deployments, incidents, source, linked)(k), IsResolved);
    assert recoveries != [] ==> Recovery(recoveries[0].failed, recoveries[0].restored) in recoveries;
    assert resolved != [] ==> resolved[0] in resolved;
  }

  lemma SamplesHaveKeys(linked: Linked, incidents: seq<Incident>, deployments: seq<Deployment>, source: FailureSource,
                        k: Dimensions)
    ensures k !in Keys(deployments, incidents, source, linked) ==>
        SliceSamples(deployments, incidents, source, linked, k) == []
  {
    if k !in Keys(deployments, incidents, source, linked) {
      var items, own := Deploys(deployments, source), Untraced(incidents, source, linked);
      NothingHere(items, own, linked, k);
      assert SliceRecoveries(items)(k) == [] && MttrRelated(deployments, incidents, source, linked)(k) == [];
    }
  }

  lemma NothingHere(items: seq<Deployment>, own: seq<Incident>, linked: Linked, k: Dimensions)
    requires k !in FirstSeen(items, DeploymentDimensions) && k !in FirstSeen(own, IncidentDimensions)
    ensures SliceRecoveries(items)(k) == [] && RelatedTo(items, own, linked)(k) == []
  {
    assert Filter(items, Keyed(DeploymentDimensions, k)) == [] by {
      Grouping.GroupsAreNotEmpty(items, DeploymentDimensions, k);
    }
    assert Filter(own, Keyed(IncidentDimensions, k)) == [] by {
      Grouping.GroupsAreNotEmpty(own, IncidentDimensions, k);
    }
    assert FirstSeen([], Deployable) == [];
    assert SliceRecoveries(items)(k) == Recoveries([]) == [];
  }
}

/** What each reading of the lead time and of the time to deploy says. */
module DeliveryReadings {
  import opened Carriers
  import opened DeployTimes
  import opened Distinct
  import opened DoraEvents
  import opened Folding
  import opened LeadTime
  import opened Lists
  import opened Options

  // ─── Segments of the lead time ───

  /** From one date to another, in seconds, none where they run backwards. */
  predicate IsSpan(t: real, from: int, to: int) {
    t == if to < from then 0.0 else (to - from) as real / 1000.0
  }

  predicate IsSegment(metric: Metric) {
    metric.CodingTime? || metric.PickupTime? || metric.ReviewTime? || metric.LeadTime?
  }

  /** The two dates a segment runs between. */
  predicate SpansSegment(t: real, metric: Metric, p: MergedPr) {
    match metric
    case CodingTime => p.firstCommitAt.Some? && IsSpan(t, p.firstCommitAt.value, p.openedAt)
    case PickupTime => p.firstReviewAt.Some? && IsSpan(t, p.openedAt, p.firstReviewAt.value)
    case ReviewTime => p.firstReviewAt.Some? && IsSpan(t, p.firstReviewAt.value, p.mergedAt)
    case LeadTime => p.firstCommitAt.Some? && IsSpan(t, p.firstCommitAt.value, p.mergedAt)
    case _ => false
  }

  /** The date a segment needs beside those every request has. */
  predicate StatesSegment(metric: Metric, p: MergedPr) {
    match metric
    case CodingTime => p.firstCommitAt.Some?
    case PickupTime => p.firstReviewAt.Some?
    case ReviewTime => p.firstReviewAt.Some?
    case LeadTime => p.firstCommitAt.Some?
    case _ => false
  }

  function Stating(metric: Metric): MergedPr -> bool { (p: MergedPr) => StatesSegment(metric, p) }

  lemma {:induction false} SegmentsSpan(items: seq<MergedPr>, metric: Metric)
    requires IsSegment(metric)
    ensures var (times, stating) := (FlatMap(items, Segment(metric)), Kept(items, Stating(metric)));
      && |times| == |stating|
      && forall j :: 0 <= j < |times| ==> SpansSegment(times[j], metric, stating[j])
  {
    if items != [] {
      var init, p := items[..|items| - 1], items[|items| - 1];
      SegmentsSpan(init, metric);
      OneSegment(p, metric);
      assert Kept(items, Stating(metric)) == Kept(init, Stating(metric)) + if Stating(metric)(p) then [p] else [];
    }
  }

  lemma OneSegment(p: MergedPr, metric: Metric)
    requires IsSegment(metric)
    ensures var times := Segment(metric)(p);
      if Stating(metric)(p) then |times| == 1 && SpansSegment(times[0], metric, p) else times == []
  {
  }

  /** The requests of these dimensions that state the segment's dates, once each. */
  ghost predicate AreStating(stating: seq<MergedPr>, prs: seq<MergedPr>, metric: Metric, k: Dimensions) {
    && NoDuplicates(stating)
    && forall p :: p in stating <==> p in prs && p.dimensions == k && StatesSegment(metric, p)
  }

  ghost predicate SpanEach(times: seq<real>, metric: Metric, prs: seq<MergedPr>) {
    |times| == |prs| && forall j :: 0 <= j < |times| ==> SpansSegment(times[j], metric, prs[j])
  }

  lemma GroupSpans(prs: seq<MergedPr>, metric: Metric, k: Dimensions)
    requires NoDuplicates(prs) && IsSegment(metric)
    ensures exists stating :: AreStating(stating, prs, metric, k)
                              && SpanEach(GroupSegments(prs, metric)(k), metric, stating)
  {
    var group := Filter(prs, Keyed(PrDimensions, k));
    var stating := Filter(group, Stating(metric));
    FilterNoDuplicates(prs, Keyed(PrDimensions, k));
    FilterNoDuplicates(group, Stating(metric));
    SegmentsSpan(group, metric);
    forall p ensures p in stating <==> p in prs && p.dimensions == k && StatesSegment(metric, p) {
      assert Keyed(PrDimensions, k)(p) <==> PrDimensions(p) == k;
    }
    assert AreStating(stating, prs, metric, k) && SpanEach(GroupSegments(prs, metric)(k), metric, stating);
  }

  lemma ReadsOneMetric(prs: seq<MergedPr>, r: DoraResult)
    requires r in LeadTimes(prs)
    ensures IsSegment(r.metric) && ReadsSamples(r, r.metric, GroupSegments(prs, r.metric)(r.dimensions))
  {
    var ks := FirstSeen(prs, PrDimensions);
    OneMetricOf(prs, ks, r.metric);
    SlicesReadEach(r.metric, ks, GroupSegments(prs, r.metric));
    assert Keyed(MetricOf, r.metric)(r) by { assert MetricOf(r) == r.metric; }
    assert r in Filter(LeadTimes(prs), Keyed(MetricOf, r.metric));
    FlatMapNothing(Filter(prs, Keyed(PrDimensions, r.dimensions)));
  }

  /**
   * What one reading of the lead time says: the requests of its dimensions that
   * state its dates, how many, how long each took between those, and the median.
   */
  lemma LeadTimeReads(prs: seq<MergedPr>, r: DoraResult)
    requires NoDuplicates(prs) && r in LeadTimes(prs)
    ensures IsSegment(r.metric) && r.population.Some? && ReadsSamples(r, r.metric, r.population.value)
    ensures exists stating :: AreStating(stating, prs, r.metric, r.dimensions)
                              && SpanEach(r.population.value, r.metric, stating)
  {
    ReadsOneMetric(prs, r);
    GroupSpans(prs, r.metric, r.dimensions);
  }

  /** A segment is read of exactly the dimensions of a request that states its dates, and once. */
  lemma LeadTimeDimensions(prs: seq<MergedPr>, metric: Metric, k: Dimensions)
    requires NoDuplicates(prs) && IsSegment(metric)
    ensures var readings := Filter(LeadTimes(prs), Keyed(MetricOf, metric));
      && ReadOnce(readings)
      && (IsRead(readings, k) <==> exists p :: p in prs && p.dimensions == k && StatesSegment(metric, p))
  {
    var ks := FirstSeen(prs, PrDimensions);
    OneMetricOf(prs, ks, metric);
    SlicesReadEach(metric, ks, GroupSegments(prs, metric));
    GroupSpans(prs, metric, k);
    var stating :| AreStating(stating, prs, metric, k) && SpanEach(GroupSegments(prs, metric)(k), metric, stating);
    if stating != [] {
      assert stating[0] in stating && PrDimensions(stating[0]) in ks;
    }
  }

  // ─── Time to deploy ───

  /** A request reaching one of the places its carriers name. */
  ghost predicate Lands(l: Landing, prs: seq<MergedPr>, carriers: Carriers) {
    l.pr in prs && l.pr in carriers && l.deployment in carriers[l.pr]
  }

  lemma LandingsAreThose(prs: seq<MergedPr>, carriers: Carriers, deployments: seq<Deployment>, key: Option<string>)
    requires NoDuplicates(prs) && IsCarriers(carriers, prs, deployments, key)
    ensures NoDuplicates(Landings(prs, carriers))
    ensures forall l :: l in Landings(prs, carriers) <==> Lands(l, prs, carriers)
  {
    InFlatMap(prs, LandingsFrom(carriers));
    forall pr, l
      ensures l in LandingsFrom(carriers)(pr) <==> l.pr == pr && pr in carriers && l.deployment in carriers[pr]
    {
      LandingsFromIff(carriers, pr, l);
    }
    forall pr | pr in prs ensures NoDuplicates(LandingsFrom(carriers)(pr)) {
      LandsOncePer(carriers, prs, deployments, key, pr);
    }
    FlatMapNoDuplicates(prs, LandingsFrom(carriers));
  }

  lemma LandingsFromIff(carriers: Carriers, pr: MergedPr, l: Landing)
    ensures l in LandingsFrom(carriers)(pr) <==> l.pr == pr && pr in carriers && l.deployment in carriers[pr]
  {
    if pr in carriers {
      var landings := LandingsFrom(carriers)(pr);
      assert landings == Map(carriers[pr], LandingFor(pr));
      if l.pr == pr && l.deployment in carriers[pr] {
        var i :| 0 <= i < |carriers[pr]| && carriers[pr][i] == l.deployment;
        assert landings[i] == LandingFor(pr)(carriers[pr][i]) == l;
      }
      if l in landings {
        var i :| 0 <= i < |landings| && landings[i] == l;
        assert landings[i] == LandingFor(pr)(carriers[pr][i]);
      }
    }
  }

  lemma LandsOncePer(carriers: Carriers, prs: seq<MergedPr>, deployments: seq<Deployment>, key: Option<string>,
                     pr: MergedPr)
    requires IsCarriers(carriers, prs, deployments, key)
    ensures NoDuplicates(LandingsFrom(carriers)(pr))
  {
    if pr in carriers {
      assert LandsExactly(carriers[pr], pr, deployments, key);
      forall i, j | 0 <= i < j < |carriers[pr]|
        ensures LandingFor(pr)(carriers[pr][i]) != LandingFor(pr)(carriers[pr][j])
      {
        assert carriers[pr][i].environment != carriers[pr][j].environment;
      }
      MapNoDuplicates(carriers[pr], LandingFor(pr));
    }
  }

  /** The landings on deployments of these dimensions, once each. */
  ghost predicate AreLandings(landings: seq<Landing>, prs: seq<MergedPr>, carriers: Carriers, k: Dimensions) {
    && NoDuplicates(landings)
    && forall l :: l in landings <==> Lands(l, prs, carriers) && l.deployment.dimensions == k
  }

  /** From each merge to the deployment that carried it. */
  ghost predicate SpanLandings(times: seq<real>, landings: seq<Landing>) {
    |times| == |landings|
    && forall j :: 0 <= j < |times| ==> IsSpan(times[j], landings[j].pr.mergedAt, landings[j].deployment.createdAt)
  }

  lemma GroupLandings(prs: seq<MergedPr>, carriers: Carriers, deployments: seq<Deployment>, key: Option<string>,
                      k: Dimensions)
    requires NoDuplicates(prs) && IsCarriers(carriers, prs, deployments, key)
    ensures var times := GroupValues(Landings(prs, carriers), LandingDimensions, LandingTime)(k);
      exists landings :: AreLandings(landings, prs, carriers, k) && SpanLandings(times, landings)
  {
    var all := Landings(prs, carriers);
    var group := Filter(all, Keyed(LandingDimensions, k));
    LandingsAreThose(prs, carriers, deployments, key);
    FilterNoDuplicates(all, Keyed(LandingDimensions, k));
    forall l ensures l in group <==> Lands(l, prs, carriers) && l.deployment.dimensions == k {
      assert Keyed(LandingDimensions, k)(l) <==> LandingDimensions(l) == k;
    }
    var times := GroupValues(all, LandingDimensions, LandingTime)(k);
    forall j | 0 <= j < |times| ensures IsSpan(times[j], group[j].pr.mergedAt, group[j].deployment.createdAt) {
      assert times[j] == LandingTime(group[j]);
    }
    assert AreLandings(group, prs, carriers, k) && SpanLandings(times, group);
  }

  /**
   * What one reading of the time to deploy says: the landings on deployments of
   * its dimensions, how many, how long each took since its merge, and the median.
   */
  lemma DeployTimeReads(prs: seq<MergedPr>, carriers: Carriers, deployments: seq<Deployment>, key: Option<string>,
                        r: DoraResult)
    requires NoDuplicates(prs) && IsCarriers(carriers, prs, deployments, key) && r in Slices(Landings(prs, carriers))
    ensures r.population.Some? && ReadsSamples(r, DeployTime, r.population.value)
    ensures exists landings :: AreLandings(landings, prs, carriers, r.dimensions)
                               && SpanLandings(r.population.value, landings)
  {
    var all := Landings(prs, carriers);
    SlicesReadEach(DeployTime, FirstSeen(all, LandingDimensions), GroupValues(all, LandingDimensions, LandingTime));
    GroupLandings(prs, carriers, deployments, key, r.dimensions);
  }

  /** It is read of exactly the dimensions of a deployment something landed with, and once. */
  lemma DeployTimeDimensions(prs: seq<MergedPr>, carriers: Carriers, deployments: seq<Deployment>, key: Option<string>,
                             k: Dimensions)
    requires NoDuplicates(prs) && IsCarriers(carriers, prs, deployments, key)
    ensures ReadOnce(Slices(Landings(prs, carriers)))
    ensures IsRead(Slices(Landings(prs, carriers)), k)
       <==> exists l :: Lands(l, prs, carriers) && l.deployment.dimensions == k
  {
    var all := Landings(prs, carriers);
    var values := GroupValues(all, LandingDimensions, LandingTime);
    SlicesReadEach(DeployTime, FirstSeen(all, LandingDimensions), values);
    GroupLandings(prs, carriers, deployments, key, k);
    var landings :| AreLandings(landings, prs, carriers, k) && SpanLandings(values(k), landings);
    LandingsAreThose(prs, carriers, deployments, key);
    if landings != [] {
      assert landings[0] in landings && LandingDimensions(landings[0]) in FirstSeen(all, LandingDimensions);
    }
  }
}
