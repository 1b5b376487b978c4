/** `deployTime` of back/src/dora/dora-metrics.ts: merge to the deployment that carried it. */
module DeployTimes {
  import opened Carriers
  import opened DoraEvents
  import opened Folding
  import opened Grouping
  import opened InsertionMaps
  import opened Lists
  import opened Options
  import opened Restore
  import opened Sorting
  import Sums

  /** A request reaching one environment. */
  datatype Landing = Landing(pr: MergedPr, deployment: Deployment)

  function LandingDimensions(l: Landing): Dimensions { l.deployment.dimensions }

  function LandingTime(l: Landing): real { Clamp(SecondsBetween(l.pr.mergedAt, l.deployment.createdAt)) }

  function LandingFor(pr: MergedPr): Deployment -> Landing { (d: Deployment) => Landing(pr, d) }

  function LandingsFrom(carriers: Carriers): MergedPr -> seq<Landing> {
    (pr: MergedPr) => if pr in carriers then Map(carriers[pr], LandingFor(pr)) else []
  }

  function Landings(prs: seq<MergedPr>, carriers: Carriers): seq<Landing> {
    FlatMap(prs, LandingsFrom(carriers))
  }

  type Buckets = InsertionMap<Dimensions, seq<real>>

  /** One bucket of times per dimensions of the deployments, in order of first appearance. */
  ghost predicate Times(m: Buckets, landings: seq<Landing>) {
    && m.Valid()
    && m.keys == FirstSeen(landings, LandingDimensions)
    && forall k :: k in m.at ==> m.at[k] == GroupValues(landings, LandingDimensions, LandingTime)(k)
  }

  function Held(m: Buckets, k: Dimensions): seq<real> { if k in m.at then m.at[k] else [] }

  function AddTime(m: Buckets, l: Landing): Buckets {
    m.Put(LandingDimensions(l), Held(m, LandingDimensions(l)) + [LandingTime(l)])
  }

  lemma {:induction false} ValuesSnoc(landings: seq<Landing>, l: Landing, k: Dimensions)
    ensures GroupValues(landings + [l], LandingDimensions, LandingTime)(k)
         == GroupValues(landings, LandingDimensions, LandingTime)(k)
          + if LandingDimensions(l) == k then [LandingTime(l)] else []
  {
    FilterSnoc(landings, l, Keyed(LandingDimensions, k));
  }

  lemma {:induction false} AddTimeKeeps(m: Buckets, landings: seq<Landing>, l: Landing)
    requires Times(m, landings)
    ensures Times(AddTime(m, l), landings + [l])
  {
    var k := LandingDimensions(l);
    FirstSeenSnoc(landings, l, LandingDimensions);
    assert Held(m, k) == GroupValues(landings, LandingDimensions, LandingTime)(k) by {
      GroupsAreNotEmpty(landings, LandingDimensions, k);
    }
    forall j | j in AddTime(m, l).at ensures AddTime(m, l).at[j]
    == GroupValues(landings + [l], LandingDimensions, LandingTime)(j) {
      ValuesSnoc(landings, l, j);
    }
  }

  method GatherFrom(held: Buckets, reached: seq<Landing>, ghost before: seq<Landing>) returns (buckets: Buckets)
    requires Times(held, before)
    ensures Times(buckets, before + reached)
  {
    buckets := held;
    AppendPrefix(before, reached, 0);
    for j := 0 to |reached|
      invariant Times(buckets, before + reached[..j])
    {
      AppendPrefix(before, reached, j + 1);
      AddTimeKeeps(buckets, before + reached[..j], reached[j]);
      buckets := AddTime(buckets, reached[j]);
    }
    AppendPrefix(before, reached, |reached|);
  }

  lemma AppendPrefix(a: seq<Landing>, b: seq<Landing>, j: nat)
    requires j <= |b|
    ensures a + b[..j] == if j == 0 then a else (a + b[..j - 1]) + [b[j - 1]]
    ensures j == |b| ==> a + b[..j] == a + b
  {
  }

  method Gather(prs: seq<MergedPr>, carriers: Carriers) returns (buckets: Buckets)
    ensures Times(buckets, Landings(prs, carriers))
  {
    buckets := EmptyMap();
    for i := 0 to |prs|
      invariant Times(buckets, Landings(prs[..i], carriers))
    {
      var reached := LandingsFrom(carriers)(prs[i]);
      buckets := GatherFrom(buckets, reached, Landings(prs[..i], carriers));
      FlatMapNext(prs, i, LandingsFrom(carriers));
    }
    assert prs[..|prs|] == prs;
  }

  /** The slices a window's landings measure. */
  function Slices(landings: seq<Landing>): seq<DoraResult> {
    FlatMap(FirstSeen(landings, LandingDimensions), MeasuredAt(DeployTime,
                                                               GroupValues(landings, LandingDimensions, LandingTime)))
  }

  method DeployTimeOf(prs: seq<MergedPr>, carriers: Carriers) returns (results: seq<DoraResult>)
    ensures results == Slices(Landings(prs, carriers))
  {
    var buckets := Gather(prs, carriers);
    results := Report(buckets);
    BucketsAreSlices(buckets, Landings(prs, carriers));
  }

  function In(m: Buckets): Dimensions -> seq<real> { (k: Dimensions) => Held(m, k) }

  method Report(buckets: Buckets) returns (results: seq<DoraResult>)
    ensures results == FlatMap(buckets.keys, MeasuredAt(DeployTime, In(buckets)))
  {
    results := [];
    for i := 0 to |buckets.keys|
      invariant results == FlatMap(buckets.keys[..i], MeasuredAt(DeployTime, In(buckets)))
    {
      FlatMapNext(buckets.keys, i, MeasuredAt(DeployTime, In(buckets)));
      results := results + Measured(DeployTime, buckets.keys[i], Held(buckets, buckets.keys[i]));
    }
    assert buckets.keys[..|buckets.keys|] == buckets.keys;
  }

  lemma {:induction false} BucketsAreSlices(buckets: Buckets, landings: seq<Landing>)
    requires Times(buckets, landings)
    ensures FlatMap(buckets.keys, MeasuredAt(DeployTime, In(buckets))) == Slices(landings)
  {
    var values := GroupValues(landings, LandingDimensions, LandingTime);
    forall k | k in buckets.keys ensures MeasuredAt(DeployTime, In(buckets))(k) == MeasuredAt(DeployTime, values)(k) {
      assert k in buckets.at;
    }
    FlatMapAgree(buckets.keys, MeasuredAt(DeployTime, In(buckets)), MeasuredAt(DeployTime, values));
  }

  /** The clamp never bites: a landing is never before the merge it carried. */
  lemma LandingTimesAreReal(prs: seq<MergedPr>, carriers: Carriers, deployments: seq<Deployment>, key: Option<string>,
                            l: Landing)
    requires IsCarriers(carriers, prs, deployments, key) && l in Landings(prs, carriers)
    ensures LandingTime(l) == SecondsBetween(l.pr.mergedAt, l.deployment.createdAt)
    ensures IsFirstLanding(l.deployment, l.pr, deployments, key)
  {
    InFlatMap(prs, LandingsFrom(carriers));
    var pr :| pr in prs && l in LandingsFrom(carriers)(pr);
    assert l.pr == pr && l.deployment in carriers[pr];
  }

  /**
   * Over all slices, time to deploy is the median of every landing's time, in
   * whatever order the requests were read and however deployments are classified.
   */
  lemma {:induction false} FoldedDeployTime(prs: seq<MergedPr>, carriers: Carriers, shuffled: seq<Landing>)
    requires multiset(shuffled) == multiset(Landings(prs, carriers))
    ensures FoldMetric(Slices(Landings(prs, carriers)))
      == if shuffled == [] then None
         else Some(DoraResult(DeployTime, Median(Map(shuffled, LandingTime)), Seconds, map[], |shuffled|, None))
  {
    var landings := Landings(prs, carriers);
    GroupingKeepsValues(landings, LandingDimensions, LandingTime);
    MapOfPermutation(landings, shuffled, LandingTime);
    FoldOfSlices(DeployTime, FirstSeen(landings, LandingDimensions),
                 GroupValues(landings, LandingDimensions, LandingTime), Map(shuffled, LandingTime));
    SameElementsSameSize(shuffled, landings);
  }

  lemma MapOfPermutation<T(!new)>(a: seq<T>, b: seq<T>, f: T -> real)
    requires multiset(a) == multiset(b)
    ensures multiset(Map(a, f)) == multiset(Map(b, f))
  {
    forall v ensures Sums.Sum(Map(a, f), Sums.Is(v)) == Sums.Sum(Map(b, f), Sums.Is(v)) {
      Sums.SumMap(a, f, Sums.Is(v));
      Sums.SumMap(b, f, Sums.Is(v));
      SumOfPermutation(a, b, Sums.After(f, Sums.Is(v)));
    }
    Sums.SameSumsSameElements(Map(a, f), Map(b, f));
  }
}
