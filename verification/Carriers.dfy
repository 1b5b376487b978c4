/** The events of back/src/dora/dora-metrics.ts, dates as milliseconds. */
module DoraEvents {
  import opened Options

  type Dimensions = map<string, string>

  datatype Status = Success | Failed | Other

  /** `id` is the object's identity, by which events are told apart as map keys. */
  datatype Deployment = Deployment(
    id: nat,
    environment: string,
    repo: string,
    status: Status,
    createdAt: int,
    dimensions: Dimensions
  )

  datatype Ticket = Ticket(tracker: string, key: string)

  datatype Incident = Incident(
    id: nat,
    openedAt: int,
    resolvedAt: Option<int>,
    tickets: seq<Ticket>,
    dimensions: Dimensions
  )

  datatype MergedPr = MergedPr(
    id: nat,
    repo: string,
    openedAt: int,
    mergedAt: int,
    firstCommitAt: Option<int>,
    firstReviewAt: Option<int>,
    tickets: seq<Ticket>,
    dimensions: Dimensions
  )

  function CreatedAt(d: Deployment): real { d.createdAt as real }

  function SecondsBetween(from: int, to: int): real { (to - from) as real / 1000.0 }

  /** Dates that run backwards measure nothing. */
  function Clamp(x: real): real { if x < 0.0 then 0.0 else x }

  function DeploymentDimensions(d: Deployment): Dimensions { d.dimensions }

  function IncidentDimensions(i: Incident): Dimensions { i.dimensions }
}

/**
 * Which deployment carried which merged request: the indexed correlation of
 * back/src/dora/dora-metrics.ts against the plain statement of what it finds.
 */
module Carriers {
  import opened DoraEvents
  import opened InsertionMaps
  import opened Lists
  import opened Options
  import opened Sorting

  type Carriers = map<MergedPr, seq<Deployment>>

  // ─── What the correlation means ───

  /** An empty key designates nothing, like none. */
  predicate Designated(key: Option<string>) {
    key.Some? && key.value != ""
  }

  function Component(key: Option<string>, dimensions: Dimensions): Option<string> {
    if Designated(key) then Get(dimensions, key.value) else None
  }

  predicate SameComponent(key: Option<string>, pr: Dimensions, deployment: Dimensions) {
    var left, right := Component(key, pr), Component(key, deployment);
    left.None? || right.None? || left == right
  }

  /** A success of the request's repository, no older than its merge, of its deployable. */
  predicate Eligible(d: Deployment, pr: MergedPr, deployments: seq<Deployment>, key: Option<string>) {
    && d in deployments
    && d.status.Success?
    && d.repo == pr.repo
    && pr.mergedAt <= d.createdAt
    && SameComponent(key, pr.dimensions, d.dimensions)
  }

  /** Eligibility spelled out: where both name a component under the key designated, it is the same one. */
  lemma EligibleMeans(d: Deployment, pr: MergedPr, deployments: seq<Deployment>, key: Option<string>)
    ensures Eligible(d, pr, deployments, key) <==>
            d in deployments && d.status == Success && d.repo == pr.repo && pr.mergedAt <= d.createdAt
            && (key.Some? && key.value != "" && key.value in pr.dimensions && key.value in d.dimensions ==>
                pr.dimensions[key.value] == d.dimensions[key.value])
  {
  }

  ghost predicate IsFirstLanding(d: Deployment, pr: MergedPr, deployments: seq<Deployment>, key: Option<string>) {
    && Eligible(d, pr, deployments, key)
    && forall e :: Eligible(e, pr, deployments, key) && e.environment == d.environment ==> d.createdAt <= e.createdAt
  }

  ghost predicate Reaches(landings: seq<Deployment>, environment: string) {
    exists l :: l in landings && l.environment == environment
  }

  /** One landing per environment that something eligible reached, and the earliest there. */
  ghost predicate LandsExactly(landings: seq<Deployment>, pr: MergedPr, deployments: seq<Deployment>,
                               key: Option<string>) {
    && (forall i, j :: 0 <= i < j < |landings| ==> landings[i].environment != landings[j].environment)
    && (forall l :: l in landings ==> IsFirstLanding(l, pr, deployments, key))
    && (forall d :: Eligible(d, pr, deployments, key) ==> Reaches(landings, d.environment))
  }

  ghost predicate IsCarriers(carriers: Carriers, prs: seq<MergedPr>, deployments: seq<Deployment>,
                             key: Option<string>) {
    && (forall pr :: pr in carriers <==> pr in prs && exists d :: Eligible(d, pr, deployments, key))
    && (forall pr :: pr in carriers ==> LandsExactly(carriers[pr], pr, deployments, key))
  }

  // ─── Which landing, and in what order ───

  function EnvironmentOf(d: Deployment): string { d.environment }

  function SuccessIn(repo: string): Deployment -> bool { (d: Deployment) => d.status.Success? && d.repo == repo }

  /** The environments a repository shipped to, in order of first success. */
  function EnvironmentsOf(deployments: seq<Deployment>, repo: string): seq<string> {
    FirstSeen(Filter(deployments, SuccessIn(repo)), EnvironmentOf)
  }

  predicate LandsIn(environment: string, pr: MergedPr, deployments: seq<Deployment>, key: Option<string>) {
    exists d :: d in deployments && Eligible(d, pr, deployments, key) && d.environment == environment
  }

  function Reached(pr: MergedPr, deployments: seq<Deployment>, key: Option<string>): string -> bool {
    (environment: string) => LandsIn(environment, pr, deployments, key)
  }

  /** What may have carried the request to one environment: those stating its component, then those stating none. */
  function Candidates(pr: MergedPr, environment: string, deployments: seq<Deployment>,
                      key: Option<string>): seq<Deployment> {
    var component := Component(key, pr.dimensions);
    if component.None? then Filter(deployments, SuccessOf(pr.repo, environment))
    else Filter(deployments, Stating(pr.repo, environment, key, component))
         + Filter(deployments, Stating(pr.repo, environment, key, None))
  }

  /** Of those not before the instant, the first of those dated earliest. */
  predicate IsPickedAt(i: int, run: seq<Deployment>, at: int) {
    && 0 <= i < |run| && at <= run[i].createdAt
    && (forall j :: 0 <= j < i && at <= run[j].createdAt ==> run[i].createdAt < run[j].createdAt)
    && (forall j :: i < j < |run| && at <= run[j].createdAt ==> run[i].createdAt <= run[j].createdAt)
  }

  ghost predicate IsPicked(d: Deployment, run: seq<Deployment>, at: int) {
    exists i :: IsPickedAt(i, run, at) && run[i] == d
  }

  ghost predicate IsPickedThere(landing: Deployment, pr: MergedPr, deployments: seq<Deployment>, key: Option<string>) {
    IsPicked(landing, Candidates(pr, landing.environment, deployments, key), pr.mergedAt)
  }

  /** The landings follow the environments walked, each the one picked there. */
  ghost predicate InOrder(landings: seq<Deployment>, walked: seq<string>, pr: MergedPr, deployments: seq<Deployment>,
                          key: Option<string>) {
    && Map(landings, EnvironmentOf) == Filter(walked, Reached(pr, deployments, key))
    && forall i :: 0 <= i < |landings| ==> IsPickedThere(landings[i], pr, deployments, key)
  }

  ghost predicate IsOrdered(carriers: Carriers, deployments: seq<Deployment>, key: Option<string>) {
    forall pr :: pr in carriers ==> InOrder(carriers[pr], EnvironmentsOf(deployments, pr.repo), pr, deployments, key)
  }

  /** Nothing is left open: the landings of a request are determined, ties and order included. */
  lemma LandingsAreDetermined(a: seq<Deployment>, b: seq<Deployment>, walked: seq<string>, pr: MergedPr,
                              deployments: seq<Deployment>, key: Option<string>)
    requires InOrder(a, walked, pr, deployments, key) && InOrder(b, walked, pr, deployments, key)
    ensures a == b
  {
    assert |a| == |Map(a, EnvironmentOf)| == |Map(b, EnvironmentOf)| == |b|;
    forall i | 0 <= i < |a| ensures a[i] == b[i] {
      assert Map(a, EnvironmentOf)[i] == EnvironmentOf(a[i]) && Map(b, EnvironmentOf)[i] == EnvironmentOf(b[i]);
      PickedOnce(Candidates(pr, a[i].environment, deployments, key), pr.mergedAt, a[i], b[i]);
    }
  }

  lemma PickedOnce(run: seq<Deployment>, at: int, a: Deployment, b: Deployment)
    requires IsPicked(a, run, at) && IsPicked(b, run, at)
    ensures a == b
  {
    var i :| IsPickedAt(i, run, at) && run[i] == a;
    var j :| IsPickedAt(j, run, at) && run[j] == b;
  }

  // ─── The index ───

  datatype EnvironmentTimeline = EnvironmentTimeline(
    all: seq<Deployment>,
    byComponent: map<string, seq<Deployment>>,
    silent: seq<Deployment>
  )

  type Timeline = map<string, InsertionMap<string, EnvironmentTimeline>>

  function SuccessOf(repo: string, environment: string): Deployment -> bool {
    (d: Deployment) => d.status.Success? && d.repo == repo && d.environment == environment
  }

  function Stating(repo: string, environment: string, key: Option<string>,
                   component: Option<string>): Deployment -> bool {
    (d: Deployment) => SuccessOf(repo, environment)(d) && Component(key, d.dimensions) == component
  }

  function Listed(t: EnvironmentTimeline, component: string): seq<Deployment> {
    if component in t.byComponent then t.byComponent[component] else []
  }

  function Arranged(s: seq<Deployment>, inOrder: bool): seq<Deployment> {
    if inOrder then Sort(s, CreatedAt) else s
  }

  ghost predicate IndexesEnvironment(t: EnvironmentTimeline, deployments: seq<Deployment>, key: Option<string>,
                                     repo: string, environment: string, inOrder: bool)
  {
    && t.all == Arranged(Filter(deployments, SuccessOf(repo, environment)), inOrder)
    && if Designated(key) then
         && t.silent == Arranged(Filter(deployments, Stating(repo, environment, key, None)), inOrder)
         && (forall c :: Listed(t, c) == Arranged(Filter(deployments, Stating(repo, environment, key, Some(c))),
                                                  inOrder))
       else t.byComponent == map[] && t.silent == []
  }

  const EMPTY_TIMELINE := EnvironmentTimeline([], map[], [])

  function At(timeline: Timeline, repo: string, environment: string): EnvironmentTimeline {
    if repo in timeline && environment in timeline[repo].at then timeline[repo].at[environment] else EMPTY_TIMELINE
  }

  function KeysOf(timeline: Timeline, repo: string): seq<string> {
    if repo in timeline then timeline[repo].keys else []
  }

  /** The timeline lists exactly the successes of each place, `inOrder` once sorted. */
  ghost predicate Indexes(timeline: Timeline, deployments: seq<Deployment>, key: Option<string>, inOrder: bool) {
    && (forall repo :: repo in timeline ==> timeline[repo].Valid())
    && (forall repo :: KeysOf(timeline, repo) == EnvironmentsOf(deployments, repo))
    && (forall repo, environment :: IndexesEnvironment(At(timeline, repo, environment), deployments, key, repo,
                                                       environment, inOrder))
  }

  /** One success pushed onto its lists, creating the ones that are missing. */
  function PushOnto(t: EnvironmentTimeline, d: Deployment, key: Option<string>): EnvironmentTimeline {
    var pushed := t.(all := t.all + [d]);
    if !Designated(key) then pushed
    else
      match Component(key, d.dimensions)
      case None => pushed.(silent := t.silent + [d])
      case Some(c) =>
        pushed.(byComponent := t.byComponent[c := Listed(t, c) + [d]])
  }

  function Push(timeline: Timeline, d: Deployment, key: Option<string>): Timeline {
    var environments := if d.repo in timeline then timeline[d.repo] else EmptyMap();
    timeline[d.repo := environments.Put(d.environment, PushOnto(At(timeline, d.repo, d.environment), d, key))]
  }

  /** One place after one more deployment, which may not be of it. */
  function PushedOnto(t: EnvironmentTimeline, d: Deployment, key: Option<string>, repo: string,
                      environment: string): EnvironmentTimeline {
    if SuccessOf(repo, environment)(d) then PushOnto(t, d, key) else t
  }

  lemma AllPushed(t: EnvironmentTimeline, deployments: seq<Deployment>, i: nat, key: Option<string>, repo: string,
                  environment: string)
    requires i < |deployments| && t.all == Filter(deployments[..i], SuccessOf(repo, environment))
    ensures PushedOnto(t, deployments[i], key, repo, environment).all
            == Filter(deployments[..i + 1], SuccessOf(repo, environment))
  {
    FilterNext(deployments, i, SuccessOf(repo, environment));
  }

  lemma SilentPushed(t: EnvironmentTimeline, deployments: seq<Deployment>, i: nat, key: Option<string>, repo: string,
                     environment: string)
    requires i < |deployments| && Designated(key)
    requires t.silent == Filter(deployments[..i], Stating(repo, environment, key, None))
    ensures PushedOnto(t, deployments[i], key, repo, environment).silent
            == Filter(deployments[..i + 1], Stating(repo, environment, key, None))
  {
    FilterNext(deployments, i, Stating(repo, environment, key, None));
  }

  lemma StatedPushed(t: EnvironmentTimeline, deployments: seq<Deployment>, i: nat, key: Option<string>, repo: string,
                     environment: string, c: string)
    requires i < |deployments| && Designated(key)
    requires Listed(t, c) == Filter(deployments[..i], Stating(repo, environment, key, Some(c)))
    ensures Listed(PushedOnto(t, deployments[i], key, repo, environment), c)
         == Filter(deployments[..i + 1], Stating(repo, environment, key, Some(c)))
  {
    FilterNext(deployments, i, Stating(repo, environment, key, Some(c)));
  }

  lemma PushOntoIndexes(t: EnvironmentTimeline, deployments: seq<Deployment>, i: nat, key: Option<string>,
                        repo: string, environment: string)
    requires i < |deployments| && IndexesEnvironment(t, deployments[..i], key, repo, environment, false)
    ensures IndexesEnvironment(PushedOnto(t, deployments[i], key, repo, environment), deployments[..i + 1], key, repo,
                               environment, false)
  {
    AllPushed(t, deployments, i, key, repo, environment);
    if Designated(key) {
      SilentPushed(t, deployments, i, key, repo, environment);
      forall c ensures Listed(PushedOnto(t, deployments[i], key, repo, environment), c)
                    == Filter(deployments[..i + 1], Stating(repo, environment, key, Some(c)))
      {
        assert Listed(t, c) == Arranged(Filter(deployments[..i], Stating(repo, environment, key, Some(c))), false);
        StatedPushed(t, deployments, i, key, repo, environment, c);
      }
    }
  }

  /** Successes only: nothing else can carry a request. */
  function Pushed(timeline: Timeline, d: Deployment, key: Option<string>): Timeline {
    if d.status.Success? then Push(timeline, d, key) else timeline
  }

  lemma PushedAt(timeline: Timeline, d: Deployment, key: Option<string>, repo: string, environment: string)
    ensures At(Pushed(timeline, d, key), repo, environment)
            == PushedOnto(At(timeline, repo, environment), d, key, repo, environment)
  {
  }

  lemma PushedIsValid(timeline: Timeline, d: Deployment, key: Option<string>)
    requires forall repo :: repo in timeline ==> timeline[repo].Valid()
    ensures var next := Pushed(timeline, d, key); forall repo :: repo in next ==> next[repo].Valid()
  {
  }

  /** A repository's environments stay in order of first success. */
  lemma KeysPushed(timeline: Timeline, deployments: seq<Deployment>, i: nat, key: Option<string>, repo: string)
    requires i < |deployments| && (repo in timeline ==> timeline[repo].Valid())
    requires KeysOf(timeline, repo) == EnvironmentsOf(deployments[..i], repo)
    ensures KeysOf(Pushed(timeline, deployments[i], key), repo) == EnvironmentsOf(deployments[..i + 1], repo)
  {
    EnvironmentsNext(deployments, i, repo);
    PushedKeys(timeline, deployments[i], key, repo);
  }

  function WithName(names: seq<string>, name: string): seq<string> { if name in names then names else names + [name] }

  lemma EnvironmentsNext(deployments: seq<Deployment>, i: nat, repo: string)
    requires i < |deployments|
    ensures var (d, before) := (deployments[i], EnvironmentsOf(deployments[..i], repo));
      EnvironmentsOf(deployments[..i + 1], repo) == if SuccessIn(repo)(d) then WithName(before, d.environment)
                                                    else before
  {
    var before := Filter(deployments[..i], SuccessIn(repo));
    assert Filter(deployments[..i + 1], SuccessIn(repo))
           == if SuccessIn(repo)(deployments[i]) then before + [deployments[i]] else before by {
      FilterNext(deployments, i, SuccessIn(repo));
    }
    FirstSeenSnoc(before, deployments[i], EnvironmentOf);
  }

  lemma PushedKeys(timeline: Timeline, d: Deployment, key: Option<string>, repo: string)
    requires repo in timeline ==> timeline[repo].Valid()
    ensures var before := KeysOf(timeline, repo);
      KeysOf(Pushed(timeline, d, key), repo) == if SuccessIn(repo)(d) then WithName(before, d.environment) else before
  {
  }

  lemma PushIndexes(timeline: Timeline, deployments: seq<Deployment>, i: nat, key: Option<string>)
    requires i < |deployments| && Indexes(timeline, deployments[..i], key, false)
    ensures Indexes(Pushed(timeline, deployments[i], key), deployments[..i + 1], key, false)
  {
    var d := deployments[i];
    PushedIsValid(timeline, d, key);
    forall repo ensures KeysOf(Pushed(timeline, d, key), repo) == EnvironmentsOf(deployments[..i + 1], repo) {
      KeysPushed(timeline, deployments, i, key, repo);
    }
    forall repo, environment
      ensures IndexesEnvironment(At(Pushed(timeline, d, key), repo, environment), deployments[..i + 1], key, repo,
                                 environment, false)
    {
      assert IndexesEnvironment(At(timeline, repo, environment), deployments[..i], key, repo, environment, false);
      PushedAt(timeline, d, key, repo, environment);
      PushOntoIndexes(At(timeline, repo, environment), deployments, i, key, repo, environment);
    }
  }

  function SortedLists(t: EnvironmentTimeline): EnvironmentTimeline {
    EnvironmentTimeline(
      Sort(t.all, CreatedAt),
      map c | c in t.byComponent :: Sort(t.byComponent[c], CreatedAt),
      Sort(t.silent, CreatedAt))
  }

  method SuccessTimeline(deployments: seq<Deployment>, key: Option<string>) returns (timeline: Timeline)
    ensures Indexes(timeline, deployments, key, true)
  {
    timeline := map[];
    for i := 0 to |deployments|
      invariant Indexes(timeline, deployments[..i], key, false)
    {
      PushIndexes(timeline, deployments, i, key);
      timeline := Pushed(timeline, deployments[i], key);
    }
    assert deployments[..|deployments|] == deployments;
    ghost var unsorted := timeline;
    assert forall repo :: KeysOf(unsorted, repo) == EnvironmentsOf(deployments, repo);
    timeline := map repo | repo in timeline ::
      InsertionMap(timeline[repo].keys, map e | e in timeline[repo].at :: SortedLists(timeline[repo].at[e]));
    forall repo ensures KeysOf(timeline, repo) == EnvironmentsOf(deployments, repo) {
      assert KeysOf(timeline, repo) == KeysOf(unsorted, repo);
    }
    forall repo, environment
      ensures IndexesEnvironment(At(timeline, repo, environment), deployments, key, repo, environment, true)
    {
      SortedIndexes(At(unsorted, repo, environment), deployments, key, repo, environment);
      assert At(timeline, repo, environment) == SortedLists(At(unsorted, repo, environment));
    }
  }

  lemma SortedIndexes(t: EnvironmentTimeline, deployments: seq<Deployment>, key: Option<string>, repo: string,
                      environment: string)
    requires IndexesEnvironment(t, deployments, key, repo, environment, false)
    ensures IndexesEnvironment(SortedLists(t), deployments, key, repo, environment, true)
  {
  }

  // ─── The correlation ───

  /** `r` is the oldest of the run that is not older than `at`, if any is not. */
  ghost predicate IsFirstAfter(r: Option<Deployment>, run: seq<Deployment>, at: int) {
    match r
    case None => forall d :: d in run ==> d.createdAt < at
    case Some(d) => d in run && at <= d.createdAt && forall e :: e in run && at <= e.createdAt ==>
        d.createdAt <= e.createdAt
  }

  method FirstAfter(sorted: seq<Deployment>, at: int) returns (r: Option<Deployment>)
    requires Ascending(sorted, CreatedAt)
    ensures IsFirstAfter(r, sorted, at)
    ensures r.Some? ==> exists k :: StartsAt(k, sorted, at) && sorted[k] == r.value
  {
    var low, high := 0, |sorted|;
    while low < high
      invariant 0 <= low <= high <= |sorted|
      invariant forall i :: 0 <= i < low ==> sorted[i].createdAt < at
      invariant forall i :: high <= i < |sorted| ==> at <= sorted[i].createdAt
    {
      var mid := (low + high) / 2;
      assert forall i :: 0 <= i < mid ==> CreatedAt(sorted[i]) <= CreatedAt(sorted[mid]);
      assert forall i :: mid < i < |sorted| ==> CreatedAt(sorted[mid]) <= CreatedAt(sorted[i]);
      if sorted[mid].createdAt < at {
        low := mid + 1;
      } else {
        high := mid;
      }
    }
    assert forall i :: low < i < |sorted| ==> CreatedAt(sorted[low]) <= CreatedAt(sorted[i]);
    if low < |sorted| {
      assert StartsAt(low, sorted, at);
      return Some(sorted[low]);
    }
    r := None;
  }

  /** Everything before `k` is older than the instant, and it is not. */
  predicate StartsAt(k: int, sorted: seq<Deployment>, at: int) {
    0 <= k < |sorted| && at <= sorted[k].createdAt && forall j :: 0 <= j < k ==> sorted[j].createdAt < at
  }

  /** What the search finds in the sorted list is picked from the list as it was: the sort is stable. */
  lemma FoundIsPicked(run: seq<Deployment>, at: int, k: int)
    requires StartsAt(k, Sort(run, CreatedAt), at)
    requires IsFirstAfter(Some(Sort(run, CreatedAt)[k]), run, at)
    ensures IsPicked(Sort(run, CreatedAt)[k], run, at)
  {
    var d := Sort(run, CreatedAt)[k];
    FoundIsFirstOfItsDate(Sort(run, CreatedAt), at, k);
    SortIsStable(run, CreatedAt, CreatedAt(d));
    FirstOfItsDateIsPicked(run, at, d);
  }

  lemma FoundIsFirstOfItsDate(sorted: seq<Deployment>, at: int, k: int)
    requires StartsAt(k, sorted, at)
    ensures var kept := Filter(sorted, OfRank(CreatedAt, CreatedAt(sorted[k]))); kept != [] && kept[0] == sorted[k]
  {
    var sameDate := OfRank(CreatedAt, CreatedAt(sorted[k]));
    forall j | 0 <= j < k ensures !sameDate(sorted[j]) {
      assert CreatedAt(sorted[j]) < CreatedAt(sorted[k]);
    }
    FirstKept(sorted, sameDate, k);
  }

  lemma FirstOfItsDateIsPicked(run: seq<Deployment>, at: int, d: Deployment)
    requires at <= d.createdAt && forall e :: e in run && at <= e.createdAt ==> d.createdAt <= e.createdAt
    requires var kept := Filter(run, OfRank(CreatedAt, CreatedAt(d))); kept != [] && kept[0] == d
    ensures IsPicked(d, run, at)
  {
    var sameDate := OfRank(CreatedAt, CreatedAt(d));
    FilterBegins(run, sameDate);
    var i :| 0 <= i < |run| && IsFirstKept(run, sameDate, i);
    forall j | 0 <= j < |run| && at <= run[j].createdAt
      ensures d.createdAt <= run[j].createdAt && (j < i ==> run[j].createdAt != d.createdAt)
    {
      assert run[j] in run;
      assert j < i ==> !sameDate(run[j]);
    }
    assert IsPickedAt(i, run, at);
  }

  function Earlier(a: Option<Deployment>, b: Option<Deployment>): Option<Deployment> {
    if a.None? then b
    else if b.None? then a
    else if a.value.createdAt <= b.value.createdAt then a else b
  }

  /** A sorted list of the index holds what its test selects. */
  lemma ListHolds(deployments: seq<Deployment>, test: Deployment -> bool)
    ensures var run := Arranged(Filter(deployments, test), true);
      Ascending(run, CreatedAt) && forall d :: d in run <==> d in deployments && test(d)
  {
    SortSorts(Filter(deployments, test), CreatedAt);
  }

  /** The lists of one environment that a request with this component reads. */
  function RunsFor(t: EnvironmentTimeline, component: Option<string>): (seq<Deployment>, seq<Deployment>) {
    if component.None? then (t.all, []) else (Listed(t, component.value), t.silent)
  }

  /** Who is eligible at one environment, read off its lists. */
  ghost predicate RunsHoldEligible(stated: seq<Deployment>, silent: seq<Deployment>, pr: MergedPr,
                                   deployments: seq<Deployment>,
                                   key: Option<string>, environment: string)
  {
    && Ascending(stated, CreatedAt) && Ascending(silent, CreatedAt)
    && forall d :: (Eligible(d, pr, deployments, key) && d.environment == environment)
              <==> pr.mergedAt <= d.createdAt && (d in stated || d in silent)
  }

  lemma EligibleInRuns(t: EnvironmentTimeline, pr: MergedPr, deployments: seq<Deployment>, key: Option<string>,
                       environment: string)
    requires IndexesEnvironment(t, deployments, key, pr.repo, environment, true)
    ensures var (stated, silent) := RunsFor(t, Component(key, pr.dimensions));
      RunsHoldEligible(stated, silent, pr, deployments, key, environment)
  {
    match Component(key, pr.dimensions)
    case None =>
      EligibleInAll(pr, deployments, key, environment);
    case Some(c) =>
      assert Listed(t, c) == Arranged(Filter(deployments, Stating(pr.repo, environment, key, Some(c))), true);
      EligibleInStated(pr, deployments, key, environment, c);
  }

  lemma EligibleInAll(pr: MergedPr, deployments: seq<Deployment>, key: Option<string>, environment: string)
    requires Component(key, pr.dimensions).None?
    ensures RunsHoldEligible(Arranged(Filter(deployments, SuccessOf(pr.repo, environment)), true), [], pr, deployments,
                             key, environment)
  {
    ListHolds(deployments, SuccessOf(pr.repo, environment));
  }

  lemma EligibleInStated(pr: MergedPr, deployments: seq<Deployment>, key: Option<string>, environment: string,
                         c: string)
    requires Component(key, pr.dimensions) == Some(c)
    ensures RunsHoldEligible(Arranged(Filter(deployments, Stating(pr.repo, environment, key, Some(c))), true),
                             Arranged(Filter(deployments, Stating(pr.repo, environment, key, None)), true), pr,
                               deployments, key, environment)
  {
    ListHolds(deployments, Stating(pr.repo, environment, key, Some(c)));
    ListHolds(deployments, Stating(pr.repo, environment, key, None));
    forall d ensures (Eligible(d, pr, deployments, key) && d.environment == environment)
      <==> pr.mergedAt <= d.createdAt && d in deployments
           && (Stating(pr.repo, environment, key, Some(c))(d) || Stating(pr.repo, environment, key, None)(d))
    {
      EligibleIffStated(d, pr, deployments, key, environment, c);
    }
  }

  lemma EligibleIffStated(d: Deployment, pr: MergedPr, deployments: seq<Deployment>, key: Option<string>,
                          environment: string, c: string)
    requires Component(key, pr.dimensions) == Some(c)
    ensures (Eligible(d, pr, deployments, key) && d.environment == environment)
       <==> pr.mergedAt <= d.createdAt && d in deployments
            && (Stating(pr.repo, environment, key, Some(c))(d) || Stating(pr.repo, environment, key, None)(d))
  {
    var there := d.status.Success? && d.repo == pr.repo && d.environment == environment;
    var stated := Component(key, d.dimensions);
    assert SuccessOf(pr.repo, environment)(d) == there;
    assert Stating(pr.repo, environment, key, Some(c))(d) == (there && stated == Some(c));
    assert Stating(pr.repo, environment, key, None)(d) == (there && stated == None);
    assert SameComponent(key, pr.dimensions, d.dimensions) == (stated == None || stated == Some(c));
  }

  /** The landing at one environment: none if nothing is eligible there, else the earliest. */
  ghost predicate IsLandingAt(landing: Option<Deployment>, pr: MergedPr, deployments: seq<Deployment>,
                              key: Option<string>, environment: string) {
    match landing
    case None => forall d :: Eligible(d, pr, deployments, key) ==> d.environment != environment
    case Some(d) => d.environment == environment && IsFirstLanding(d, pr, deployments, key)
  }

  method LandingAt(t: EnvironmentTimeline, pr: MergedPr, ghost deployments: seq<Deployment>, key: Option<string>,
                   ghost environment: string)
    returns (landing: Option<Deployment>)
    requires IndexesEnvironment(t, deployments, key, pr.repo, environment, true)
    ensures IsLandingAt(landing, pr, deployments, key, environment)
    ensures landing.Some? ==> IsPicked(landing.value, Candidates(pr, environment, deployments, key), pr.mergedAt)
  {
    EligibleInRuns(t, pr, deployments, key, environment);
    match Component(key, pr.dimensions)
    case None =>
      landing := FirstAfter(t.all, pr.mergedAt);
      FoundInOne(landing, Filter(deployments, SuccessOf(pr.repo, environment)), pr.mergedAt);
    case Some(c) =>
      var stated := FirstAfter(Listed(t, c), pr.mergedAt);
      var silent := FirstAfter(t.silent, pr.mergedAt);
      landing := Earlier(stated, silent);
      FoundInTwo(stated, silent, Filter(deployments, Stating(pr.repo, environment, key, Some(c))),
                 Filter(deployments, Stating(pr.repo, environment, key, None)), pr.mergedAt);
  }

  /** What a search of one sorted list answers. */
  ghost predicate IsFound(r: Option<Deployment>, run: seq<Deployment>, at: int) {
    && IsFirstAfter(r, Sort(run, CreatedAt), at)
    && (r.Some? ==> exists k :: StartsAt(k, Sort(run, CreatedAt), at) && Sort(run, CreatedAt)[k] == r.value)
  }

  lemma FoundInOne(r: Option<Deployment>, run: seq<Deployment>, at: int)
    requires IsFound(r, run, at)
    ensures IsFirstAfter(r, run, at) && (r.Some? ==> IsPicked(r.value, run, at))
  {
    SortSorts(run, CreatedAt);
    if r.Some? {
      var k :| StartsAt(k, Sort(run, CreatedAt), at) && Sort(run, CreatedAt)[k] == r.value;
      FoundIsPicked(run, at, k);
    }
  }

  /** The earlier of two finds is picked from both lists, the first one's winning a tie. */
  lemma FoundInTwo(a: Option<Deployment>, b: Option<Deployment>, first: seq<Deployment>, second: seq<Deployment>,
                   at: int)
    requires IsFound(a, first, at) && IsFound(b, second, at)
    ensures Earlier(a, b).Some? ==> IsPicked(Earlier(a, b).value, first + second, at)
  {
    FoundInOne(a, first, at);
    FoundInOne(b, second, at);
    if Earlier(a, b).Some? {
      if a.Some? && (b.None? || a.value.createdAt <= b.value.createdAt) {
        PickedFromFirst(a.value, first, second, at);
      } else {
        PickedFromSecond(b.value, first, second, at);
      }
    }
  }

  lemma PickedFromFirst(d: Deployment, first: seq<Deployment>, second: seq<Deployment>, at: int)
    requires IsPicked(d, first, at)
    requires forall e :: e in second && at <= e.createdAt ==> d.createdAt <= e.createdAt
    ensures IsPicked(d, first + second, at)
  {
    var i :| IsPickedAt(i, first, at) && first[i] == d;
    assert IsPickedAt(i, first + second, at);
  }

  lemma PickedFromSecond(d: Deployment, first: seq<Deployment>, second: seq<Deployment>, at: int)
    requires IsPicked(d, second, at)
    requires forall e :: e in first && at <= e.createdAt ==> d.createdAt < e.createdAt
    ensures IsPicked(d, first + second, at)
  {
    var i :| IsPickedAt(i, second, at) && second[i] == d;
    var both := first + second;
    assert forall j :: 0 <= j < |first| ==> both[j] == first[j] && first[j] in first;
    assert forall j :: |first| <= j < |both| ==> both[j] == second[j - |first|];
    assert IsPickedAt(|first| + i, both, at);
  }

  /** `LandsExactly` over the environments walked so far. */
  ghost predicate LandsOver(landings: seq<Deployment>, walked: seq<string>, pr: MergedPr, deployments: seq<Deployment>,
                            key: Option<string>) {
    && (forall i, j :: 0 <= i < j < |landings| ==> landings[i].environment != landings[j].environment)
    && (forall l :: l in landings ==> l.environment in walked && IsFirstLanding(l, pr, deployments, key))
    && (forall d :: Eligible(d, pr, deployments, key) && d.environment in walked ==> Reaches(landings, d.environment))
  }

  method LandingsOf(environments: InsertionMap<string, EnvironmentTimeline>, pr: MergedPr,
                    ghost deployments: seq<Deployment>, key: Option<string>)
    returns (landings: seq<Deployment>)
    requires environments.Valid()
    requires forall e :: e in environments.at ==> IndexesEnvironment(environments.at[e], deployments, key, pr.repo, e,
                                                                     true)
    ensures Walked(landings, environments.keys, pr, deployments, key)
  {
    landings := [];
    for i := 0 to |environments.keys|
      invariant Walked(landings, environments.keys[..i], pr, deployments, key)
    {
      var environment := environments.keys[i];
      var landing := LandingAt(environments.at[environment], pr, deployments, key, environment);
      WalkNext(landings, landing, environments.keys, i, pr, deployments, key);
      landings := WithLanding(landings, landing);
    }
    assert environments.keys[..|environments.keys|] == environments.keys;
  }

  ghost predicate Walked(landings: seq<Deployment>, walked: seq<string>, pr: MergedPr, deployments: seq<Deployment>,
                         key: Option<string>) {
    LandsOver(landings, walked, pr, deployments, key) && InOrder(landings, walked, pr, deployments, key)
  }

  lemma WalkNext(landings: seq<Deployment>, landing: Option<Deployment>, environments: seq<string>, i: nat,
                 pr: MergedPr, deployments: seq<Deployment>, key: Option<string>)
    requires NoDuplicates(environments) && i < |environments|
             && Walked(landings, environments[..i], pr, deployments, key)
    requires IsLandingAt(landing, pr, deployments, key, environments[i])
    requires landing.Some? ==> IsPicked(landing.value, Candidates(pr, environments[i], deployments, key), pr.mergedAt)
    ensures Walked(WithLanding(landings, landing), environments[..i + 1], pr, deployments, key)
  {
    LandsNext(landings, landing, environments[..i], environments[i], pr, deployments, key);
    OrderNext(landings, landing, environments[..i], environments[i], pr, deployments, key);
    PrefixNext(environments, i);
  }

  function WithLanding(landings: seq<Deployment>, landing: Option<Deployment>): seq<Deployment> {
    if landing.Some? then landings + [landing.value] else landings
  }

  lemma LandsNext(landings: seq<Deployment>, landing: Option<Deployment>, walked: seq<string>, environment: string,
                  pr: MergedPr, deployments: seq<Deployment>, key: Option<string>)
    requires LandsOver(landings, walked, pr, deployments, key) && environment !in walked
    requires IsLandingAt(landing, pr, deployments, key, environment)
    ensures LandsOver(WithLanding(landings, landing), walked + [environment], pr, deployments, key)
  {
    var next := WithLanding(landings, landing);
    forall i, j | 0 <= i < j < |next| ensures next[i].environment != next[j].environment {
      assert next[i] in landings;
    }
    forall d | Eligible(d, pr, deployments, key) && d.environment in walked + [environment]
      ensures Reaches(next, d.environment)
    {
      ReachesMore(landings, landing, d.environment);
    }
  }

  lemma ReachesMore(landings: seq<Deployment>, landing: Option<Deployment>, environment: string)
    ensures Reaches(WithLanding(landings, landing), environment)
       <==> Reaches(landings, environment) || (landing.Some? && landing.value.environment == environment)
  {
    var next := WithLanding(landings, landing);
    assert forall l :: l in next <==> l in landings || landing == Some(l);
  }

  lemma OrderNext(landings: seq<Deployment>, landing: Option<Deployment>, walked: seq<string>, environment: string,
                  pr: MergedPr, deployments: seq<Deployment>, key: Option<string>)
    requires InOrder(landings, walked, pr, deployments, key) && IsLandingAt(landing, pr, deployments, key, environment)
    requires landing.Some? ==> IsPicked(landing.value, Candidates(pr, environment, deployments, key), pr.mergedAt)
    ensures InOrder(WithLanding(landings, landing), walked + [environment], pr, deployments, key)
  {
    FilterSnoc(walked, environment, Reached(pr, deployments, key));
    LandsIffSome(landing, pr, deployments, key, environment);
    if landing.Some? {
      assert Map(landings + [landing.value], EnvironmentOf) == Map(landings, EnvironmentOf) + [environment];
      forall i | 0 <= i < |landings| + 1 ensures IsPickedThere((landings + [landing.value])[i], pr, deployments, key) {
        assert i < |landings| ==> IsPickedThere(landings[i], pr, deployments, key);
      }
    }
  }

  lemma LandsIffSome(landing: Option<Deployment>, pr: MergedPr, deployments: seq<Deployment>, key: Option<string>,
                     environment: string)
    requires IsLandingAt(landing, pr, deployments, key, environment)
    ensures landing.Some? <==> Reached(pr, deployments, key)(environment)
    ensures landing.Some? ==> landing.value.environment == environment
  {
  }

  /** One request against the index. */
  method LandingsFor(timeline: Timeline, pr: MergedPr, ghost deployments: seq<Deployment>, key: Option<string>)
    returns (landings: seq<Deployment>)
    requires Indexes(timeline, deployments, key, true)
    ensures LandsExactly(landings, pr, deployments, key)
    ensures landings == [] <==> !exists d :: Eligible(d, pr, deployments, key)
    ensures InOrder(landings, EnvironmentsOf(deployments, pr.repo), pr, deployments, key)
  {
    landings := [];
    assert KeysOf(timeline, pr.repo) == EnvironmentsOf(deployments, pr.repo);
    if pr.repo in timeline {
      forall e | e in timeline[pr.repo].at
        ensures IndexesEnvironment(timeline[pr.repo].at[e], deployments, key, pr.repo, e, true)
      {
        assert At(timeline, pr.repo, e) == timeline[pr.repo].at[e];
      }
      landings := LandingsOf(timeline[pr.repo], pr, deployments, key);
    }
    AllEnvironmentsWalked(timeline, landings, pr, deployments, key);
  }

  /**
   * The fast form: an index, two binary searches an environment. It answers what
   * the walk over every deployment would.
   */
  method CarriedBy(prs: seq<MergedPr>, deployments: seq<Deployment>, key: Option<string>) returns (carriers: Carriers)
    ensures IsCarriers(carriers, prs, deployments, key)
    ensures IsOrdered(carriers, deployments, key)
  {
    var timeline := SuccessTimeline(deployments, key);
    carriers := map[];
    for i := 0 to |prs|
      invariant IsCarriers(carriers, prs[..i], deployments, key)
      invariant IsOrdered(carriers, deployments, key)
    {
      var landings := LandingsFor(timeline, prs[i], deployments, key);
      PrefixNext(prs, i);
      CarriersNext(carriers, prs[..i], prs[i], landings, deployments, key);
      if |landings| > 0 {
        carriers := carriers[prs[i] := landings];
      }
    }
    assert prs[..|prs|] == prs;
  }

  lemma CarriersNext(carriers: Carriers, before: seq<MergedPr>, pr: MergedPr, landings: seq<Deployment>,
                     deployments: seq<Deployment>, key: Option<string>)
    requires IsCarriers(carriers, before, deployments, key)
    requires LandsExactly(landings, pr, deployments, key)
             && (landings == [] <==> !exists d :: Eligible(d, pr, deployments, key))
    ensures IsCarriers(if |landings| > 0 then carriers[pr := landings] else carriers, before + [pr], deployments, key)
  {
  }

  lemma AllEnvironmentsWalked(timeline: Timeline, landings: seq<Deployment>, pr: MergedPr, deployments: seq<Deployment>,
                              key: Option<string>)
    requires Indexes(timeline, deployments, key, true)
    requires LandsOver(landings, KeysOf(timeline, pr.repo), pr, deployments, key)
    ensures LandsExactly(landings, pr, deployments, key)
    ensures landings == [] <==> !exists d :: Eligible(d, pr, deployments, key)
  {
    forall d | Eligible(d, pr, deployments, key) ensures Reaches(landings, d.environment) {
      assert d in Filter(deployments, SuccessIn(pr.repo));
      assert EnvironmentOf(d) in EnvironmentsOf(deployments, pr.repo);
      assert KeysOf(timeline, pr.repo) == EnvironmentsOf(deployments, pr.repo);
    }
    if landings != [] {
      assert landings[0] in landings;
    }
  }

  // ─── What follows of any such correlation ───

  /** The component test only removes landings or delays them. */
  lemma {:induction false} NarrowingOnlyDelays(narrowed: Carriers, plain: Carriers, prs: seq<MergedPr>,
                                               deployments: seq<Deployment>, key: Option<string>,
                            pr: MergedPr, landing: Deployment)
    requires IsCarriers(narrowed, prs, deployments, key) && IsCarriers(plain, prs, deployments, None)
    requires pr in narrowed && landing in narrowed[pr]
    ensures pr in plain
    ensures exists l :: l in plain[pr] && l.environment == landing.environment && l.createdAt <= landing.createdAt
  {
    assert Eligible(landing, pr, deployments, None);
    assert Reaches(plain[pr], landing.environment);
  }

  /** The successes of the request's repository that follow its merge. */
  predicate Follows(d: Deployment, pr: MergedPr, deployments: seq<Deployment>) {
    d in deployments && d.status.Success? && d.repo == pr.repo && pr.mergedAt <= d.createdAt
  }

  /** Something was shipped after the merge, and every bit of it names another deployable. */
  ghost predicate Mismatched(pr: MergedPr, deployments: seq<Deployment>, key: Option<string>) {
    var component := Component(key, pr.dimensions);
    && component.Some?
    && (exists d :: Follows(d, pr, deployments))
    && (forall d :: Follows(d, pr, deployments) ==>
         Component(key, d.dimensions).Some? && Component(key, d.dimensions) != component)
  }

  ghost predicate Names(pr: MergedPr, pair: (string, string), key: Option<string>) {
    pr.repo == pair.0 && Component(key, pr.dimensions) == Some(pair.1)
  }

  ghost predicate IsMismatch(pair: (string, string), prs: seq<MergedPr>, deployments: seq<Deployment>,
                             key: Option<string>) {
    exists pr :: pr in prs && Names(pr, pair, key) && Mismatched(pr, deployments, key)
  }

  lemma LeftWithNothing(carriers: Carriers, plain: Carriers, prs: seq<MergedPr>, deployments: seq<Deployment>,
                        key: Option<string>, pr: MergedPr)
    requires IsCarriers(carriers, prs, deployments, key) && IsCarriers(plain, prs, deployments, None) && pr in prs
    requires Component(key, pr.dimensions).Some?
    ensures Mismatched(pr, deployments, key) <==> pr !in carriers && pr in plain
  {
    forall d
      ensures Follows(d, pr, deployments) <==> Eligible(d, pr, deployments, None)
      ensures Eligible(d, pr, deployments, key) <==> Follows(d, pr, deployments)
                                                     && SameComponent(key, pr.dimensions, d.dimensions)
    {
      FollowsIffEligible(d, pr, deployments, key);
    }
  }

  lemma FollowsIffEligible(d: Deployment, pr: MergedPr, deployments: seq<Deployment>, key: Option<string>)
    ensures Follows(d, pr, deployments) <==> Eligible(d, pr, deployments, None)
    ensures Eligible(d, pr, deployments, key) <==> Follows(d, pr, deployments)
                                                   && SameComponent(key, pr.dimensions, d.dimensions)
  {
  }

  /** Some request names this pair and was left without a landing by the component test alone. */
  ghost predicate LeftOut(pair: (string, string), prs: seq<MergedPr>, carriers: Carriers, plain: Carriers,
                          key: Option<string>) {
    exists pr :: pr in prs && Names(pr, pair, key) && pr !in carriers && pr in plain
  }

  method ComponentMismatches(prs: seq<MergedPr>, carriers: Carriers, byRepoAndTime: Carriers, key: Option<string>)
    returns (pairs: seq<(string, string)>)
    ensures NoDuplicates(pairs)
    ensures forall pair :: pair in pairs <==> LeftOut(pair, prs, carriers, byRepoAndTime, key)
  {
    if !Designated(key) {
      return [];
    }
    pairs := [];
    for i := 0 to |prs|
      invariant NoDuplicates(pairs)
      invariant forall pair :: pair in pairs <==> LeftOut(pair, prs[..i], carriers, byRepoAndTime, key)
    {
      var pr := prs[i];
      assert prs[..i + 1] == prs[..i] + [pr];
      var component := Component(key, pr.dimensions);
      if component.Some? && pr !in carriers && pr in byRepoAndTime && (pr.repo, component.value) !in pairs {
        pairs := pairs + [(pr.repo, component.value)];
      }
      forall pair ensures LeftOut(pair, prs[..i + 1], carriers, byRepoAndTime, key) <==>
        LeftOut(pair, prs[..i], carriers, byRepoAndTime, key)
        || (Names(pr, pair, key) && pr !in carriers && pr in byRepoAndTime)
      {
      }
    }
    assert prs[..|prs|] == prs;
  }

  /** The pairs warned about are those of the mismatched requests: none is missed, none invented. */
  lemma LeftOutIsMismatched(pair: (string, string), prs: seq<MergedPr>, carriers: Carriers, plain: Carriers,
                            deployments: seq<Deployment>, key: Option<string>)
    requires IsCarriers(carriers, prs, deployments, key) && IsCarriers(plain, prs, deployments, None)
    ensures LeftOut(pair, prs, carriers, plain, key) <==> IsMismatch(pair, prs, deployments, key)
  {
    forall pr | pr in prs && Names(pr, pair, key)
      ensures Mismatched(pr, deployments, key) <==> pr !in carriers && pr in plain
    {
      LeftWithNothing(carriers, plain, prs, deployments, key, pr);
    }
  }
}
