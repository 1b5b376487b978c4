/** What one synchronisation of back/src/ingest/sync.service.ts does to the store. */
module Reconciliation {
  import opened History
  import opened Lists
  import opened Options
  import opened Rows
  import opened Tables

  /** What a provider answers to one listing. */
  datatype Answer<T> = Answered(value: T) | Refused(message: string)

  datatype Answers = Answers(
    repos: Answer<seq<string>>,
    open: Answer<seq<OpenReading>>,
    merged: Answer<seq<MergedReading>>,
    pipelines: Answer<seq<PipelineReading>>,
    deployments: Answer<seq<DeploymentReading>>
  )

  predicate ListsOnce(w: Answers) {
    && (w.open.Answered? ==> DistinctIds(w.open.value, OpenId))
    && (w.merged.Answered? ==> DistinctIds(w.merged.value, MergedId))
    && (w.pipelines.Answered? ==> DistinctIds(w.pipelines.value, PipelineId))
    && (w.deployments.Answered? ==> DistinctIds(w.deployments.value, DeploymentId))
  }

  /** The open listing, the sweep of what it no longer reports, then the merged listing. */
  function SyncedPullRequests(table: Table<PullRequestRow>, w: Answers, at: int): Table<PullRequestRow> {
    if w.open.Refused? then table
    else
      var swept := AfterSweep(AfterOpen(table, w.open.value, at), at, at);
      if w.merged.Refused? then swept else AfterMerged(swept, w.merged.value, at)
  }

  function SyncedPipelines(table: Table<PipelineRow>, w: Answers, at: int): Table<PipelineRow> {
    if w.pipelines.Refused? then table else AfterPipelines(table, w.pipelines.value, at)
  }

  function SyncedDeployments(table: Table<DeploymentRow>, w: Answers, at: int): Table<DeploymentRow> {
    if w.deployments.Refused? then table else AfterDeployments(table, w.deployments.value, at)
  }

  /** A run lists repositories by name alone. */
  function Named(names: seq<string>): seq<RepoReading> {
    Map(names, NamedRepo)
  }

  function NamedRepo(name: string): RepoReading { RepoReading(name, None) }

  lemma {:induction false} NamedReposByName(table: Table<RepoRow>, names: seq<string>, at: int, name: string)
    ensures Get(AfterRepos(table, Named(names), at), name)
         == if name in names then Some(RepoRow(if name in table then table[name].defaultBranch else None, at))
            else Get(table, name)
  {
    if names != [] {
      var n := |names| - 1;
      assert Named(names)[..n] == Named(names[..n]);
      assert names == names[..n] + [names[n]];
      NamedReposByName(table, names[..n], at, name);
    }
  }

  function Synced(s: Stored, w: Answers, at: int, full: bool): Stored {
    if w.repos.Refused? then s
    else
      var scope := Scope(w, full);
      Stored(
        PrunedRepos(AfterRepos(s.repos, Named(w.repos.value), at), scope),
        Pruned(SyncedPullRequests(s.pullRequests, w, at), RepoOfPullRequest, scope),
        Pruned(SyncedPipelines(s.pipelines, w, at), RepoOfPipeline, scope),
        Pruned(SyncedDeployments(s.deployments, w, at), RepoOfDeployment, scope))
  }

  // ─── The sweep ───

  /**
   * The sweep closes no listed row, stale readings included, and leaves on the
   * board the listed ones and those touched since the run began: no other.
   */
  lemma SweepReconciles(table: Table<PullRequestRow>, readings: seq<OpenReading>, at: int, id: string)
    requires DistinctIds(readings, OpenId)
    ensures var listed := AfterOpen(table, readings, at);
      var swept := AfterSweep(listed, at, at);
      && swept.Keys == listed.Keys
      && (ReadingOf(readings, OpenId, id).Some? ==> id in swept && swept[id] == listed[id] && swept[id].seenAt == at)
      && (id in swept && OnBoard(swept[id].state) && ReadingOf(readings, OpenId, id).None? ==>
            id in table && at <= table[id].seenAt)
  {
    OpenByRow(table, readings, at, id);
    assert Get(AfterOpen(table, readings, at), id) == OpenStep(Get(table, id), ReadingOf(readings, OpenId, id), at);
  }

  /** Where everything stored was last seen before the run, the board is what was reported. */
  lemma OnlyReportedOnBoard(table: Table<PullRequestRow>, w: Answers, at: int, id: string)
    requires ListsOnce(w) && w.open.Answered?
    requires forall k :: k in table ==> table[k].seenAt < at
    ensures var after := SyncedPullRequests(table, w, at);
      id in after && OnBoard(after[id].state) ==> exists r :: r in w.open.value && r.id == id
  {
    SweepReconciles(table, w.open.value, at, id);
    ReadingIsListed(w.open.value, OpenId, id);
    var swept := AfterSweep(AfterOpen(table, w.open.value, at), at, at);
    if w.merged.Answered? {
      MergedByRow(swept, w.merged.value, at, id);
      assert Get(AfterMerged(swept, w.merged.value, at), id)
          == Applied(Get(swept, id), ReadingOf(w.merged.value, MergedId, id), MergedMerge(at));
    }
  }

  // ─── Replaying a run ───

  function SweepRow(row: Option<PullRequestRow>, at: int): Option<PullRequestRow> {
    if row.Some? && Abandoned(row.value, at) then Some(row.value.(state := Closed, seenAt := at)) else row
  }

  /** One row through the pull request listings. */
  function PullRequestStep(row: Option<PullRequestRow>, w: Answers, at: int, id: string): Option<PullRequestRow> {
    if w.open.Refused? then row
    else
      var swept := SweepRow(OpenStep(row, ReadingOf(w.open.value, OpenId, id), at), at);
      if w.merged.Refused? then swept else Applied(swept, ReadingOf(w.merged.value, MergedId, id), MergedMerge(at))
  }

  lemma PullRequestsByRow(table: Table<PullRequestRow>, w: Answers, at: int, id: string)
    requires ListsOnce(w)
    ensures Get(SyncedPullRequests(table, w, at), id) == PullRequestStep(Get(table, id), w, at, id)
  {
    if w.open.Answered? {
      var listed := AfterOpen(table, w.open.value, at);
      OpenByRow(table, w.open.value, at, id);
      assert Get(AfterSweep(listed, at, at), id) == SweepRow(Get(listed, id), at);
      if w.merged.Answered? {
        MergedByRow(AfterSweep(listed, at, at), w.merged.value, at, id);
      }
    }
  }

  lemma PullRequestStepTwice(row: Option<PullRequestRow>, w: Answers, at: int, id: string)
    ensures PullRequestStep(PullRequestStep(row, w, at, id), w, at, id) == PullRequestStep(row, w, at, id)
  {
  }

  function PipelineStep(row: Option<PipelineRow>, w: Answers, at: int, id: string): Option<PipelineRow> {
    if w.pipelines.Refused? then row else Applied(row, ReadingOf(w.pipelines.value, PipelineId, id), PipelineMerge(at))
  }

  lemma PipelineStepTwice(row: Option<PipelineRow>, w: Answers, at: int, id: string)
    ensures PipelineStep(PipelineStep(row, w, at, id), w, at, id) == PipelineStep(row, w, at, id)
  {
  }

  function DeploymentStep(row: Option<DeploymentRow>, w: Answers, at: int, id: string): Option<DeploymentRow> {
    if w.deployments.Refused? then row else Applied(row, ReadingOf(w.deployments.value, DeploymentId, id),
                                                    DeploymentMerge(at))
  }

  lemma DeploymentStepTwice(row: Option<DeploymentRow>, w: Answers, at: int, id: string)
    ensures DeploymentStep(DeploymentStep(row, w, at, id), w, at, id) == DeploymentStep(row, w, at, id)
  {
  }

  /**
   * A stale reading of a row stored under another repository, out of scope where
   * the reading is in it: pruned by one run, created afresh by the next.
   */
  predicate DisplacedPullRequest(row: Option<PullRequestRow>, w: Answers, id: string, scope: seq<string>) {
    && scope != [] && row.Some? && row.value.repo !in scope
    && w.open.Answered? && (w.merged.Answered? ==> ReadingOf(w.merged.value, MergedId, id).None?)
    && var r := ReadingOf(w.open.value, OpenId, id);
       r.Some? && r.value.repo in scope && r.value.updatedAt < row.value.updatedAt
  }

  predicate DisplacedPipeline(row: Option<PipelineRow>, w: Answers, id: string, scope: seq<string>) {
    && scope != [] && row.Some? && row.value.repo !in scope && w.pipelines.Answered?
    && var r := ReadingOf(w.pipelines.value, PipelineId, id);
       r.Some? && r.value.repo in scope && r.value.updatedAt < row.value.updatedAt
  }

  /** What a run prunes to: the repositories it listed, if it reconciles. */
  function Scope(w: Answers, full: bool): seq<string> {
    if full && w.repos.Answered? then w.repos.value else []
  }

  ghost predicate Displaces(s: Stored, w: Answers, full: bool) {
    exists id :: DisplacedPullRequest(Get(s.pullRequests, id), w, id, Scope(w, full))
              || DisplacedPipeline(Get(s.pipelines, id), w, id, Scope(w, full))
  }

  function PullRequestRun(row: Option<PullRequestRow>, w: Answers, at: int, id: string,
                          scope: seq<string>): Option<PullRequestRow> {
    Staying(PullRequestStep(row, w, at, id), RepoOfPullRequest, scope)
  }

  lemma PullRequestRunTwice(row: Option<PullRequestRow>, w: Answers, at: int, id: string, scope: seq<string>)
    ensures PullRequestRun(PullRequestRun(row, w, at, id, scope), w, at, id, scope)
            == PullRequestRun(row, w, at, id, scope)
       <==> !DisplacedPullRequest(row, w, id, scope)
  {
    PullRequestStepTwice(row, w, at, id);
  }

  lemma ReplayedPullRequest(s: Stored, w: Answers, at: int, full: bool, id: string)
    requires ListsOnce(w) && w.repos.Answered?
    ensures Get(Synced(Synced(s, w, at, full), w, at, full).pullRequests, id)
            == Get(Synced(s, w, at, full).pullRequests, id)
       <==> !DisplacedPullRequest(Get(s.pullRequests, id), w, id, Scope(w, full))
  {
    SyncedByRow(s, w, at, full, id);
    SyncedByRow(Synced(s, w, at, full), w, at, full, id);
    PullRequestRunTwice(Get(s.pullRequests, id), w, at, id, Scope(w, full));
  }

  lemma SyncedByRow(s: Stored, w: Answers, at: int, full: bool, id: string)
    requires ListsOnce(w) && w.repos.Answered?
    ensures Get(Synced(s, w, at, full).pullRequests, id)
            == PullRequestRun(Get(s.pullRequests, id), w, at, id, Scope(w, full))
  {
    PullRequestsByRow(s.pullRequests, w, at, id);
    PrunedByRow(SyncedPullRequests(s.pullRequests, w, at), RepoOfPullRequest, Scope(w, full), id);
  }

  lemma ReplayedPipeline(s: Stored, w: Answers, at: int, full: bool, id: string)
    requires ListsOnce(w) && w.repos.Answered?
    ensures Get(Synced(Synced(s, w, at, full), w, at, full).pipelines, id) == Get(Synced(s, w, at, full).pipelines, id)
       <==> !DisplacedPipeline(Get(s.pipelines, id), w, id, Scope(w, full))
  {
    PipelineSyncedByRow(s, w, at, full, id);
    PipelineSyncedByRow(Synced(s, w, at, full), w, at, full, id);
    PipelineRunTwice(Get(s.pipelines, id), w, at, id, Scope(w, full));
  }

  function PipelineRun(row: Option<PipelineRow>, w: Answers, at: int, id: string,
                       scope: seq<string>): Option<PipelineRow> {
    Staying(PipelineStep(row, w, at, id), RepoOfPipeline, scope)
  }

  lemma PipelineRunTwice(row: Option<PipelineRow>, w: Answers, at: int, id: string, scope: seq<string>)
    ensures PipelineRun(PipelineRun(row, w, at, id, scope), w, at, id, scope) == PipelineRun(row, w, at, id, scope)
       <==> !DisplacedPipeline(row, w, id, scope)
  {
    PipelineStepTwice(row, w, at, id);
  }

  lemma PipelineSyncedByRow(s: Stored, w: Answers, at: int, full: bool, id: string)
    requires ListsOnce(w) && w.repos.Answered?
    ensures Get(Synced(s, w, at, full).pipelines, id) == PipelineRun(Get(s.pipelines, id), w, at, id, Scope(w, full))
  {
    if w.pipelines.Answered? {
      PipelinesByRow(s.pipelines, w.pipelines.value, at, id);
    }
    PrunedByRow(SyncedPipelines(s.pipelines, w, at), RepoOfPipeline, Scope(w, full), id);
  }

  lemma ReplayedDeployment(s: Stored, w: Answers, at: int, full: bool, id: string)
    requires ListsOnce(w) && w.repos.Answered?
    ensures Get(Synced(Synced(s, w, at, full), w, at, full).deployments, id)
            == Get(Synced(s, w, at, full).deployments, id)
  {
    DeploymentSyncedByRow(s, w, at, full, id);
    DeploymentSyncedByRow(Synced(s, w, at, full), w, at, full, id);
    DeploymentStepTwice(Get(s.deployments, id), w, at, id);
  }

  lemma DeploymentSyncedByRow(s: Stored, w: Answers, at: int, full: bool, id: string)
    requires ListsOnce(w) && w.repos.Answered?
    ensures Get(Synced(s, w, at, full).deployments, id)
         == Staying(DeploymentStep(Get(s.deployments, id), w, at, id), RepoOfDeployment, Scope(w, full))
  {
    if w.deployments.Answered? {
      DeploymentsByRow(s.deployments, w.deployments.value, at, id);
    }
    PrunedByRow(SyncedDeployments(s.deployments, w, at), RepoOfDeployment, Scope(w, full), id);
  }

  lemma SameRowsSameTable<Row(!new)>(a: Table<Row>, b: Table<Row>)
    ensures a == b <==> forall id :: Get(a, id) == Get(b, id)
  {
    if forall id :: Get(a, id) == Get(b, id) {
      assert forall id :: id in a ==> Get(a, id) == Get(b, id);
      assert forall id :: id in b ==> Get(a, id) == Get(b, id);
      assert a.Keys == b.Keys;
    }
  }

  lemma ReplayedRepos(s: Stored, w: Answers, at: int, full: bool)
    requires w.repos.Answered?
    ensures Synced(Synced(s, w, at, full), w, at, full).repos == Synced(s, w, at, full).repos
  {
    var once := Synced(s, w, at, full);
    var twice := Synced(once, w, at, full);
    forall name ensures Get(twice.repos, name) == Get(once.repos, name) {
      NamedReposByName(s.repos, w.repos.value, at, name);
      NamedReposByName(once.repos, w.repos.value, at, name);
      ReposPrunedByName(AfterRepos(s.repos, Named(w.repos.value), at), Scope(w, full), name);
      ReposPrunedByName(AfterRepos(once.repos, Named(w.repos.value), at), Scope(w, full), name);
    }
    SameRowsSameTable(twice.repos, once.repos);
  }

  lemma ReposPrunedByName(table: Table<RepoRow>, scope: seq<string>, name: string)
    ensures Get(PrunedRepos(table, scope), name) == if scope == [] || name in scope then Get(table, name) else None
  {
  }

  /**
   * Replaying the same answers with the same start leaves every table as it was,
   * unless a full run pruned a row whose stale reading now re-creates it.
   */
  lemma ReplayIsIdentityIff(s: Stored, w: Answers, at: int, full: bool)
    requires ListsOnce(w)
    ensures Synced(Synced(s, w, at, full), w, at, full) == Synced(s, w, at, full) <==> !Displaces(s, w, full)
  {
    if w.repos.Answered? {
      var once := Synced(s, w, at, full);
      var twice := Synced(once, w, at, full);
      assert twice.repos == once.repos by { ReplayedRepos(s, w, at, full); }
      assert twice.deployments == once.deployments by {
        forall id ensures Get(twice.deployments, id) == Get(once.deployments, id) {
          ReplayedDeployment(s, w, at, full, id);
        }
        SameRowsSameTable(twice.deployments, once.deployments);
      }
      assert twice.pullRequests == once.pullRequests
        <==> forall id :: !DisplacedPullRequest(Get(s.pullRequests, id), w, id, Scope(w, full))
      by {
        forall id
          ensures Get(twice.pullRequests, id) == Get(once.pullRequests, id)
             <==> !DisplacedPullRequest(Get(s.pullRequests, id), w, id, Scope(w, full))
        {
          ReplayedPullRequest(s, w, at, full, id);
        }
        SameRowsSameTable(twice.pullRequests, once.pullRequests);
      }
      assert twice.pipelines == once.pipelines
        <==> forall id :: !DisplacedPipeline(Get(s.pipelines, id), w, id, Scope(w, full))
      by {
        forall id
          ensures Get(twice.pipelines, id) == Get(once.pipelines, id)
             <==> !DisplacedPipeline(Get(s.pipelines, id), w, id, Scope(w, full))
        {
          ReplayedPipeline(s, w, at, full, id);
        }
        SameRowsSameTable(twice.pipelines, once.pipelines);
      }
    }
  }

  /** Where no listed id is stored under another repository, every replay is the identity. */
  lemma ReplayOfStableIds(s: Stored, w: Answers, at: int, full: bool)
    requires ListsOnce(w)
    requires w.open.Answered? ==> forall r :: r in w.open.value && r.id in s.pullRequests ==>
        s.pullRequests[r.id].repo == r.repo
    requires w.pipelines.Answered? ==> forall r :: r in w.pipelines.value && r.id in s.pipelines ==>
        s.pipelines[r.id].repo == r.repo
    ensures Synced(Synced(s, w, at, full), w, at, full) == Synced(s, w, at, full)
  {
    ReplayIsIdentityIff(s, w, at, full);
    forall id
      ensures !DisplacedPullRequest(Get(s.pullRequests, id), w, id, Scope(w, full))
      ensures !DisplacedPipeline(Get(s.pipelines, id), w, id, Scope(w, full))
    {
      if w.open.Answered? {
        ReadingIsListed(w.open.value, OpenId, id);
      }
      if w.pipelines.Answered? {
        ReadingIsListed(w.pipelines.value, PipelineId, id);
      }
    }
  }

  ghost predicate AnsweredByRepo(w: Answers) {
    && (w.open.Answered? ==> forall r :: r in w.open.value ==> NamesItsRepo(r.id, r.repo))
    && (w.pipelines.Answered? ==> forall r :: r in w.pipelines.value ==> NamesItsRepo(r.id, r.repo))
  }

  /** Replaying a run changes nothing, for the ids the connectors build: each names its repository. */
  lemma ReplayIsIdentity(s: Stored, w: Answers, at: int, full: bool)
    requires ListsOnce(w) && AnsweredByRepo(w)
    requires PullRequestsByRepo(s.pullRequests) && PipelinesByRepo(s.pipelines)
    ensures Synced(Synced(s, w, at, full), w, at, full) == Synced(s, w, at, full)
  {
    if w.open.Answered? {
      forall r | r in w.open.value && r.id in s.pullRequests ensures s.pullRequests[r.id].repo == r.repo {
        IdsNameOneRepo(r.id, s.pullRequests[r.id].repo, r.repo);
      }
    }
    if w.pipelines.Answered? {
      forall r | r in w.pipelines.value && r.id in s.pipelines ensures s.pipelines[r.id].repo == r.repo {
        IdsNameOneRepo(r.id, s.pipelines[r.id].repo, r.repo);
      }
    }
    ReplayOfStableIds(s, w, at, full);
  }

  /** The exception supposes an id that outlives a rename, which no connector builds: "1" names no repository. */
  lemma RenamedRowIsDisplaced()
    ensures var row := PullRequestRow("old", 1, "", None, Open, None, "", None, "", 0, 9, None, 0, None, None, [], 0);
      var reading := OpenReading("1", "new", 1, "", "", Open, "", "", "", "", 0, 5, None, 0, []);
      var w := Answers(Answered(["new"]), Answered([reading]), Answered([]), Answered([]), Answered([]));
      var s := Stored(map[], map["1" := row], map[], map[]);
      ListsOnce(w) && !NamesItsRepo("1", "old") && Synced(Synced(s, w, 7, true), w, 7, true) != Synced(s, w, 7, true)
  {
    var row := PullRequestRow("old", 1, "", None, Open, None, "", None, "", 0, 9, None, 0, None, None, [], 0);
    var reading := OpenReading("1", "new", 1, "", "", Open, "", "", "", "", 0, 5, None, 0, []);
    var w := Answers(Answered(["new"]), Answered([reading]), Answered([]), Answered([]), Answered([]));
    assert ReadingOf(w.open.value, OpenId, "1") == Some(reading);
    var s := Stored(map[], map["1" := row], map[], map[]);
    assert Get(s.pullRequests, "1") == Some(row);
    assert DisplacedPullRequest(Get(s.pullRequests, "1"), w, "1", Scope(w, true));
    ReplayIsIdentityIff(s, w, 7, true);
  }
}
