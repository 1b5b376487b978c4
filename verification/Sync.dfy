/** `SyncService.sync` of back/src/ingest/sync.service.ts, over the store it fills and the cursors it keeps. */
module Sync {
  import opened Cadence
  import opened History
  import opened Lists
  import opened Options
  import opened Reconciliation
  import opened Rows
  import opened Schedule
  import opened Store
  import opened Tables

  datatype Outcome = Outcome(
    full: bool,
    skipped: bool,
    repos: nat,
    pullRequests: nat,
    pipelines: nat,
    deployments: nat,
    merged: nat,
    closed: nat,
    pruned: int,
    failed: seq<Resource>
  )

  function NothingDone(full: bool): Outcome { Outcome(full, false, 0, 0, 0, 0, 0, 0, 0, []) }

  // ─── What a run reports of itself ───

  function OpenWritten(table: Table<PullRequestRow>, w: Answers, at: int): nat {
    if w.open.Refused? then 0 else Written(table, table, w.open.value, OpenId, OpenMerge(at), PullRequestGuard)
  }

  /** What the run finds abandoned once the open listing has landed. */
  function ClosedCount(table: Table<PullRequestRow>, w: Answers, at: int): nat {
    if w.open.Refused? then 0
    else
      var listed := AfterOpen(table, w.open.value, at);
      |set id | id in listed && Abandoned(listed[id], at)|
  }

  function MergedWritten(table: Table<PullRequestRow>, w: Answers, at: int): nat {
    if PullsAnswer(w).Refused? then 0
    else
      var swept := AfterSweep(AfterOpen(table, w.open.value, at), at, at);
      Written(swept, swept, w.merged.value, MergedId, MergedMerge(at), PullRequestGuard)
  }

  function PipelinesWritten(table: Table<PipelineRow>, w: Answers, at: int): nat {
    if w.pipelines.Refused? then 0
    else Written(table, table, w.pipelines.value, PipelineId, PipelineMerge(at), PipelineGuard)
  }

  function RowCount(s: Stored): nat { |s.repos| + |s.pullRequests| + |s.pipelines| + |s.deployments| }

  function Failing(before: Outcome, resource: Resource): Outcome { before.(failed := before.failed + [resource]) }

  /** What the open listing wrote is counted even where the merged one then fails. */
  function PullsReported(before: Outcome, table: Table<PullRequestRow>, w: Answers, at: int): Outcome {
    var counted := before.(pullRequests := OpenWritten(table, w, at), closed := ClosedCount(table, w, at), merged :=
      MergedWritten(table, w, at));
    if PullsAnswer(w).Answered? then counted else Failing(counted, Pulls)
  }

  function PipelinesReported(before: Outcome, table: Table<PipelineRow>, w: Answers, at: int): Outcome {
    if w.pipelines.Answered? then before.(pipelines := PipelinesWritten(table, w, at)) else Failing(before, Pipelines)
  }

  function DeploymentsReported(before: Outcome, w: Answers): Outcome {
    if w.deployments.Answered? then before.(deployments := |w.deployments.value|) else Failing(before, Deployments)
  }

  function ListingsReported(before: Outcome, s: Stored, w: Answers, at: int): Outcome {
    DeploymentsReported(PipelinesReported(PullsReported(before, s.pullRequests, w, at), s.pipelines, w, at), w)
  }

  function Report(s: Stored, w: Answers, at: int, full: bool): Outcome {
    if w.repos.Refused? then Failing(NothingDone(full), Repos)
    else ListingsReported(NothingDone(full).(repos := |w.repos.value|), s, w, at).(
      pruned := RowCount(Synced(s, w, at, false)) - RowCount(Synced(s, w, at, full)))
  }

  /** The listings that failed, in the order they are asked. */
  function FailedListings(w: Answers): seq<Resource> {
    if w.repos.Refused? then [Repos]
    else
      (if PullsAnswer(w).Refused? then [Pulls] else [])
      + (if w.pipelines.Refused? then [Pipelines] else [])
      + (if w.deployments.Refused? then [Deployments] else [])
  }

  class SyncService {
    const store: StoreService
    var cursors: Cursors

    constructor (store: StoreService)
      ensures this.store == store && cursors == map[]
    {
      this.store := store;
      cursors := map[];
    }

    function Contents(): Stored
      reads this, store
    {
      Stored(store.repos, store.pullRequests, store.pipelines, store.deployments)
    }

    method DueForFullSync(now: int) returns (due: bool)
      ensures due == IsDue(cursors, now)
    {
      due := cursors == map[];
      var left := cursors.Keys;
      while left != {}
        invariant left <= cursors.Keys
        invariant due <==> cursors == map[] || exists r :: r in cursors && r !in left
                                                           && Overdue(cursors[r].lastFullSyncAt, now)
        decreases |left|
      {
        var r :| r in left;
        left := left - {r};
        if Overdue(cursors[r].lastFullSyncAt, now) {
          due := true;
        }
      }
    }

    /** Runs one listing's bookkeeping: a failure is recorded and swallowed. */
    method Step<T>(resource: Resource, answer: Answer<T>, at: int, full: bool) returns (ok: bool)
      modifies this`cursors
      ensures ok == answer.Answered?
      ensures forall r :: r != resource ==> Get(cursors, r) == Get(old(cursors), r)
      ensures resource in cursors
      ensures ok ==> cursors[resource].cursor == Some(at) && cursors[resource].lastSyncAt == Some(at)
                     && cursors[resource].lastError == None
      ensures ok ==> cursors[resource].lastFullSyncAt == if full then Some(at)
                                                         else StateOf(old(cursors), resource).lastFullSyncAt
      ensures !ok ==> cursors[resource] == StateOf(old(cursors), resource).(lastError := Some(answer.message))
      ensures cursors == Mark(old(cursors), resource, answer, at, full)
    {
      var state := StateOf(cursors, resource);
      ok := answer.Answered?;
      if ok {
        state := state.(cursor := Some(at), lastSyncAt := Some(at), lastError := None);
        if full {
          state := state.(lastFullSyncAt := Some(at));
        }
      } else {
        state := state.(lastError := Some(answer.message));
      }
      cursors := cursors[resource := state];
    }

    method SyncPullRequests(w: Answers, at: int, full: bool, depth: int, before: Outcome)
      returns (ok: bool, since: int, outcome: Outcome)
      modifies this`cursors, store`pullRequests
      ensures cursors == Mark(old(cursors), Pulls, PullsAnswer(w), at, full)
      ensures store.pullRequests == SyncedPullRequests(old(store.pullRequests), w, at)
      ensures ok == PullsAnswer(w).Answered?
      ensures since == MergedSince(StateOf(old(cursors), Pulls).cursor, at, depth, full)
      ensures before.pullRequests == before.closed == before.merged == 0 ==>
        outcome == PullsReported(before, old(store.pullRequests), w, at)
    {
      since := MergedSince(StateOf(cursors, Pulls).cursor, at, depth, full);
      outcome := before;
      if w.open.Answered? {
        var written := store.UpsertPullRequests(w.open.value, at);
        var closed := store.CloseStalePullRequests(at, at);
        outcome := outcome.(pullRequests := written, closed := closed);
        if w.merged.Answered? {
          var merged := store.UpsertMergedPullRequests(w.merged.value, at);
          outcome := outcome.(merged := merged);
        }
      }
      ok := Step(Pulls, PullsAnswer(w), at, full);
      if !ok {
        outcome := Failing(outcome, Pulls);
      }
    }

    method SyncPipelines(w: Answers, at: int, full: bool, before: Outcome) returns (outcome: Outcome)
      modifies this`cursors, store`pipelines
      ensures cursors == Mark(old(cursors), Pipelines, w.pipelines, at, full)
      ensures store.pipelines == SyncedPipelines(old(store.pipelines), w, at)
      ensures outcome == PipelinesReported(before, old(store.pipelines), w, at)
    {
      outcome := before;
      if w.pipelines.Answered? {
        var written := store.UpsertPipelines(w.pipelines.value, at);
        outcome := outcome.(pipelines := written);
      }
      var ok := Step(Pipelines, w.pipelines, at, full);
      if !ok {
        outcome := Failing(outcome, Pipelines);
      }
    }

    method SyncDeployments(w: Answers, at: int, full: bool, before: Outcome) returns (outcome: Outcome)
      modifies this`cursors, store`deployments
      ensures cursors == Mark(old(cursors), Deployments, w.deployments, at, full)
      ensures store.deployments == SyncedDeployments(old(store.deployments), w, at)
      ensures outcome == DeploymentsReported(before, w)
    {
      outcome := before;
      if w.deployments.Answered? {
        var written := store.UpsertDeployments(w.deployments.value, at);
        outcome := outcome.(deployments := written);
      }
      var ok := Step(Deployments, w.deployments, at, full);
      if !ok {
        outcome := Failing(outcome, Deployments);
      }
    }

    /** The listings scoped by the repositories, each landing or failing on its own. */
    method ListScoped(w: Answers, at: int, full: bool, depth: int, before: Outcome)
      returns (outcome: Outcome, listed: Option<int>)
      requires before.pullRequests == before.closed == before.merged == 0
      modifies this`cursors, store`pullRequests, store`pipelines, store`deployments
      ensures cursors == Mark(Mark(Mark(old(cursors), Pulls, PullsAnswer(w), at, full), Pipelines, w.pipelines, at,
                                   full),
                              Deployments, w.deployments, at, full)
      ensures store.pullRequests == SyncedPullRequests(old(store.pullRequests), w, at)
      ensures store.pipelines == SyncedPipelines(old(store.pipelines), w, at)
      ensures store.deployments == SyncedDeployments(old(store.deployments), w, at)
      ensures outcome == ListingsReported(before, old(Contents()), w, at)
      ensures listed == if PullsAnswer(w).Answered?
                        then Some(MergedSince(StateOf(old(cursors), Pulls).cursor, at, depth, full)) else None
    {
      var ok, since;
      ok, since, outcome := SyncPullRequests(w, at, full, depth, before);
      listed := if ok then Some(since) else None;
      outcome := SyncPipelines(w, at, full, outcome);
      outcome := SyncDeployments(w, at, full, outcome);
    }

    /** The listings of a run that is not skipped, and the pruning where it reconciles. */
    method List(w: Answers, at: int, full: bool, depth: int) returns (outcome: Outcome, listed: Option<int>)
      modifies this`cursors, store
      ensures cursors == AfterListings(old(cursors), w, at, full)
      ensures Contents() == Synced(old(Contents()), w, at, full)
      ensures outcome == Report(old(Contents()), w, at, full)
      ensures listed == if w.repos.Answered? && PullsAnswer(w).Answered?
                        then Some(MergedSince(StateOf(old(cursors), Pulls).cursor, at, depth, full)) else None
    {
      outcome, listed := NothingDone(full), None;
      if w.repos.Answered? {
        var named := store.UpsertRepos(Named(w.repos.value), at);
        outcome := outcome.(repos := named);
      }
      var ok := Step(Repos, w.repos, at, full);
      if !ok {
        outcome := Failing(outcome, Repos);
        return;
      }
      outcome, listed := ListScoped(w, at, full, depth, outcome);
      assert Contents() == Synced(old(Contents()), w, at, false);
      if full {
        var pruned := store.PruneOutOfScope(w.repos.value);
        outcome := outcome.(pruned := pruned);
      }
    }

    /**
     * One run. `listed` is the lower bound the merged listing was asked from,
     * where both pull request listings answered.
     */
    method SyncOnce(q: Request, depth: int) returns (outcome: Outcome, listed: Option<int>)
      modifies this`cursors, store
      ensures cursors == AfterRun(old(cursors), q)
      ensures Contents() == if IsSkipped(old(cursors), q) then old(Contents())
                            else Synced(old(Contents()), q.answers, q.startedAt, IsFull(old(cursors), q))
      ensures outcome == if IsSkipped(old(cursors), q) then NothingDone(false).(skipped := true)
                         else Report(old(Contents()), q.answers, q.startedAt, IsFull(old(cursors), q))
      ensures listed == if ListsPulls(old(cursors), q)
                        then Some(MergedSince(StateOf(old(cursors), Pulls).cursor, q.startedAt, depth,
                                              IsFull(old(cursors), q)))
                        else None
      ensures outcome.full <==> q.force || SomeListingOverdue(old(cursors), q.startedAt)
      ensures outcome.skipped <==> !q.force && !SomeListingOverdue(old(cursors), q.startedAt)
                                   && HeardLately(q.lastEventAt, q.startedAt)
      ensures outcome.skipped ==> Contents() == old(Contents()) && listed == None
      ensures outcome.skipped ==> MarkedCurrent(old(cursors), cursors, q.startedAt)
      ensures listed.Some? ==>
                IsListingStart(listed.value, StateOf(old(cursors), Pulls).cursor, q.startedAt, depth, outcome.full)
    {
      FullAndSkippedIff(cursors, q);
      var due := DueForFullSync(q.startedAt);
      var full := q.force || due;
      if SkipsDelta(q.lastEventAt, q.startedAt, full) {
        MarkAllMarksCurrent(cursors, q.startedAt);
        cursors := MarkAll(cursors, q.startedAt);
        return NothingDone(full).(skipped := true), None;
      }
      ReportIsOfRun(Contents(), q.answers, q.startedAt, full);
      outcome, listed := List(q.answers, q.startedAt, full, depth);
    }
  }

  /** A run names every listing that failed, in the order they are asked, and no other. */
  lemma FailuresAreNamed(s: Stored, w: Answers, at: int, full: bool)
    ensures Report(s, w, at, full).failed == FailedListings(w)
  {
    if w.repos.Answered? {
      var listed := ListingsReported(NothingDone(full).(repos := |w.repos.value|), s, w, at);
      ListingsFailed(NothingDone(full).(repos := |w.repos.value|), s, w, at);
      assert Report(s, w, at, full).failed == listed.failed;
    }
  }

  lemma ListingsFailed(before: Outcome, s: Stored, w: Answers, at: int)
    requires before.failed == [] && w.repos.Answered?
    ensures ListingsReported(before, s, w, at).failed == FailedListings(w)
  {
    var pulls := PullsReported(before, s.pullRequests, w, at);
    assert pulls.failed == if PullsAnswer(w).Refused? then [Pulls] else [];
    assert PipelinesReported(pulls, s.pipelines, w, at).failed
           == pulls.failed + if w.pipelines.Refused? then [Pipelines] else [];
  }

  lemma ReportIsOfRun(s: Stored, w: Answers, at: int, full: bool)
    ensures Report(s, w, at, full).full == full && !Report(s, w, at, full).skipped
  {
  }

  /** Where the two listings of the requests land, and where they fail, in the counts of a run. */
  lemma CountsOfPulls(before: Outcome, s: Stored, w: Answers, at: int)
    ensures var r := ListingsReported(before, s, w, at);
      && r.full == before.full && r.skipped == before.skipped && r.repos == before.repos && r.pruned == before.pruned
      && r.pullRequests == (if w.open.Refused? then 0
                            else Written(s.pullRequests, s.pullRequests, w.open.value, OpenId, OpenMerge(at),
                                         PullRequestGuard))
      && r.closed == (if w.open.Refused? then 0
                      else NewlyClosed(AfterOpen(s.pullRequests, w.open.value, at), at))
  {
    ClosedByTheSweep(s.pullRequests, w, at);
    assert ListingsReported(before, s, w, at).closed == ClosedCount(s.pullRequests, w, at);
  }

  lemma ClosedByTheSweep(table: Table<PullRequestRow>, w: Answers, at: int)
    ensures ClosedCount(table, w, at) == if w.open.Refused? then 0
                                         else NewlyClosed(AfterOpen(table, w.open.value, at), at)
  {
    if w.open.Answered? {
      SweptAreNewlyClosed(AfterOpen(table, w.open.value, at), at);
    }
  }

  lemma SweptAreNewlyClosed(table: Table<PullRequestRow>, at: int)
    ensures |set id | id in table && Abandoned(table[id], at)| == NewlyClosed(table, at)
  {
    assert (set id | id in table && Abandoned(table[id], at))
        == set id | id in table && (table[id].state.Open? || table[id].state.Draft?) && table[id].seenAt < at;
  }

  /** How many rows the sweep will find on the board and not seen since this instant. */
  function NewlyClosed(table: Table<PullRequestRow>, at: int): nat {
    |set id | id in table && (table[id].state.Open? || table[id].state.Draft?) && table[id].seenAt < at|
  }

  lemma CountsOfTheRest(before: Outcome, s: Stored, w: Answers, at: int)
    requires before.pipelines == before.deployments == 0
    ensures var r := ListingsReported(before, s, w, at);
      && r.merged == (if w.open.Refused? || w.merged.Refused? then 0
                      else MergesWritten(AfterSweep(AfterOpen(s.pullRequests, w.open.value, at), at, at),
                                         w.merged.value, at))
      && r.pipelines == (if w.pipelines.Refused? then 0
                         else Written(s.pipelines, s.pipelines, w.pipelines.value, PipelineId, PipelineMerge(at),
                                      PipelineGuard))
      && r.deployments == (if w.deployments.Refused? then 0 else |w.deployments.value|)
  {
  }

  function MergesWritten(table: Table<PullRequestRow>, readings: seq<MergedReading>, at: int): nat {
    Written(table, table, readings, MergedId, MergedMerge(at), PullRequestGuard)
  }

  /** How many of a table's rows are of no repository listed. */
  function Strays<Row(!new)>(table: Table<Row>, repo: Row -> string, repos: seq<string>): nat {
    |set id | id in table && repo(table[id]) !in repos|
  }

  /**
   * What a run reports as pruned: nothing unless it is full and names some repository, and else the rows of
   * no repository listed that its listings leave, of every table.
   */
  lemma PrunedAreStrays(s: Stored, w: Answers, at: int, full: bool)
    ensures var left := Synced(s, w, at, false);
      Report(s, w, at, full).pruned ==
      if !full || w.repos.Refused? || w.repos.value == [] then 0
      else Strays(left.pullRequests, RepoOfPullRequest, w.repos.value)
           + Strays(left.pipelines, RepoOfPipeline, w.repos.value)
           + Strays(left.deployments, RepoOfDeployment, w.repos.value)
           + |set name | name in left.repos && name !in w.repos.value|
  {
    if full && w.repos.Answered? && w.repos.value != [] {
      var left := Synced(s, w, at, false);
      PruningDropsStrays(left.pullRequests, RepoOfPullRequest, w.repos.value);
      PruningDropsStrays(left.pipelines, RepoOfPipeline, w.repos.value);
      PruningDropsStrays(left.deployments, RepoOfDeployment, w.repos.value);
      PruningDropsRepos(left.repos, w.repos.value);
    }
  }

  lemma PruningDropsStrays<Row(!new)>(table: Table<Row>, repo: Row -> string, repos: seq<string>)
    requires repos != []
    ensures |Pruned(table, repo, repos)| + Strays(table, repo, repos) == |table|
  {
    var stray := set id | id in table && repo(table[id]) !in repos;
    assert Pruned(table, repo, repos).Keys + stray == table.Keys;
  }

  lemma PruningDropsRepos(table: Table<RepoRow>, repos: seq<string>)
    requires repos != []
    ensures |PrunedRepos(table, repos)| + |set name | name in table && name !in repos| == |table|
  {
    var stray := set name | name in table && name !in repos;
    assert PrunedRepos(table, repos).Keys + stray == table.Keys;
  }

  /** Where each id is listed once, rows are written for the readings that had something to add to what was held. */
  lemma OpenAdditions(table: Table<PullRequestRow>, readings: seq<OpenReading>, at: int)
    requires DistinctIds(readings, OpenId)
    ensures Written(table, table, readings, OpenId, OpenMerge(at), PullRequestGuard)
            == |Kept(readings, Adds(table, OpenId, OpenMerge(at)))|
  {
    WrittenCountsAdditions(table, readings, OpenId, OpenMerge(at), PullRequestGuard);
  }

  lemma PipelineAdditions(table: Table<PipelineRow>, readings: seq<PipelineReading>, at: int)
    requires DistinctIds(readings, PipelineId)
    ensures Written(table, table, readings, PipelineId, PipelineMerge(at), PipelineGuard)
         == |Kept(readings, Adds(table, PipelineId, PipelineMerge(at)))|
  {
    WrittenCountsAdditions(table, readings, PipelineId, PipelineMerge(at), PipelineGuard);
  }

  /** A merge always has something to add. */
  lemma MergedAdditions(table: Table<PullRequestRow>, readings: seq<MergedReading>, at: int)
    requires DistinctIds(readings, MergedId)
    ensures Written(table, table, readings, MergedId, MergedMerge(at), PullRequestGuard) == |readings|
  {
    WrittenCountsAdditions(table, readings, MergedId, MergedMerge(at), PullRequestGuard);
    KeptAll(readings, Adds(table, MergedId, MergedMerge(at)));
  }
}
