/**
 * What no sequence of store calls may lose: the promises of
 * back/src/ingest/merge.ts over whole histories.
 */
module History {
  import opened Merge
  import opened Options
  import opened Rows
  import opened Tables

  datatype Stored = Stored(
    repos: Table<RepoRow>,
    pullRequests: Table<PullRequestRow>,
    pipelines: Table<PipelineRow>,
    deployments: Table<DeploymentRow>
  )

  /** One call, from either transport. A webhook is a batch of one. */
  datatype Call =
    | UpsertOpen(open: seq<OpenReading>, at: int)
    | UpsertMerged(merged: seq<MergedReading>, at: int)
    | UpsertPipelines(pipelines: seq<PipelineReading>, at: int)
    | UpsertDeployments(deployments: seq<DeploymentReading>, at: int)
    | CloseStale(before: int, at: int)

  function Apply(s: Stored, call: Call): Stored {
    match call
    case UpsertOpen(readings, at) => s.(pullRequests := AfterOpen(s.pullRequests, readings, at))
    case UpsertMerged(readings, at) => s.(pullRequests := AfterMerged(s.pullRequests, readings, at))
    case UpsertPipelines(readings, at) => s.(pipelines := AfterPipelines(s.pipelines, readings, at))
    case UpsertDeployments(readings, at) => s.(deployments := AfterDeployments(s.deployments, readings, at))
    case CloseStale(before, at) => s.(pullRequests := AfterSweep(s.pullRequests, before, at))
  }

  function Run(s: Stored, calls: seq<Call>): Stored {
    if calls == [] then s else Apply(Run(s, calls[..|calls| - 1]), calls[|calls| - 1])
  }

  /** A row that knows its merge date is off the board. */
  predicate Settled(row: PullRequestRow) {
    row.mergedAt.Some? ==> !OnBoard(row.state)
  }

  predicate KeepsPullRequest(a: PullRequestRow, b: PullRequestRow) {
    && a.updatedAt <= b.updatedAt
    && (a.mergedAt.Some? ==> b.mergedAt.Some?)
    && (a.firstCommitAt.Some? ==> b.firstCommitAt.Some?)
    && (a.firstReviewAt.Some? ==> b.firstReviewAt.Some?)
    && (a.mergedAt.Some? && Settled(a) ==> !OnBoard(b.state))
    && (Settled(a) ==> Settled(b))
  }

  predicate KeepsPipeline(a: PipelineRow, b: PipelineRow) {
    && a.updatedAt <= b.updatedAt
    && StatusRank(a.status) <= StatusRank(b.status)
    && (a.durationSec.Some? ==> b.durationSec.Some?)
  }

  predicate KeepsDeployment(a: DeploymentRow, b: DeploymentRow) {
    && StatusRank(a.status) <= StatusRank(b.status)
    && (a.environmentUrl.Some? ==> b.environmentUrl.Some?)
    && (a.url.Some? ==> b.url.Some?)
  }

  /** Every row is still there, and nothing it had established is gone. */
  ghost predicate Keeps(a: Stored, b: Stored) {
    && (forall id :: id in a.pullRequests ==> id in b.pullRequests
                                              && KeepsPullRequest(a.pullRequests[id], b.pullRequests[id]))
    && (forall id :: id in a.pipelines ==> id in b.pipelines && KeepsPipeline(a.pipelines[id], b.pipelines[id]))
    && (forall id :: id in a.deployments ==> id in b.deployments
                                             && KeepsDeployment(a.deployments[id], b.deployments[id]))
  }

  ghost predicate AllSettled(s: Stored) {
    forall id :: id in s.pullRequests ==> Settled(s.pullRequests[id])
  }

  lemma CallKeeps(s: Stored, call: Call)
    ensures Keeps(s, Apply(s, call))
    ensures AllSettled(s) ==> AllSettled(Apply(s, call))
  {
    var next := Apply(s, call);
    match call
    case UpsertOpen(readings, at) =>
      forall id ensures KeepsRow(Get(s.pullRequests, id), Get(next.pullRequests, id)) {
        var row := Get(s.pullRequests, id);
        OpenByWinner(s.pullRequests, readings, at, id);
        OpenStepKeeps(row, OpenWinner(row, readings, at, id), at);
      }
      RowsKeep(s, next);
    case UpsertMerged(readings, at) =>
      forall id ensures KeepsRow(Get(s.pullRequests, id), Get(next.pullRequests, id)) {
        var row := Get(s.pullRequests, id);
        MergedByWinner(s.pullRequests, readings, at, id);
        MergedStepKeeps(row, MergedWinner(row, readings, at, id), at);
      }
      RowsKeep(s, next);
    case UpsertPipelines(readings, at) =>
      PipelinesKeep(s.pipelines, readings, at);
    case UpsertDeployments(readings, at) =>
      DeploymentsKeep(s.deployments, readings, at);
    case CloseStale(before, at) =>
  }

  /** A row stays, keeps what it had, and stays settled; a new one arrives settled. */
  predicate KeepsRow(a: Option<PullRequestRow>, b: Option<PullRequestRow>) {
    && (a.Some? ==> b.Some? && KeepsPullRequest(a.value, b.value))
    && (b.Some? && (a.Some? ==> Settled(a.value)) ==> Settled(b.value))
  }

  lemma RowsKeep(s: Stored, next: Stored)
    requires forall id :: KeepsRow(Get(s.pullRequests, id), Get(next.pullRequests, id))
    requires next == s.(pullRequests := next.pullRequests)
    ensures Keeps(s, next) && (AllSettled(s) ==> AllSettled(next))
  {
    forall id | id in s.pullRequests
      ensures id in next.pullRequests && KeepsPullRequest(s.pullRequests[id], next.pullRequests[id])
    {
      assert KeepsRow(Get(s.pullRequests, id), Get(next.pullRequests, id));
    }
    forall id | id in next.pullRequests && AllSettled(s) ensures Settled(next.pullRequests[id]) {
      assert KeepsRow(Get(s.pullRequests, id), Get(next.pullRequests, id));
    }
  }

  lemma OpenStepKeeps(row: Option<PullRequestRow>, reading: Option<OpenReading>, at: int)
    ensures KeepsRow(row, OpenStep(row, reading, at))
  {
  }

  lemma MergedStepKeeps(row: Option<PullRequestRow>, reading: Option<MergedReading>, at: int)
    ensures KeepsRow(row, Applied(row, reading, MergedMerge(at)))
  {
  }

  lemma PipelinesKeep(table: Table<PipelineRow>, readings: seq<PipelineReading>, at: int)
    ensures var next := AfterPipelines(table, readings, at);
      forall id :: id in table ==> id in next && KeepsPipeline(table[id], next[id])
  {
    var next := AfterPipelines(table, readings, at);
    forall id | id in table ensures id in next && KeepsPipeline(table[id], next[id]) {
      PipelinesByWinner(table, readings, at, id);
      assert Get(next, id) == Applied(Get(table, id), PipelineWinner(Get(table, id), readings, at, id),
                                      PipelineMerge(at));
    }
  }

  lemma DeploymentsKeep(table: Table<DeploymentRow>, readings: seq<DeploymentReading>, at: int)
    ensures var next := AfterDeployments(table, readings, at);
      forall id :: id in table ==> id in next && KeepsDeployment(table[id], next[id])
  {
    var next := AfterDeployments(table, readings, at);
    forall id | id in table ensures id in next && KeepsDeployment(table[id], next[id]) {
      DeploymentsByWinner(table, readings, at, id);
      assert Get(next, id) == Applied(Get(table, id), DeploymentWinner(Get(table, id), readings, at, id),
                                      DeploymentMerge(at));
    }
  }

  /**
   * Over any history of calls, in any order and from any feed, nothing
   * established is lost: dates, durations and addresses once known stay known,
   * statuses only settle, a merged request never returns to the board.
   */
  lemma {:induction false} NothingEstablishedIsLost(s: Stored, calls: seq<Call>)
    ensures Keeps(s, Run(s, calls))
    ensures AllSettled(s) ==> AllSettled(Run(s, calls))
  {
    if calls != [] {
      var n := |calls| - 1;
      NothingEstablishedIsLost(s, calls[..n]);
      CallKeeps(Run(s, calls[..n]), calls[n]);
      KeepsTransitive(s, Run(s, calls[..n]), Run(s, calls));
    }
  }

  lemma KeepsTransitive(a: Stored, b: Stored, c: Stored)
    requires Keeps(a, b) && Keeps(b, c)
    ensures Keeps(a, c)
  {
  }

  // ─── Ids that name their repository ───

  ghost predicate PullRequestsByRepo(table: Table<PullRequestRow>) {
    forall id :: id in table ==> NamesItsRepo(id, table[id].repo)
  }

  ghost predicate PipelinesByRepo(table: Table<PipelineRow>) {
    forall id :: id in table ==> NamesItsRepo(id, table[id].repo)
  }

  /** Readings whose id names their repository, as every connector and webhook builds them. */
  ghost predicate ReadByRepo(call: Call) {
    match call
    case UpsertOpen(readings, _) => forall r :: r in readings ==> NamesItsRepo(r.id, r.repo)
    case UpsertMerged(readings, _) => forall r :: r in readings ==> NamesItsRepo(r.id, r.repo)
    case UpsertPipelines(readings, _) => forall r :: r in readings ==> NamesItsRepo(r.id, r.repo)
    case UpsertDeployments(_, _) => true
    case CloseStale(_, _) => true
  }

  lemma CallStaysByRepo(s: Stored, call: Call)
    requires PullRequestsByRepo(s.pullRequests) && PipelinesByRepo(s.pipelines) && ReadByRepo(call)
    ensures PullRequestsByRepo(Apply(s, call).pullRequests) && PipelinesByRepo(Apply(s, call).pipelines)
  {
    var next := Apply(s, call);
    match call
    case UpsertOpen(readings, at) =>
      forall id | id in next.pullRequests ensures NamesItsRepo(id, next.pullRequests[id].repo) {
        OpenByWinner(s.pullRequests, readings, at, id);
        ReadingIsListed(readings, OpenId, id);
      }
    case UpsertMerged(readings, at) =>
      forall id | id in next.pullRequests ensures NamesItsRepo(id, next.pullRequests[id].repo) {
        MergedByWinner(s.pullRequests, readings, at, id);
      }
    case UpsertPipelines(readings, at) =>
      forall id | id in next.pipelines ensures NamesItsRepo(id, next.pipelines[id].repo) {
        PipelinesByWinner(s.pipelines, readings, at, id);
      }
    case UpsertDeployments(_, _) =>
    case CloseStale(_, _) =>
  }

  /** A store filled from such readings holds each id under the repository it names, and under no other. */
  lemma {:induction false} StaysByRepo(s: Stored, calls: seq<Call>)
    requires PullRequestsByRepo(s.pullRequests) && PipelinesByRepo(s.pipelines)
    requires forall call :: call in calls ==> ReadByRepo(call)
    ensures PullRequestsByRepo(Run(s, calls).pullRequests) && PipelinesByRepo(Run(s, calls).pipelines)
  {
    if calls != [] {
      var n := |calls| - 1;
      StaysByRepo(s, calls[..n]);
      CallStaysByRepo(Run(s, calls[..n]), calls[n]);
    }
  }

  // ─── What one batch may blank of its own ───

  /** Known afterwards: what the row already had, and what the winner states, but not what another reading states. */
  lemma MergedBatchKnows(table: Table<PullRequestRow>, readings: seq<MergedReading>, at: int, key: string)
    ensures var (row, w, after) := (Get(table, key), MergedWinner(Get(table, key), readings, at, key),
                                    Get(AfterMerged(table, readings, at), key));
      && (after.Some? <==> row.Some? || w.Some?)
      && (after.Some? ==>
           && (after.value.firstCommitAt.Some? <==>
                (row.Some? && row.value.firstCommitAt.Some?) || (w.Some? && w.value.firstCommitAt.Some?))
           && (after.value.firstReviewAt.Some? <==>
                (row.Some? && row.value.firstReviewAt.Some?) || (w.Some? && w.value.firstReviewAt.Some?)))
  {
    MergedByWinner(table, readings, at, key);
  }

  lemma PipelineBatchKnows(table: Table<PipelineRow>, readings: seq<PipelineReading>, at: int, key: string)
    ensures var (row, w, after) := (Get(table, key), PipelineWinner(Get(table, key), readings, at, key),
                                    Get(AfterPipelines(table, readings, at), key));
      && (after.Some? <==> row.Some? || w.Some?)
      && (after.Some? ==>
           (after.value.durationSec.Some? <==> (row.Some? && row.value.durationSec.Some?)
                                               || (w.Some? && w.value.durationSec.Some?)))
  {
    PipelinesByWinner(table, readings, at, key);
  }

  lemma DeploymentBatchKnows(table: Table<DeploymentRow>, readings: seq<DeploymentReading>, at: int, key: string)
    ensures var (row, w, after) := (Get(table, key), DeploymentWinner(Get(table, key), readings, at, key),
                                    Get(AfterDeployments(table, readings, at), key));
      && w == ReadingOf(readings, DeploymentId, key)
      && (after.Some? <==> row.Some? || w.Some?)
      && (after.Some? ==>
           && (after.value.url.Some? <==> (row.Some? && row.value.url.Some?) || (w.Some? && w.value.url.Some?))
           && (after.value.environmentUrl.Some? <==>
                (row.Some? && row.value.environmentUrl.Some?) || (w.Some? && w.value.environmentUrl.Some?)))
  {
    DeploymentsByWinner(table, readings, at, key);
    LastDeploymentWins(Get(table, key), readings, at, key);
  }

  lemma {:induction false} LastDeploymentWins(row: Option<DeploymentRow>, readings: seq<DeploymentReading>, at: int,
                                              key: string)
    ensures DeploymentWinner(row, readings, at, key) == ReadingOf(readings, DeploymentId, key)
  {
    if readings != [] {
      LastDeploymentWins(row, readings[..|readings| - 1], at, key);
    }
  }

  /**
   * A date one reading of the batch states is blank afterwards exactly where the
   * row had none and the last of the readings dated latest, of the same id, does
   * not state it. With one reading per id that reading is itself, and nothing is.
   */
  lemma StatedDateIsBlankIff(table: Table<PullRequestRow>, readings: seq<MergedReading>, at: int, i: int, k: int)
    requires 0 <= i < |readings|
    requires IsLastOfLatest(k, Get(table, readings[i].id), readings, readings[i].id)
    ensures var (id, after) := (readings[i].id, AfterMerged(table, readings, at));
      && id in after
      && (readings[i].firstCommitAt.Some? ==>
           (after[id].firstCommitAt.None? <==> readings[k].firstCommitAt.None?
                                               && (id in table ==> table[id].firstCommitAt.None?)))
      && (readings[i].firstReviewAt.Some? ==>
           (after[id].firstReviewAt.None? <==> readings[k].firstReviewAt.None?
                                               && (id in table ==> table[id].firstReviewAt.None?)))
    ensures DistinctIds(readings, MergedId) ==> k == i
  {
    var id := readings[i].id;
    var row := Get(table, id);
    assert readings[i] in readings;
    MergedBatchKnows(table, readings, at, id);
    MergedWinnerIsLastOfLatest(row, readings, at, id);
    var w :| IsLastOfLatest(w, row, readings, id) && MergedWinner(row, readings, at, id) == Some(readings[w]);
    assert w == k;
    assert MergedId(readings[i]) == MergedId(readings[k]);
  }

  const SOME_READING := MergedReading("1", "api", 1, "", "", "", "", 0, 5, Some(3), None, [])

  /** A witness: the second of two merges into what the first had not written yet. */
  lemma RepeatedReadingBlanks()
    ensures var readings := [SOME_READING, SOME_READING.(firstCommitAt := None)];
      var after := AfterMerged(map[], readings, 9);
      readings[0].firstCommitAt.Some? && "1" in after && after["1"].firstCommitAt == None
  {
    StatedDateIsBlankIff(map[], [SOME_READING, SOME_READING.(firstCommitAt := None)], 9, 0, 1);
  }
}
