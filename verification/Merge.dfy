/** The stored rows and the readings two feeds report, dates as milliseconds. */
module Rows {
  import opened Options

  datatype PullRequestState = Open | Draft | Merged | Closed

  datatype PipelineStatus = Unknown | Pending | Running | Success | Failed | Canceled | Skipped

  datatype PullRequestRow = PullRequestRow(
    repo: string, number: int, title: string, body: Option<string>, state: PullRequestState,
    author: Option<string>, url: string, repoUrl: Option<string>, headRef: string,
    openedAt: int, updatedAt: int, mergedAt: Option<int>, reviewers: int,
    firstCommitAt: Option<int>, firstReviewAt: Option<int>, labels: seq<string>, seenAt: int)

  datatype PipelineRow = PipelineRow(
    repo: string, externalId: string, repoUrl: string, ref: string, status: PipelineStatus, url: string,
    createdAt: int, updatedAt: int, durationSec: Option<real>, seenAt: int)

  datatype DeploymentRow = DeploymentRow(
    repo: string, externalId: string, environment: string, ref: string, status: PipelineStatus,
    environmentUrl: Option<string>, url: Option<string>, createdAt: int, seenAt: int)

  datatype RepoRow = RepoRow(defaultBranch: Option<string>, seenAt: int)

  /** What the open listing reports. */
  datatype OpenReading = OpenReading(
    id: string, repo: string, number: int, title: string, body: string, state: PullRequestState,
    author: string, url: string, repoUrl: string, headRef: string, createdAt: int, updatedAt: int,
    mergedAt: Option<int>, reviewers: int, labels: seq<string>)

  /** What the merged listing reports. */
  datatype MergedReading = MergedReading(
    id: string, repo: string, number: int, title: string, body: string, url: string, headRef: string,
    openedAt: int, mergedAt: int, firstCommitAt: Option<int>, firstReviewAt: Option<int>, labels: seq<string>)

  datatype PipelineReading = PipelineReading(
    id: string, repo: string, repoUrl: string, ref: string, status: PipelineStatus, url: string,
    createdAt: int, updatedAt: int, durationSec: Option<real>)

  datatype DeploymentReading = DeploymentReading(
    id: string, repo: string, environment: string, ref: string, status: PipelineStatus,
    environmentUrl: Option<string>, url: Option<string>, createdAt: int)

  /** A repository as a listing names it; its default branch is not always read. */
  datatype RepoReading = RepoReading(name: string, defaultBranch: Option<string>)

  function RepoName(r: RepoReading): string { r.name }

  function OpenId(r: OpenReading): string { r.id }
  function MergedId(r: MergedReading): string { r.id }
  function PipelineId(r: PipelineReading): string { r.id }
  function DeploymentId(r: DeploymentReading): string { r.id }

  /** Ids as the connectors build them: the platform, the repository, and a number or hash without a colon. */
  ghost predicate NamesItsRepo(id: string, repo: string) {
    exists number :: ':' !in number && (id == "gh:" + repo + ":" + number || id == "gl:" + repo + ":" + number)
  }

  /** Such an id belongs to one repository. */
  lemma IdsNameOneRepo(id: string, a: string, b: string)
    requires NamesItsRepo(id, a) && NamesItsRepo(id, b)
    ensures a == b
  {
    var m :| ':' !in m && (id == "gh:" + a + ":" + m || id == "gl:" + a + ":" + m);
    var n :| ':' !in n && (id == "gh:" + b + ":" + n || id == "gl:" + b + ":" + n);
    LastColon(id, a, m);
    LastColon(id, b, n);
    assert id[3..|id| - |m| - 1] == a && id[3..|id| - |n| - 1] == b;
  }

  lemma LastColon(id: string, repo: string, number: string)
    requires ':' !in number && (id == "gh:" + repo + ":" + number || id == "gl:" + repo + ":" + number)
    ensures |id| == 4 + |repo| + |number| && id[3 + |repo|] == ':' && id[3..3 + |repo|] == repo
    ensures forall i :: 3 + |repo| < i < |id| ==> id[i] != ':'
  {
    forall i | 3 + |repo| < i < |id| ensures id[i] != ':' {
      assert id[i] == number[i - 4 - |repo|];
    }
  }

  /** Still on the board. */
  predicate OnBoard(state: PullRequestState) { state.Open? || state.Draft? }
}

/** back/src/ingest/merge.ts: how an incoming reading merges into the stored row. */
module Merge {
  import opened Options
  import opened Rows

  function StatusRank(status: PipelineStatus): nat {
    match status
    case Unknown => 0
    case Pending => 1
    case Running => 2
    case _ => 3
  }

  function LaterStatus(stored: Option<PipelineStatus>, incoming: PipelineStatus): PipelineStatus {
    if stored.None? || StatusRank(incoming) >= StatusRank(stored.value) then incoming else stored.value
  }

  function OrElse<T>(a: Option<T>, b: Option<T>): Option<T> { if a.Some? then a else b }

  function SettledState(state: PullRequestState, mergedAt: Option<int>): PullRequestState {
    if mergedAt.Some? && OnBoard(state) then Merged else state
  }

  /** The row an open reading leaves, or None where the stored one is dated later. */
  function MergeOpen(stored: Option<PullRequestRow>, incoming: OpenReading, seenAt: int): Option<PullRequestRow> {
    if stored.Some? && stored.value.updatedAt > incoming.updatedAt then None
    else
      var mergedAt := OrElse(incoming.mergedAt, if stored.Some? then stored.value.mergedAt else None);
      Some(PullRequestRow(
        incoming.repo, incoming.number, incoming.title, Some(incoming.body), SettledState(incoming.state, mergedAt),
        Some(incoming.author), incoming.url, Some(incoming.repoUrl), incoming.headRef,
        incoming.createdAt, incoming.updatedAt, mergedAt, incoming.reviewers,
        if stored.Some? then stored.value.firstCommitAt else None,
        if stored.Some? then stored.value.firstReviewAt else None,
        incoming.labels, seenAt))
  }

  function MergeMerged(stored: Option<PullRequestRow>, incoming: MergedReading, seenAt: int): PullRequestRow {
    PullRequestRow(
      incoming.repo, incoming.number, incoming.title, Some(incoming.body), Merged,
      if stored.Some? then stored.value.author else None,
      incoming.url,
      if stored.Some? then stored.value.repoUrl else None,
      incoming.headRef, incoming.openedAt,
      if stored.Some? && stored.value.updatedAt > incoming.mergedAt then stored.value.updatedAt else incoming.mergedAt,
      Some(incoming.mergedAt),
      if stored.Some? then stored.value.reviewers else 0,
      OrElse(incoming.firstCommitAt, if stored.Some? then stored.value.firstCommitAt else None),
      OrElse(incoming.firstReviewAt, if stored.Some? then stored.value.firstReviewAt else None),
      incoming.labels, seenAt)
  }

  function MergePipeline(stored: Option<PipelineRow>, incoming: PipelineReading, seenAt: int): Option<PipelineRow> {
    if stored.Some? && stored.value.updatedAt > incoming.updatedAt then None
    else Some(PipelineRow(
      incoming.repo, incoming.id, incoming.repoUrl, incoming.ref,
      LaterStatus(if stored.Some? then Some(stored.value.status) else None, incoming.status),
      incoming.url, incoming.createdAt, incoming.updatedAt,
      OrElse(incoming.durationSec, if stored.Some? then stored.value.durationSec else None),
      seenAt))
  }

  function MergeDeployment(stored: Option<DeploymentRow>, incoming: DeploymentReading, seenAt: int): DeploymentRow {
    DeploymentRow(
      incoming.repo, incoming.id, incoming.environment, incoming.ref,
      LaterStatus(if stored.Some? then Some(stored.value.status) else None, incoming.status),
      OrElse(incoming.environmentUrl, if stored.Some? then stored.value.environmentUrl else None),
      OrElse(incoming.url, if stored.Some? then stored.value.url else None),
      incoming.createdAt, seenAt)
  }
}
