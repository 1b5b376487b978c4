/**
 * What every column of a row holds after a batch of back/src/ingest/store.service.ts,
 * read off the row held before and the reading that decides it.
 */
module Columns {
  import History
  import opened Lists
  import opened Merge
  import opened Options
  import opened Reconciliation
  import opened Rows
  import opened Tables

  // ─── Which reading decides ───

  /** Of the readings of one row that have something to add, the last of those dated latest. */
  predicate Decides<Item(!new)>(i: int, items: seq<Item>, id: Item -> string, key: string, adds: Item -> bool,
                                date: Item -> int) {
    && 0 <= i < |items| && id(items[i]) == key && adds(items[i])
    && (forall j :: 0 <= j < i && id(items[j]) == key && adds(items[j]) ==> date(items[j]) <= date(items[i]))
    && (forall j :: i < j < |items| && id(items[j]) == key && adds(items[j]) ==> date(items[j]) < date(items[i]))
  }

  lemma DecidesOneMore<Item(!new)>(i: int, items: seq<Item>, id: Item -> string, key: string, adds: Item -> bool,
                                   date: Item -> int)
    requires items != [] && Decides(i, items[..|items| - 1], id, key, adds, date)
    ensures var n := |items| - 1;
      var last := if id(items[n]) == key && adds(items[n]) && date(items[i]) <= date(items[n]) then n else i;
      Decides(last, items, id, key, adds, date)
  {
    var n := |items| - 1;
    assert forall j :: 0 <= j < n ==> items[..n][j] == items[j];
  }

  /** A guard that compares dates lets the latest through, the last of equals. */
  lemma {:induction false} WinnerDecides<Item(!new), Row>(held: Option<Row>, items: seq<Item>, id: Item -> string,
                                                          merge: (Option<Row>, Item) -> Option<Row>,
                                                          guard: (Row, Row) -> bool, key: string, adds: Item -> bool,
                                                          date: Item -> int)
    requires forall x :: x in items ==> (merge(held, x).Some? <==> adds(x))
    requires forall x, y :: x in items && y in items && adds(x) && adds(y) ==>
                              (guard(merge(held, x).value, merge(held, y).value) <==> date(x) <= date(y))
    ensures match Winner(held, items, id, merge, guard, key)
            case None => forall j :: 0 <= j < |items| && id(items[j]) == key ==> !adds(items[j])
            case Some(w) => exists i :: Decides(i, items, id, key, adds, date) && items[i] == w
  {
    if items != [] {
      var n := |items| - 1;
      var before := Winner(held, items[..n], id, merge, guard, key);
      assert forall x :: x in items[..n] ==> x in items;
      assert items[n] in items && forall j :: 0 <= j < n ==> items[..n][j] == items[j];
      WinnerDecides(held, items[..n], id, merge, guard, key, adds, date);
      if before.Some? {
        var i :| Decides(i, items[..n], id, key, adds, date) && items[..n][i] == before.value;
        assert items[i] in items;
        DecidesOneMore(i, items, id, key, adds, date);
      } else if id(items[n]) == key && adds(items[n]) {
        assert Decides(n, items, id, key, adds, date);
      }
    }
  }

  // ─── Statuses ───

  /** Strictly more settled: a run that ended, over one that runs, over one that waits, over one unread. */
  predicate FurtherOn(a: PipelineStatus, b: PipelineStatus) {
    match a
    case Unknown => false
    case Pending => b.Unknown?
    case Running => b.Unknown? || b.Pending?
    case _ => b.Unknown? || b.Pending? || b.Running?
  }

  /** The held status stands where it is further on than the one read; the one read wins a tie. */
  predicate IsStatusAfter(after: PipelineStatus, held: Option<PipelineStatus>, read: PipelineStatus) {
    after == if held.Some? && FurtherOn(held.value, read) then held.value else read
  }

  /** What is stated stands; what is not is kept. */
  predicate IsStatedOr<T(==)>(after: Option<T>, stated: Option<T>, held: Option<T>) {
    after == if stated.Some? then stated else held
  }

  // ─── The open feed ───

  predicate OpenColumns(after: PullRequestRow, held: Option<PullRequestRow>, r: OpenReading, at: int) {
    && after.repo == r.repo && after.number == r.number && after.title == r.title && after.body == Some(r.body)
    && after.author == Some(r.author) && after.url == r.url && after.repoUrl == Some(r.repoUrl)
       && after.headRef == r.headRef
    && after.openedAt == r.createdAt && after.updatedAt == r.updatedAt && after.reviewers == r.reviewers
    && after.labels == r.labels && after.seenAt == at
    && IsStatedOr(after.mergedAt, r.mergedAt, if held.Some? then held.value.mergedAt else None)
    && after.firstCommitAt == (if held.Some? then held.value.firstCommitAt else None)
    && after.firstReviewAt == (if held.Some? then held.value.firstReviewAt else None)
    && after.state == if after.mergedAt.Some? && (r.state.Open? || r.state.Draft?) then Merged else r.state
  }

  /** Not older than what is held. */
  function OpenAdds(held: Option<PullRequestRow>): OpenReading -> bool {
    (r: OpenReading) => held.Some? ==> held.value.updatedAt <= r.updatedAt
  }

  function OpenDate(r: OpenReading): int { r.updatedAt }

  /** A row after the open listing, column by column. */
  lemma OpenRowSays(table: Table<PullRequestRow>, readings: seq<OpenReading>, at: int, key: string)
    ensures var (row, after) := (Get(table, key), Get(AfterOpen(table, readings, at), key));
      if forall j :: 0 <= j < |readings| ==> readings[j].id != key then after == row
      else if forall j :: 0 <= j < |readings| && readings[j].id == key ==> !OpenAdds(row)(readings[j])
      then row.Some? && after == Some(row.value.(seenAt := at))
      else after.Some? && exists i :: Decides(i, readings, OpenId, key, OpenAdds(row), OpenDate)
                                      && OpenColumns(after.value, row, readings[i], at)
  {
    var row := Get(table, key);
    OpenByWinner(table, readings, at, key);
    WinnerDecides(row, readings, OpenId, OpenMerge(at), PullRequestGuard, key, OpenAdds(row), OpenDate);
    ReadingIsListed(readings, OpenId, key);
    if w :| w in readings && w.id == key {
      var j :| 0 <= j < |readings| && readings[j] == w;
      assert readings[j].id == key;
    }
    var w := Winner(row, readings, OpenId, OpenMerge(at), PullRequestGuard, key);
    if w.Some? {
      var i :| Decides(i, readings, OpenId, key, OpenAdds(row), OpenDate) && readings[i] == w.value;
      assert readings[i].id == key && OpenAdds(row)(readings[i]);
      OpenColumnsOf(row, readings[i], at);
    }
  }

  lemma OpenColumnsOf(row: Option<PullRequestRow>, r: OpenReading, at: int)
    requires OpenAdds(row)(r)
    ensures MergeOpen(row, r, at).Some? && OpenColumns(MergeOpen(row, r, at).value, row, r, at)
  {
  }

  // ─── The merged feed ───

  predicate MergedColumns(after: PullRequestRow, held: Option<PullRequestRow>, r: MergedReading, at: int) {
    && after.repo == r.repo && after.number == r.number && after.title == r.title && after.body == Some(r.body)
    && after.state == Merged && after.url == r.url && after.headRef == r.headRef && after.openedAt == r.openedAt
    && after.mergedAt == Some(r.mergedAt) && after.labels == r.labels && after.seenAt == at
    && after.author == (if held.Some? then held.value.author else None)
    && after.repoUrl == (if held.Some? then held.value.repoUrl else None)
    && after.reviewers == (if held.Some? then held.value.reviewers else 0)
    && after.updatedAt == (if held.Some? && held.value.updatedAt > r.mergedAt then held.value.updatedAt else r.mergedAt)
    && IsStatedOr(after.firstCommitAt, r.firstCommitAt, if held.Some? then held.value.firstCommitAt else None)
    && IsStatedOr(after.firstReviewAt, r.firstReviewAt, if held.Some? then held.value.firstReviewAt else None)
  }

  /** A row after the merged listing, column by column. */
  lemma MergedRowSays(table: Table<PullRequestRow>, readings: seq<MergedReading>, at: int, key: string)
    ensures var (row, after) := (Get(table, key), Get(AfterMerged(table, readings, at), key));
      if forall j :: 0 <= j < |readings| ==> readings[j].id != key then after == row
      else after.Some? && exists i :: IsLastOfLatest(i, row, readings, key)
                                      && MergedColumns(after.value, row, readings[i], at)
  {
    var row := Get(table, key);
    MergedByWinner(table, readings, at, key);
    MergedWinnerIsLastOfLatest(row, readings, at, key);
    var w := MergedWinner(row, readings, at, key);
    if w.Some? {
      var i :| IsLastOfLatest(i, row, readings, key) && readings[i] == w.value;
      assert readings[i].id == key && MergedColumns(MergeMerged(row, readings[i], at), row, readings[i], at);
    } else {
      assert forall j :: 0 <= j < |readings| ==> readings[j] in readings;
    }
  }

  // ─── Pipelines ───

  predicate PipelineColumns(after: PipelineRow, held: Option<PipelineRow>, r: PipelineReading, at: int) {
    && after.repo == r.repo && after.externalId == r.id && after.repoUrl == r.repoUrl && after.ref == r.ref
    && after.url == r.url && after.createdAt == r.createdAt && after.updatedAt == r.updatedAt && after.seenAt == at
    && IsStatusAfter(after.status, if held.Some? then Some(held.value.status) else None, r.status)
    && IsStatedOr(after.durationSec, r.durationSec, if held.Some? then held.value.durationSec else None)
  }

  function PipelineAdds(held: Option<PipelineRow>): PipelineReading -> bool {
    (r: PipelineReading) => held.Some? ==> held.value.updatedAt <= r.updatedAt
  }

  function PipelineDate(r: PipelineReading): int { r.updatedAt }

  /** A row after the pipeline listing, column by column; readings older than the row leave it as it is. */
  lemma PipelineRowSays(table: Table<PipelineRow>, readings: seq<PipelineReading>, at: int, key: string)
    ensures var (row, after) := (Get(table, key), Get(AfterPipelines(table, readings, at), key));
      if forall j :: 0 <= j < |readings| && readings[j].id == key ==> !PipelineAdds(row)(readings[j]) then after == row
      else after.Some? && exists i :: Decides(i, readings, PipelineId, key, PipelineAdds(row), PipelineDate)
                                      && PipelineColumns(after.value, row, readings[i], at)
  {
    var row := Get(table, key);
    PipelinesByWinner(table, readings, at, key);
    WinnerDecides(row, readings, PipelineId, PipelineMerge(at), PipelineGuard, key, PipelineAdds(row), PipelineDate);
    var w := PipelineWinner(row, readings, at, key);
    if w.Some? {
      var i :| Decides(i, readings, PipelineId, key, PipelineAdds(row), PipelineDate) && readings[i] == w.value;
      assert readings[i].id == key && PipelineAdds(row)(readings[i]);
      PipelineColumnsOf(row, readings[i], at);
    } else {
      assert forall j :: 0 <= j < |readings| ==> PipelineId(readings[j]) == readings[j].id;
    }
  }

  lemma PipelineColumnsOf(row: Option<PipelineRow>, r: PipelineReading, at: int)
    requires PipelineAdds(row)(r)
    ensures MergePipeline(row, r, at).Some? && PipelineColumns(MergePipeline(row, r, at).value, row, r, at)
  {
  }

  // ─── Deployments ───

  predicate DeploymentColumns(after: DeploymentRow, held: Option<DeploymentRow>, r: DeploymentReading, at: int) {
    && after.repo == r.repo && after.externalId == r.id && after.environment == r.environment && after.ref == r.ref
    && after.createdAt == r.createdAt && after.seenAt == at
    && IsStatusAfter(after.status, if held.Some? then Some(held.value.status) else None, r.status)
    && IsStatedOr(after.environmentUrl, r.environmentUrl, if held.Some? then held.value.environmentUrl else None)
    && IsStatedOr(after.url, r.url, if held.Some? then held.value.url else None)
  }

  /** The last reading of a row. */
  predicate IsLastListed(i: int, readings: seq<DeploymentReading>, key: string) {
    0 <= i < |readings| && readings[i].id == key && forall j :: i < j < |readings| ==> readings[j].id != key
  }

  lemma {:induction false} LastListed(readings: seq<DeploymentReading>, key: string)
    ensures match ReadingOf(readings, DeploymentId, key)
            case None => forall j :: 0 <= j < |readings| ==> readings[j].id != key
            case Some(r) => exists i :: IsLastListed(i, readings, key) && readings[i] == r
  {
    if readings != [] {
      var n := |readings| - 1;
      LastListed(readings[..n], key);
      if readings[n].id == key {
        assert IsLastListed(n, readings, key);
      } else if ReadingOf(readings[..n], DeploymentId, key).Some? {
        var i :| IsLastListed(i, readings[..n], key)
                 && readings[..n][i] == ReadingOf(readings[..n], DeploymentId, key).value;
        assert IsLastListed(i, readings, key);
      } else {
        assert forall j :: 0 <= j < n ==> readings[..n][j] == readings[j];
      }
    }
  }

  /** A row after the deployment listing, column by column: no date to tell readings by, the last listed decides. */
  lemma DeploymentRowSays(table: Table<DeploymentRow>, readings: seq<DeploymentReading>, at: int, key: string)
    ensures var (row, after) := (Get(table, key), Get(AfterDeployments(table, readings, at), key));
      if forall j :: 0 <= j < |readings| ==> readings[j].id != key then after == row
      else after.Some? && exists i :: IsLastListed(i, readings, key)
                                      && DeploymentColumns(after.value, row, readings[i], at)
  {
    var row := Get(table, key);
    DeploymentsByWinner(table, readings, at, key);
    History.LastDeploymentWins(row, readings, at, key);
    LastListed(readings, key);
    var r := ReadingOf(readings, DeploymentId, key);
    if r.Some? {
      var i :| IsLastListed(i, readings, key) && readings[i] == r.value;
      assert readings[i].id == key && DeploymentColumns(MergeDeployment(row, readings[i], at), row, readings[i], at);
    }
  }

  // ─── A run's requests, column by column ───

  /** A merge the listing reports is recorded, whatever the open listing and the sweep made of the row before. */
  lemma ListedMergeIsRecorded(table: Table<PullRequestRow>, w: Answers, at: int, key: string)
    requires w.open.Answered? && w.merged.Answered?
    requires exists j :: 0 <= j < |w.merged.value| && w.merged.value[j].id == key
    ensures var after := Get(SyncedPullRequests(table, w, at), key);
      && after.Some? && after.value.state == Merged && after.value.seenAt == at
      && exists i :: 0 <= i < |w.merged.value| && w.merged.value[i].id == key
                     && after.value.mergedAt == Some(w.merged.value[i].mergedAt)
  {
    var swept := AfterSweep(AfterOpen(table, w.open.value, at), at, at);
    MergedRowSays(swept, w.merged.value, at, key);
    var after := Get(SyncedPullRequests(table, w, at), key);
    var i :| IsLastOfLatest(i, Get(swept, key), w.merged.value, key)
             && MergedColumns(after.value, Get(swept, key), w.merged.value[i], at);
    assert w.merged.value[i].id == key;
  }

  /** A request the open listing reports, and no merge, ends the run as that listing leaves it. */
  lemma ListedOpenStands(table: Table<PullRequestRow>, w: Answers, at: int, key: string)
    requires w.open.Answered?
    requires exists j :: 0 <= j < |w.open.value| && w.open.value[j].id == key
    requires w.merged.Answered? ==> forall j :: 0 <= j < |w.merged.value| ==> w.merged.value[j].id != key
    ensures Get(SyncedPullRequests(table, w, at), key) == Get(AfterOpen(table, w.open.value, at), key)
  {
    var listed := AfterOpen(table, w.open.value, at);
    var swept := AfterSweep(listed, at, at);
    OpenRowSays(table, w.open.value, at, key);
    assert Get(listed, key).Some? && Get(listed, key).value.seenAt == at;
    assert Get(swept, key) == Get(listed, key);
    if w.merged.Answered? {
      MergedRowSays(swept, w.merged.value, at, key);
    }
  }

  // ─── A whole run ───

  /** Out of a scope that names any repository, a row is dropped. */
  predicate IsOutOfScope(repo: string, repos: seq<string>, full: bool) {
    full && repos != [] && repo !in repos
  }

  /**
   * Whatever else a run does, a row ends as its listings leave it, untouched where they were refused; every
   * repository listed is stored and seen, with the branch known; and a full run drops what is out of scope.
   */
  lemma RunLands(s: History.Stored, w: Answers, at: int, full: bool, key: string)
    ensures w.repos.Refused? ==> Synced(s, w, at, full) == s
    ensures var landed := SyncedPullRequests(s.pullRequests, w, at);
      (w.open.Refused? ==> landed == s.pullRequests)
      && (w.repos.Answered? ==>
          Get(Synced(s, w, at, full).pullRequests, key) ==
          if key in landed && IsOutOfScope(landed[key].repo, w.repos.value, full) then None else Get(landed, key))
    ensures
      var landed := if w.pipelines.Answered? then AfterPipelines(s.pipelines, w.pipelines.value, at) else s.pipelines;
      w.repos.Answered? ==>
        Get(Synced(s, w, at, full).pipelines, key) ==
        if key in landed && IsOutOfScope(landed[key].repo, w.repos.value, full) then None else Get(landed, key)
    ensures
      var landed := if w.deployments.Answered? then AfterDeployments(s.deployments, w.deployments.value, at)
                    else s.deployments;
      w.repos.Answered? ==>
        Get(Synced(s, w, at, full).deployments, key) ==
        if key in landed && IsOutOfScope(landed[key].repo, w.repos.value, full) then None else Get(landed, key)
    ensures w.repos.Answered? ==>
      Get(Synced(s, w, at, full).repos, key) ==
      if key in w.repos.value then Some(RepoRow(if key in s.repos then s.repos[key].defaultBranch else None, at))
      else if IsOutOfScope(key, w.repos.value, full) then None
      else Get(s.repos, key)
  {
    if w.repos.Answered? {
      NamedReposByName(s.repos, w.repos.value, at, key);
    }
  }
}
