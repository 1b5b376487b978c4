/** What the writes of back/src/ingest/store.service.ts make of the stored tables of one source. */
module Tables {
  import opened Lists
  import opened Merge
  import opened Options
  import opened Rows

  type Table<Row> = map<string, Row>

  /**
   * A guarded update, then a creation: the row is replaced where the guard lets
   * it, created where there is none, and lost where a newer one stands.
   */
  function Write<Row>(table: Table<Row>, id: string, row: Row, guard: (Row, Row) -> bool): Table<Row> {
    if id in table && !guard(table[id], row) then table else table[id := row]
  }

  /** One write per reading that has something to add, each merged into the row held at the start. */
  function Batch<Item, Row>(table: Table<Row>, held: Table<Row>, items: seq<Item>, id: Item -> string,
                            merge: (Option<Row>, Item) -> Option<Row>, guard: (Row, Row) -> bool): Table<Row>
  {
    if items == [] then table
    else
      var before := Batch(table, held, items[..|items| - 1], id, merge, guard);
      var item := items[|items| - 1];
      var row := merge(Get(held, id(item)), item);
      if row.Some? then Write(before, id(item), row.value, guard) else before
  }

  function Written<Item, Row>(table: Table<Row>, held: Table<Row>, items: seq<Item>, id: Item -> string,
                              merge: (Option<Row>, Item) -> Option<Row>, guard: (Row, Row) -> bool): nat
  {
    if items == [] then 0
    else
      var before := Batch(table, held, items[..|items| - 1], id, merge, guard);
      var item := items[|items| - 1];
      var row := merge(Get(held, id(item)), item);
      Written(table, held, items[..|items| - 1], id, merge, guard)
      + if row.Some? && (id(item) !in before || guard(before[id(item)], row.value)) then 1 else 0
  }

  function OpenMerge(seenAt: int): (Option<PullRequestRow>, OpenReading) -> Option<PullRequestRow> {
    (stored: Option<PullRequestRow>, r: OpenReading) => MergeOpen(stored, r, seenAt)
  }

  function MergedMerge(seenAt: int): (Option<PullRequestRow>, MergedReading) -> Option<PullRequestRow> {
    (stored: Option<PullRequestRow>, r: MergedReading) => Some(MergeMerged(stored, r, seenAt))
  }

  function PipelineMerge(seenAt: int): (Option<PipelineRow>, PipelineReading) -> Option<PipelineRow> {
    (stored: Option<PipelineRow>, r: PipelineReading) => MergePipeline(stored, r, seenAt)
  }

  function DeploymentMerge(seenAt: int): (Option<DeploymentRow>, DeploymentReading) -> Option<DeploymentRow> {
    (stored: Option<DeploymentRow>, r: DeploymentReading) => Some(MergeDeployment(stored, r, seenAt))
  }

  predicate PullRequestGuard(stored: PullRequestRow, incoming: PullRequestRow) {
    stored.updatedAt <= incoming.updatedAt
  }

  predicate PipelineGuard(stored: PipelineRow, incoming: PipelineRow) { stored.updatedAt <= incoming.updatedAt }

  predicate NoGuard(stored: DeploymentRow, incoming: DeploymentRow) { true }

  /** The readings that had nothing to add: listed all the same. */
  function StaleIds(held: Table<PullRequestRow>, readings: seq<OpenReading>, seenAt: int): set<string> {
    set r | r in readings && MergeOpen(Get(held, r.id), r, seenAt).None? :: r.id
  }

  function MarkSeen(table: Table<PullRequestRow>, ids: set<string>, seenAt: int): Table<PullRequestRow> {
    map id | id in table :: if id in ids then table[id].(seenAt := seenAt) else table[id]
  }

  function AfterOpen(table: Table<PullRequestRow>, readings: seq<OpenReading>, seenAt: int): Table<PullRequestRow> {
    MarkSeen(Batch(table, table, readings, OpenId, OpenMerge(seenAt), PullRequestGuard),
             StaleIds(table, readings, seenAt), seenAt)
  }

  function AfterMerged(table: Table<PullRequestRow>, readings: seq<MergedReading>, seenAt: int): Table<PullRequestRow> {
    Batch(table, table, readings, MergedId, MergedMerge(seenAt), PullRequestGuard)
  }

  function AfterPipelines(table: Table<PipelineRow>, readings: seq<PipelineReading>, seenAt: int): Table<PipelineRow> {
    Batch(table, table, readings, PipelineId, PipelineMerge(seenAt), PipelineGuard)
  }

  function AfterDeployments(table: Table<DeploymentRow>, readings: seq<DeploymentReading>,
                            seenAt: int): Table<DeploymentRow> {
    Batch(table, table, readings, DeploymentId, DeploymentMerge(seenAt), NoGuard)
  }

  /** A branch that was read, and is not blank. */
  predicate StatesBranch(r: RepoReading) { r.defaultBranch.Some? && r.defaultBranch.value != "" }

  /** A listing that did not read the default branch keeps the known one. */
  function RepoAfter(row: Option<RepoRow>, r: RepoReading, seenAt: int): RepoRow {
    RepoRow(if row.None? || StatesBranch(r) then r.defaultBranch else row.value.defaultBranch, seenAt)
  }

  function AfterRepos(table: Table<RepoRow>, repos: seq<RepoReading>, seenAt: int): Table<RepoRow> {
    if repos == [] then table
    else
      var before, r := AfterRepos(table, repos[..|repos| - 1], seenAt), repos[|repos| - 1];
      before[r.name := RepoAfter(Get(before, r.name), r, seenAt)]
  }

  /** The last branch stated of a repository. */
  function LastBranch(repos: seq<RepoReading>, name: string): Option<string> {
    if repos == [] then None
    else
      var r := repos[|repos| - 1];
      if r.name == name && StatesBranch(r) then r.defaultBranch else LastBranch(repos[..|repos| - 1], name)
  }

  /**
   * Every listed repository is stored and seen, no other touched; a branch stated
   * is the last one stated, and a branch known is kept where none is.
   */
  lemma {:induction false} ReposByName(table: Table<RepoRow>, repos: seq<RepoReading>, seenAt: int, name: string)
    ensures var (row, after) := (Get(table, name), Get(AfterRepos(table, repos, seenAt), name));
      if ReadingOf(repos, RepoName, name).None? then after == row && LastBranch(repos, name).None?
      else
        && after.Some? && after.value.seenAt == seenAt
        && (LastBranch(repos, name).Some? ==> after.value.defaultBranch == LastBranch(repos, name))
        && (LastBranch(repos, name).None? && row.Some? ==> after.value.defaultBranch == row.value.defaultBranch)
        && (LastBranch(repos, name).None? && row.None? ==>
            after.value.defaultBranch == None || after.value.defaultBranch == Some(""))
  {
    if repos != [] {
      ReposByName(table, repos[..|repos| - 1], seenAt, name);
    }
  }

  predicate Abandoned(row: PullRequestRow, before: int) { OnBoard(row.state) && row.seenAt < before }

  function AfterSweep(table: Table<PullRequestRow>, before: int, at: int): Table<PullRequestRow> {
    map id | id in table :: if Abandoned(table[id], before) then table[id].(state := Closed, seenAt := at)
                            else table[id]
  }

  function RepoOfPullRequest(row: PullRequestRow): string { row.repo }
  function RepoOfPipeline(row: PipelineRow): string { row.repo }
  function RepoOfDeployment(row: DeploymentRow): string { row.repo }

  /** Drops the rows out of scope; an empty scope is ignored. */
  function Pruned<Row>(table: Table<Row>, repo: Row -> string, repos: seq<string>): Table<Row> {
    if repos == [] then table else map id | id in table && repo(table[id]) in repos :: table[id]
  }

  /** A row stays unless its repository is out of a scope that names any. */
  function Staying<Row>(row: Option<Row>, repo: Row -> string, scope: seq<string>): Option<Row> {
    if scope != [] && row.Some? && repo(row.value) !in scope then None else row
  }

  function PrunedRepos(table: Table<RepoRow>, repos: seq<string>): Table<RepoRow> {
    if repos == [] then table else map name | name in table && name in repos :: table[name]
  }

  /** A batch of one: written where it merges, and nothing otherwise. */
  lemma BatchOfOne<Item, Row>(table: Table<Row>, item: Item, id: Item -> string,
                              merge: (Option<Row>, Item) -> Option<Row>, guard: (Row, Row) -> bool)
    ensures var row := merge(Get(table, id(item)), item);
      Batch(table, table, [item], id, merge, guard) == if row.Some? then Write(table, id(item), row.value, guard)
                                                       else table
  {
    assert [item][..0] == [];
    assert Batch(table, table, [], id, merge, guard) == table;
  }

  // ─── One row at a time ───

  lemma PrunedByRow<Row>(table: Table<Row>, repo: Row -> string, scope: seq<string>, id: string)
    ensures Get(Pruned(table, repo, scope), id) == Staying(Get(table, id), repo, scope)
  {
  }

  /** What is dropped and what stays, over a whole table. */
  ghost predicate StaysInScope<Row(!new)>(before: Table<Row>, after: Table<Row>, repo: Row -> string,
                                          scope: seq<string>) {
    forall id :: Get(after, id) == Staying(Get(before, id), repo, scope)
  }

  lemma PrunedStays<Row(!new)>(table: Table<Row>, repo: Row -> string, scope: seq<string>)
    ensures StaysInScope(table, Pruned(table, repo, scope), repo, scope)
    ensures |Pruned(table, repo, scope)| <= |table|
  {
    forall id ensures Get(Pruned(table, repo, scope), id) == Staying(Get(table, id), repo, scope) {
      PrunedByRow(table, repo, scope, id);
    }
    Fewer(Pruned(table, repo, scope), table);
  }

  lemma PrunedReposStay(table: Table<RepoRow>, scope: seq<string>)
    ensures forall name :: Get(PrunedRepos(table, scope), name) == if scope == [] || name in scope then Get(table, name)
                                                                   else None
    ensures |PrunedRepos(table, scope)| <= |table|
  {
    Fewer(PrunedRepos(table, scope), table);
  }

  lemma Fewer<Row>(a: Table<Row>, b: Table<Row>)
    requires a.Keys <= b.Keys
    ensures |a| <= |b|
  {
    var rest := b.Keys - a.Keys;
    assert b.Keys == a.Keys + rest;
    assert |b.Keys| == |a.Keys| + |rest|;
  }

  predicate DistinctIds<Item>(items: seq<Item>, id: Item -> string) {
    forall i, j :: 0 <= i < j < |items| ==> id(items[i]) != id(items[j])
  }

  /** The reading a listing holds for one row. */
  function ReadingOf<Item>(items: seq<Item>, id: Item -> string, key: string): Option<Item> {
    if items == [] then None
    else if id(items[|items| - 1]) == key then Some(items[|items| - 1])
    else ReadingOf(items[..|items| - 1], id, key)
  }

  lemma {:induction false} ReadingIsListed<Item>(items: seq<Item>, id: Item -> string, key: string)
    ensures match ReadingOf(items, id, key)
            case None => forall item :: item in items ==> id(item) != key
            case Some(item) => item in items && id(item) == key
  {
    if items != [] {
      ReadingIsListed(items[..|items| - 1], id, key);
    }
  }

  /** With one reading per id, a listed item is the reading of its row. */
  lemma {:induction false} ListedIsReading<Item>(items: seq<Item>, id: Item -> string, i: nat)
    requires DistinctIds(items, id) && i < |items|
    ensures ReadingOf(items, id, id(items[i])) == Some(items[i])
  {
    var n := |items| - 1;
    if i < n {
      ListedIsReading(items[..n], id, i);
    }
  }

  function Applied<Item, Row>(row: Option<Row>, reading: Option<Item>,
                              merge: (Option<Row>, Item) -> Option<Row>): Option<Row> {
    if reading.None? then row
    else
      var merged := merge(row, reading.value);
      if merged.Some? then merged else row
  }

  /** With distinct ids a batch is its merge applied row by row: no write is ever lost. */
  lemma {:induction false} BatchByRow<Item, Row(!new)>(table: Table<Row>, items: seq<Item>, id: Item -> string,
                                           merge: (Option<Row>, Item) -> Option<Row>, guard: (Row, Row) -> bool,
                                             key: string)
    requires DistinctIds(items, id)
    requires forall row, item :: item in items && merge(Some(row), item).Some? ==>
        guard(row, merge(Some(row), item).value)
    ensures Get(Batch(table, table, items, id, merge, guard), key)
            == Applied(Get(table, key), ReadingOf(items, id, key), merge)
  {
    if items != [] {
      var n := |items| - 1;
      assert forall item :: item in items[..n] ==> item in items;
      BatchByRow(table, items[..n], id, merge, guard, key);
      assert items[n] in items;
      if id(items[n]) == key {
        ReadingIsListed(items[..n], id, key);
        assert forall item :: item in items[..n] ==> id(item) != key;
        assert ReadingOf(items[..n], id, key).None?;
      }
    }
  }

  /** Whether a reading has something to add to the row held. */
  function Adds<Item, Row>(table: Table<Row>, id: Item -> string,
                           merge: (Option<Row>, Item) -> Option<Row>): Item -> bool {
    (item: Item) => merge(Get(table, id(item)), item).Some?
  }

  /** With distinct ids, the rows written are the readings that had something to add. */
  lemma {:induction false} WrittenCountsAdditions<Item(!new),
    Row(!new)>(table: Table<Row>, items: seq<Item>, id: Item -> string,
                                                     merge: (Option<Row>, Item) -> Option<Row>,
                                                       guard: (Row, Row) -> bool)
    requires DistinctIds(items, id)
    requires forall row, item :: item in items && merge(Some(row), item).Some? ==>
        guard(row, merge(Some(row), item).value)
    ensures Written(table, table, items, id, merge, guard) == |Kept(items, Adds(table, id, merge))|
  {
    if items != [] {
      var n := |items| - 1;
      assert forall item :: item in items[..n] ==> item in items;
      WrittenCountsAdditions(table, items[..n], id, merge, guard);
      NotReachedYet(table, items, n, id, merge, guard);
      assert items[n] in items;
      assert Kept(items, Adds(table, id, merge))
          == Kept(items[..n], Adds(table, id, merge)) + if Adds(table, id, merge)(items[n]) then [items[n]] else [];
    }
  }

  /** A row is still as it was held when the one reading of it comes up. */
  lemma NotReachedYet<Item, Row(!new)>(table: Table<Row>, items: seq<Item>, n: nat, id: Item -> string,
                                       merge: (Option<Row>, Item) -> Option<Row>, guard: (Row, Row) -> bool)
    requires n < |items| && DistinctIds(items, id)
    requires forall row, item :: item in items[..n] && merge(Some(row), item).Some? ==>
        guard(row, merge(Some(row), item).value)
    ensures Get(Batch(table, table, items[..n], id, merge, guard), id(items[n])) == Get(table, id(items[n]))
  {
    BatchByRow(table, items[..n], id, merge, guard, id(items[n]));
    ReadingIsListed(items[..n], id, id(items[n]));
  }

  // ─── An id listed more than once ───

  /** Of the readings of one row, the last whose merge the guard lets over the one standing before it. */
  function Winner<Item(!new), Row>(held: Option<Row>, items: seq<Item>, id: Item -> string,
                                   merge: (Option<Row>, Item) -> Option<Row>, guard: (Row, Row) -> bool,
                                     key: string): (w: Option<Item>)
    ensures w.Some? ==> w.value in items && id(w.value) == key && merge(held, w.value).Some?
    ensures w.None? ==> forall item :: item in items && id(item) == key ==> merge(held, item).None?
  {
    if items == [] then None
    else
      var n := |items| - 1;
      var before := Winner(held, items[..n], id, merge, guard, key);
      assert items == items[..n] + [items[n]];
      var row := merge(held, items[n]);
      if id(items[n]) == key && row.Some? && (before.Some? ==>
          guard(merge(held, before.value).value, row.value)) then Some(items[n])
      else before
  }

  /** Whatever ids it repeats, a batch leaves in each row one merge of the row held before: its winner's. */
  lemma {:induction false} BatchByWinner<Item(!new), Row>(table: Table<Row>, items: seq<Item>, id: Item -> string,
                                              merge: (Option<Row>, Item) -> Option<Row>, guard: (Row, Row) -> bool,
                                                key: string)
    requires key in table ==> forall item :: item in items && merge(Some(table[key]), item).Some? ==>
      guard(table[key], merge(Some(table[key]), item).value)
    ensures Get(Batch(table, table, items, id, merge, guard), key)
         == Applied(Get(table, key), Winner(Get(table, key), items, id, merge, guard, key), merge)
  {
    if items != [] {
      var n := |items| - 1;
      assert forall item :: item in items[..n] ==> item in items;
      BatchByWinner(table, items[..n], id, merge, guard, key);
      assert items[n] in items;
    }
  }

  /** The reading an open listing leaves in a row: the winner, or any of them where all are stale. */
  function OpenWinner(row: Option<PullRequestRow>, readings: seq<OpenReading>, at: int,
                      key: string): Option<OpenReading> {
    var w := Winner(row, readings, OpenId, OpenMerge(at), PullRequestGuard, key);
    if w.Some? then w else ReadingOf(readings, OpenId, key)
  }

  function MergedWinner(row: Option<PullRequestRow>, readings: seq<MergedReading>, at: int,
                        key: string): Option<MergedReading> {
    Winner(row, readings, MergedId, MergedMerge(at), PullRequestGuard, key)
  }

  function PipelineWinner(row: Option<PipelineRow>, readings: seq<PipelineReading>, at: int,
                          key: string): Option<PipelineReading> {
    Winner(row, readings, PipelineId, PipelineMerge(at), PipelineGuard, key)
  }

  function DeploymentWinner(row: Option<DeploymentRow>, readings: seq<DeploymentReading>, at: int,
                            key: string): Option<DeploymentReading> {
    Winner(row, readings, DeploymentId, DeploymentMerge(at), NoGuard, key)
  }

  lemma OpenByWinner(table: Table<PullRequestRow>, readings: seq<OpenReading>, at: int, key: string)
    ensures Get(AfterOpen(table, readings, at), key) == OpenStep(Get(table, key),
                                                                 OpenWinner(Get(table, key), readings, at, key), at)
  {
    BatchByWinner(table, readings, OpenId, OpenMerge(at), PullRequestGuard, key);
    ReadingIsListed(readings, OpenId, key);
  }

  lemma MergedByWinner(table: Table<PullRequestRow>, readings: seq<MergedReading>, at: int, key: string)
    ensures Get(AfterMerged(table, readings, at), key)
         == Applied(Get(table, key), MergedWinner(Get(table, key), readings, at, key), MergedMerge(at))
  {
    BatchByWinner(table, readings, MergedId, MergedMerge(at), PullRequestGuard, key);
  }

  lemma PipelinesByWinner(table: Table<PipelineRow>, readings: seq<PipelineReading>, at: int, key: string)
    ensures Get(AfterPipelines(table, readings, at), key)
         == Applied(Get(table, key), PipelineWinner(Get(table, key), readings, at, key), PipelineMerge(at))
  {
    BatchByWinner(table, readings, PipelineId, PipelineMerge(at), PipelineGuard, key);
  }

  lemma DeploymentsByWinner(table: Table<DeploymentRow>, readings: seq<DeploymentReading>, at: int, key: string)
    ensures Get(AfterDeployments(table, readings, at), key)
         == Applied(Get(table, key), DeploymentWinner(Get(table, key), readings, at, key), DeploymentMerge(at))
  {
    BatchByWinner(table, readings, DeploymentId, DeploymentMerge(at), NoGuard, key);
  }

  /** When a merged reading's row is dated: its merge, or what the row held was dated, if later. */
  function DatedAt(row: Option<PullRequestRow>, r: MergedReading): int {
    if row.Some? && row.value.updatedAt > r.mergedAt then row.value.updatedAt else r.mergedAt
  }

  /** Of the readings of a row, the last of those dated latest. */
  predicate IsLastOfLatest(i: int, row: Option<PullRequestRow>, readings: seq<MergedReading>, key: string) {
    && 0 <= i < |readings| && readings[i].id == key
    && (forall j :: 0 <= j < i && readings[j].id == key ==> DatedAt(row, readings[j]) <= DatedAt(row, readings[i]))
    && (forall j :: i < j < |readings| && readings[j].id == key ==>
        DatedAt(row, readings[j]) < DatedAt(row, readings[i]))
  }

  /** The later of two dates, the last of equal ones, is the last of the latest of one reading more. */
  lemma LastOfOneMore(i: int, row: Option<PullRequestRow>, readings: seq<MergedReading>, key: string)
    requires readings != [] && IsLastOfLatest(i, row, readings[..|readings| - 1], key)
    ensures var n := |readings| - 1;
      IsLastOfLatest(if readings[n].id == key && DatedAt(row, readings[i]) <= DatedAt(row, readings[n]) then n
                     else i, row, readings, key)
  {
    var n := |readings| - 1;
    assert forall j :: 0 <= j < n ==> readings[..n][j] == readings[j];
  }

  lemma WinnerOfOneMore(row: Option<PullRequestRow>, readings: seq<MergedReading>, at: int, key: string)
    requires readings != []
    ensures var n := |readings| - 1;
      var before := MergedWinner(row, readings[..n], at, key);
      MergedWinner(row, readings, at, key)
      == if readings[n].id == key && (before.Some? ==> DatedAt(row, before.value) <= DatedAt(row, readings[n]))
         then Some(readings[n])
         else before
  {
  }

  /** What the merged feed's winner is, with no walk over the batch: never none where the row is listed. */
  lemma {:induction false} MergedWinnerIsLastOfLatest(row: Option<PullRequestRow>, readings: seq<MergedReading>,
                                                      at: int, key: string)
    ensures match MergedWinner(row, readings, at, key)
            case None => forall r :: r in readings ==> r.id != key
            case Some(w) => exists i :: IsLastOfLatest(i, row, readings, key) && readings[i] == w
  {
    if readings != [] {
      var n := |readings| - 1;
      var before := MergedWinner(row, readings[..n], at, key);
      MergedWinnerIsLastOfLatest(row, readings[..n], at, key);
      WinnerOfOneMore(row, readings, at, key);
      if before.None? {
        assert forall j :: 0 <= j < n ==> readings[..n][j] == readings[j] && readings[j] in readings[..n];
        assert readings[n].id == key ==> IsLastOfLatest(n, row, readings, key);
      } else {
        var i :| IsLastOfLatest(i, row, readings[..n], key) && readings[..n][i] == before.value;
        LastOfOneMore(i, row, readings, key);
      }
    }
  }

  function OpenStep(row: Option<PullRequestRow>, reading: Option<OpenReading>, at: int): Option<PullRequestRow> {
    if reading.None? then row
    else
      var merged := MergeOpen(row, reading.value, at);
      if merged.Some? then merged else Some(row.value.(seenAt := at))
  }

  lemma OpenByRow(table: Table<PullRequestRow>, readings: seq<OpenReading>, at: int, key: string)
    requires DistinctIds(readings, OpenId)
    ensures Get(AfterOpen(table, readings, at), key) == OpenStep(Get(table, key), ReadingOf(readings, OpenId, key), at)
  {
    BatchByRow(table, readings, OpenId, OpenMerge(at), PullRequestGuard, key);
    ReadingIsListed(readings, OpenId, key);
    forall r | r in readings && r.id == key ensures ReadingOf(readings, OpenId, key) == Some(r) {
      var i :| 0 <= i < |readings| && readings[i] == r;
      ListedIsReading(readings, OpenId, i);
    }
  }

  lemma MergedByRow(table: Table<PullRequestRow>, readings: seq<MergedReading>, at: int, key: string)
    requires DistinctIds(readings, MergedId)
    ensures Get(AfterMerged(table, readings, at), key)
         == Applied(Get(table, key), ReadingOf(readings, MergedId, key), MergedMerge(at))
  {
    BatchByRow(table, readings, MergedId, MergedMerge(at), PullRequestGuard, key);
  }

  lemma PipelinesByRow(table: Table<PipelineRow>, readings: seq<PipelineReading>, at: int, key: string)
    requires DistinctIds(readings, PipelineId)
    ensures Get(AfterPipelines(table, readings, at), key)
         == Applied(Get(table, key), ReadingOf(readings, PipelineId, key), PipelineMerge(at))
  {
    BatchByRow(table, readings, PipelineId, PipelineMerge(at), PipelineGuard, key);
  }

  lemma DeploymentsByRow(table: Table<DeploymentRow>, readings: seq<DeploymentReading>, at: int, key: string)
    requires DistinctIds(readings, DeploymentId)
    ensures Get(AfterDeployments(table, readings, at), key)
         == Applied(Get(table, key), ReadingOf(readings, DeploymentId, key), DeploymentMerge(at))
  {
    BatchByRow(table, readings, DeploymentId, DeploymentMerge(at), NoGuard, key);
  }
}

/** The store of one source: back/src/ingest/store.service.ts, each call run to its end before the next. */
module Store {
  import opened Merge
  import opened Options
  import opened Rows
  import opened Tables

  class StoreService {
    var repos: Table<RepoRow>
    var pullRequests: Table<PullRequestRow>
    var pipelines: Table<PipelineRow>
    var deployments: Table<DeploymentRow>

    constructor ()
      ensures repos == map[] && pullRequests == map[] && pipelines == map[] && deployments == map[]
    {
      repos, pullRequests, pipelines, deployments := map[], map[], map[], map[];
    }

    method UpsertRepos(listed: seq<RepoReading>, seenAt: int) returns (written: nat)
      modifies this`repos
      ensures repos == AfterRepos(old(repos), listed, seenAt) && written == |listed|
    {
      for i := 0 to |listed|
        invariant repos == AfterRepos(old(repos), listed[..i], seenAt)
      {
        var repo := listed[i];
        assert listed[..i + 1][..i] == listed[..i];
        if repo.name in repos {
          var branch := if StatesBranch(repo) then repo.defaultBranch else repos[repo.name].defaultBranch;
          repos := repos[repo.name := RepoRow(branch, seenAt)];
        } else {
          repos := repos[repo.name := RepoRow(repo.defaultBranch, seenAt)];
        }
      }
      assert listed[..|listed|] == listed;
      written := |listed|;
    }

    method WritePullRequest(id: string, row: PullRequestRow) returns (count: nat)
      modifies this`pullRequests
      ensures pullRequests == if id in old(pullRequests) && row.updatedAt < old(pullRequests)[id].updatedAt
                              then old(pullRequests) else old(pullRequests)[id := row]
      ensures pullRequests == Write(old(pullRequests), id, row, PullRequestGuard)
      ensures count == if id !in old(pullRequests) || PullRequestGuard(old(pullRequests)[id], row) then 1 else 0
    {
      if id in pullRequests && pullRequests[id].updatedAt <= row.updatedAt {
        pullRequests := pullRequests[id := row];
        return 1;
      }
      count := 0;
      if id !in pullRequests {
        pullRequests := pullRequests[id := row];
        count := 1;
      }
    }

    method UpsertPullRequests(readings: seq<OpenReading>, seenAt: int) returns (written: nat)
      modifies this`pullRequests
      ensures pullRequests == AfterOpen(old(pullRequests), readings, seenAt)
      ensures written == Written(old(pullRequests), old(pullRequests), readings, OpenId, OpenMerge(seenAt),
                                 PullRequestGuard)
    {
      var held := pullRequests;
      var stale: set<string> := {};
      written := 0;
      for i := 0 to |readings|
        invariant pullRequests == Batch(held, held, readings[..i], OpenId, OpenMerge(seenAt), PullRequestGuard)
        invariant stale == StaleIds(held, readings[..i], seenAt)
        invariant written == Written(held, held, readings[..i], OpenId, OpenMerge(seenAt), PullRequestGuard)
      {
        var reading := readings[i];
        assert readings[..i + 1] == readings[..i] + [reading] && readings[..i + 1][..i] == readings[..i];
        var row := MergeOpen(Get(held, reading.id), reading, seenAt);
        if row.Some? {
          var count := WritePullRequest(reading.id, row.value);
          written := written + count;
        } else {
          stale := stale + {reading.id};
        }
      }
      assert readings[..|readings|] == readings;
      pullRequests := MarkSeen(pullRequests, stale, seenAt);
    }

    method UpsertMergedPullRequests(readings: seq<MergedReading>, seenAt: int) returns (written: nat)
      modifies this`pullRequests
      ensures pullRequests == AfterMerged(old(pullRequests), readings, seenAt)
      ensures written == Written(old(pullRequests), old(pullRequests), readings, MergedId, MergedMerge(seenAt),
                                 PullRequestGuard)
    {
      var held := pullRequests;
      written := 0;
      for i := 0 to |readings|
        invariant pullRequests == Batch(held, held, readings[..i], MergedId, MergedMerge(seenAt), PullRequestGuard)
        invariant written == Written(held, held, readings[..i], MergedId, MergedMerge(seenAt), PullRequestGuard)
      {
        assert readings[..i + 1][..i] == readings[..i];
        var count := WritePullRequest(readings[i].id, MergeMerged(Get(held, readings[i].id), readings[i], seenAt));
        written := written + count;
      }
      assert readings[..|readings|] == readings;
    }

    method WritePipeline(row: PipelineRow) returns (count: nat)
      modifies this`pipelines
      ensures pipelines ==
              if row.externalId in old(pipelines) && row.updatedAt < old(pipelines)[row.externalId].updatedAt
              then old(pipelines) else old(pipelines)[row.externalId := row]
      ensures pipelines == Write(old(pipelines), row.externalId, row, PipelineGuard)
      ensures count == if row.externalId !in old(pipelines) || PipelineGuard(old(pipelines)[row.externalId], row) then 1
                       else 0
    {
      if row.externalId in pipelines && pipelines[row.externalId].updatedAt <= row.updatedAt {
        pipelines := pipelines[row.externalId := row];
        return 1;
      }
      count := 0;
      if row.externalId !in pipelines {
        pipelines := pipelines[row.externalId := row];
        count := 1;
      }
    }

    method UpsertPipelines(readings: seq<PipelineReading>, seenAt: int) returns (written: nat)
      modifies this`pipelines
      ensures pipelines == AfterPipelines(old(pipelines), readings, seenAt)
      ensures written == Written(old(pipelines), old(pipelines), readings, PipelineId, PipelineMerge(seenAt),
                                 PipelineGuard)
    {
      var held := pipelines;
      written := 0;
      for i := 0 to |readings|
        invariant pipelines == Batch(held, held, readings[..i], PipelineId, PipelineMerge(seenAt), PipelineGuard)
        invariant written == Written(held, held, readings[..i], PipelineId, PipelineMerge(seenAt), PipelineGuard)
      {
        assert readings[..i + 1][..i] == readings[..i];
        var row := MergePipeline(Get(held, readings[i].id), readings[i], seenAt);
        if row.Some? {
          var count := WritePipeline(row.value);
          written := written + count;
        }
      }
      assert readings[..|readings|] == readings;
    }

    method WriteDeployment(row: DeploymentRow) returns (count: nat)
      modifies this`deployments
      ensures deployments == old(deployments)[row.externalId := row] && count == 1
      ensures deployments == Write(old(deployments), row.externalId, row, NoGuard)
    {
      if row.externalId in deployments {
        deployments := deployments[row.externalId := row];
        return 1;
      }
      deployments := deployments[row.externalId := row];
      count := 1;
    }

    method UpsertDeployments(readings: seq<DeploymentReading>, seenAt: int) returns (written: nat)
      modifies this`deployments
      ensures deployments == AfterDeployments(old(deployments), readings, seenAt)
      ensures written == |readings|
    {
      var held := deployments;
      written := 0;
      for i := 0 to |readings|
        invariant deployments == Batch(held, held, readings[..i], DeploymentId, DeploymentMerge(seenAt), NoGuard)
        invariant written == i
      {
        assert readings[..i + 1][..i] == readings[..i];
        var count := WriteDeployment(MergeDeployment(Get(held, readings[i].id), readings[i], seenAt));
        written := written + count;
      }
      assert readings[..|readings|] == readings;
    }

    method CloseStalePullRequests(before: int, at: int) returns (closed: nat)
      modifies this`pullRequests
      ensures pullRequests == AfterSweep(old(pullRequests), before, at)
      ensures pullRequests.Keys == old(pullRequests).Keys
      ensures forall id :: id in pullRequests && OnBoard(old(pullRequests)[id].state)
                           && old(pullRequests)[id].seenAt < before ==>
        pullRequests[id] == old(pullRequests)[id].(state := Closed, seenAt := at)
      ensures forall id :: id in pullRequests && !(OnBoard(old(pullRequests)[id].state)
                                                   && old(pullRequests)[id].seenAt < before) ==>
        pullRequests[id] == old(pullRequests)[id]
      ensures forall id :: id in pullRequests && OnBoard(pullRequests[id].state) ==> before <= pullRequests[id].seenAt
      ensures closed == |set id | id in pullRequests && pullRequests[id] != old(pullRequests)[id]|
      ensures closed == |set id | id in old(pullRequests) && Abandoned(old(pullRequests)[id], before)|
    {
      ghost var abandoned := set id | id in pullRequests && Abandoned(pullRequests[id], before);
      closed := |set id | id in pullRequests && Abandoned(pullRequests[id], before)|;
      pullRequests := AfterSweep(pullRequests, before, at);
      assert abandoned == set id | id in pullRequests && pullRequests[id] != old(pullRequests)[id];
    }

    method PruneOutOfScope(scope: seq<string>) returns (pruned: nat)
      modifies this
      ensures StaysInScope(old(pullRequests), pullRequests, RepoOfPullRequest, scope)
      ensures StaysInScope(old(pipelines), pipelines, RepoOfPipeline, scope)
      ensures StaysInScope(old(deployments), deployments, RepoOfDeployment, scope)
      ensures forall name :: Get(repos, name) == if scope == [] || name in scope then Get(old(repos), name) else None
      ensures pullRequests == Pruned(old(pullRequests), RepoOfPullRequest, scope)
      ensures pipelines == Pruned(old(pipelines), RepoOfPipeline, scope)
      ensures deployments == Pruned(old(deployments), RepoOfDeployment, scope)
      ensures repos == PrunedRepos(old(repos), scope)
      ensures pruned == (|old(pullRequests)| - |pullRequests|) + (|old(pipelines)| - |pipelines|)
                      + (|old(deployments)| - |deployments|) + (|old(repos)| - |repos|)
    {
      PrunedStays(pullRequests, RepoOfPullRequest, scope);
      PrunedStays(pipelines, RepoOfPipeline, scope);
      PrunedStays(deployments, RepoOfDeployment, scope);
      PrunedReposStay(repos, scope);
      if scope == [] {
        return 0;
      }
      var rows := |pullRequests| + |pipelines| + |deployments| + |repos|;
      pullRequests := Pruned(pullRequests, RepoOfPullRequest, scope);
      pipelines := Pruned(pipelines, RepoOfPipeline, scope);
      deployments := Pruned(deployments, RepoOfDeployment, scope);
      repos := PrunedRepos(repos, scope);
      pruned := rows - (|pullRequests| + |pipelines| + |deployments| + |repos|);
    }
  }
}
