/**
 * The writes of back/src/ingest/store.service.ts when nothing orders them: each
 * writer loads a row, merges into what it loaded, then issues a guarded update and,
 * where that misses, a creation. Between any two of these any other writer may move.
 */
module Interleaving {
  import opened History
  import opened Merge
  import opened Options
  import opened Rows
  import opened Tables

  /** A writer between two of its steps. */
  datatype Task =
    | OpenLoaded(open: OpenReading, at: int, heldRow: Option<PullRequestRow>)
    | MergedLoaded(merged: MergedReading, at: int, heldRow: Option<PullRequestRow>)
    | PullRequestMissed(id: string, row: PullRequestRow)
    | StaleListed(ids: set<string>, at: int)
    | PipelineLoaded(pipeline: PipelineReading, at: int, heldPipeline: Option<PipelineRow>)
    | PipelineMissed(pipelineRow: PipelineRow)
    | DeploymentLoaded(deployment: DeploymentReading, at: int, heldDeployment: Option<DeploymentRow>)
    | DeploymentMissed(deploymentRow: DeploymentRow)

  datatype World = World(
    pullRequests: Table<PullRequestRow>,
    pipelines: Table<PipelineRow>,
    deployments: Table<DeploymentRow>,
    tasks: multiset<Task>
  )

  datatype Step =
    | LoadOpen(open: OpenReading, at: int)
    | LoadMerged(merged: MergedReading, at: int)
    | LoadPipeline(pipeline: PipelineReading, at: int)
    | LoadDeployment(deployment: DeploymentReading, at: int)
    | Resume(task: Task)
    | Sweep(before: int, at: int)
    | Prune(scope: seq<string>)

  predicate Enabled(w: World, step: Step) {
    step.Resume? ==> step.task in w.tasks
  }

  /** The guarded update: one atomic statement of the database. */
  function Updated<Row>(table: Table<Row>, id: string, row: Row, guard: (Row, Row) -> bool): Table<Row> {
    if id in table && guard(table[id], row) then table[id := row] else table
  }

  predicate Misses<Row>(table: Table<Row>, id: string, row: Row, guard: (Row, Row) -> bool) {
    !(id in table && guard(table[id], row))
  }

  /** The creation, lost where the unique index already holds the id. */
  function Created<Row>(table: Table<Row>, id: string, row: Row): Table<Row> {
    if id in table then table else table[id := row]
  }

  function UpdatePullRequest(w: World, id: string, row: PullRequestRow): World {
    w.(pullRequests := Updated(w.pullRequests, id, row, PullRequestGuard),
       tasks := if Misses(w.pullRequests, id, row, PullRequestGuard) then w.tasks + multiset{PullRequestMissed(id, row)}
                else w.tasks)
  }

  function UpdatePipeline(w: World, row: PipelineRow): World {
    w.(pipelines := Updated(w.pipelines, row.externalId, row, PipelineGuard),
       tasks := if Misses(w.pipelines, row.externalId, row, PipelineGuard) then w.tasks + multiset{PipelineMissed(row)}
                else w.tasks)
  }

  function UpdateDeployment(w: World, row: DeploymentRow): World {
    w.(deployments := Updated(w.deployments, row.externalId, row, NoGuard),
       tasks := if Misses(w.deployments, row.externalId, row, NoGuard) then w.tasks + multiset{DeploymentMissed(row)}
                else w.tasks)
  }

  function Resumed(w: World, task: Task): World {
    match task
    case OpenLoaded(reading, at, held) =>
      var row := MergeOpen(held, reading, at);
      if row.Some? then UpdatePullRequest(w, reading.id, row.value)
      else w.(tasks := w.tasks + multiset{StaleListed({reading.id}, at)})
    case MergedLoaded(reading, at, held) => UpdatePullRequest(w, reading.id, MergeMerged(held, reading, at))
    case PullRequestMissed(id, row) => w.(pullRequests := Created(w.pullRequests, id, row))
    case StaleListed(ids, at) => w.(pullRequests := MarkSeen(w.pullRequests, ids, at))
    case PipelineLoaded(reading, at, held) =>
      var row := MergePipeline(held, reading, at);
      if row.Some? then UpdatePipeline(w, row.value) else w
    case PipelineMissed(row) => w.(pipelines := Created(w.pipelines, row.externalId, row))
    case DeploymentLoaded(reading, at, held) => UpdateDeployment(w, MergeDeployment(held, reading, at))
    case DeploymentMissed(row) => w.(deployments := Created(w.deployments, row.externalId, row))
  }

  function Next(w: World, step: Step): World {
    match step
    case LoadOpen(r, at) => w.(tasks := w.tasks + multiset{OpenLoaded(r, at, Get(w.pullRequests, r.id))})
    case LoadMerged(r, at) => w.(tasks := w.tasks + multiset{MergedLoaded(r, at, Get(w.pullRequests, r.id))})
    case LoadPipeline(r, at) => w.(tasks := w.tasks + multiset{PipelineLoaded(r, at, Get(w.pipelines, r.id))})
    case LoadDeployment(r, at) => w.(tasks := w.tasks + multiset{DeploymentLoaded(r, at, Get(w.deployments, r.id))})
    case Resume(task) => Resumed(w.(tasks := w.tasks - multiset{task}), task)
    case Sweep(before, at) => w.(pullRequests := AfterSweep(w.pullRequests, before, at))
    case Prune(scope) => w.(
      pullRequests := Pruned(w.pullRequests, RepoOfPullRequest, scope),
      pipelines := Pruned(w.pipelines, RepoOfPipeline, scope),
      deployments := Pruned(w.deployments, RepoOfDeployment, scope))
  }

  function Run(w: World, steps: seq<Step>): World {
    if steps == [] then w else Next(Run(w, steps[..|steps| - 1]), steps[|steps| - 1])
  }

  /** A schedule: every resumed writer is one that was under way. */
  predicate Schedules(w: World, steps: seq<Step>) {
    steps == [] || (Schedules(w, steps[..|steps| - 1]) && Enabled(Run(w, steps[..|steps| - 1]), steps[|steps| - 1]))
  }

  // ─── What every interleaving keeps ───

  /** No row, stored or about to be created, is on the board with a merge date. */
  ghost predicate Shaped(w: World) {
    && (forall id :: id in w.pullRequests ==> Settled(w.pullRequests[id]))
    && (forall task :: task in w.tasks && task.PullRequestMissed? ==> Settled(task.row))
  }

  lemma {:induction false} StepKeepsShape(w: World, step: Step)
    requires Shaped(w) && Enabled(w, step)
    ensures Shaped(Next(w, step))
  {
    match step
    case Resume(task) => ResumeKeepsShape(w.(tasks := w.tasks - multiset{task}), task);
    case LoadOpen(_, _) =>
    case LoadMerged(_, _) =>
    case LoadPipeline(_, _) =>
    case LoadDeployment(_, _) =>
    case Sweep(_, _) =>
    case Prune(_) =>
  }

  lemma UpdateKeepsShape(w: World, id: string, row: PullRequestRow)
    requires Shaped(w) && Settled(row)
    ensures Shaped(UpdatePullRequest(w, id, row))
  {
  }

  lemma ResumeKeepsShape(w: World, task: Task)
    requires Shaped(w) && (task.PullRequestMissed? ==> Settled(task.row))
    ensures Shaped(Resumed(w, task))
  {
    match task
    case OpenLoaded(reading, at, held) =>
      var row := MergeOpen(held, reading, at);
      if row.Some? {
        assert Settled(row.value);
        UpdateKeepsShape(w, reading.id, row.value);
      }
    case MergedLoaded(reading, at, held) =>
      UpdateKeepsShape(w, reading.id, MergeMerged(held, reading, at));
    case StaleListed(ids, at) =>
      assert forall id :: id in w.pullRequests ==> Settled(MarkSeen(w.pullRequests, ids, at)[id]);
    case _ =>
  }

  lemma {:induction false} EveryInterleavingIsShaped(w: World, steps: seq<Step>)
    requires Shaped(w) && Schedules(w, steps)
    ensures Shaped(Run(w, steps))
  {
    if steps != [] {
      EveryInterleavingIsShaped(w, steps[..|steps| - 1]);
      StepKeepsShape(Run(w, steps[..|steps| - 1]), steps[|steps| - 1]);
    }
  }

  ghost predicate NotBefore(a: World, b: World) {
    && (forall id :: id in a.pullRequests && id in b.pullRequests ==>
        a.pullRequests[id].updatedAt <= b.pullRequests[id].updatedAt)
    && (forall id :: id in a.pipelines && id in b.pipelines ==> a.pipelines[id].updatedAt <= b.pipelines[id].updatedAt)
  }

  lemma {:induction false} StepNeverGoesBack(w: World, step: Step)
    ensures NotBefore(w, Next(w, step))
  {
    match step
    case Resume(task) => ResumeNeverGoesBack(w.(tasks := w.tasks - multiset{task}), task);
    case LoadOpen(_, _) =>
    case LoadMerged(_, _) =>
    case LoadPipeline(_, _) =>
    case LoadDeployment(_, _) =>
    case Sweep(_, _) =>
    case Prune(_) =>
  }

  lemma ResumeNeverGoesBack(w: World, task: Task)
    ensures NotBefore(w, Resumed(w, task))
  {
    if task.PipelineLoaded? || task.PipelineMissed? || task.DeploymentLoaded? || task.DeploymentMissed? {
      PipelinesNeverGoBack(w, task);
    } else {
      PullRequestsNeverGoBack(w, task);
    }
  }

  lemma PullRequestsNeverGoBack(w: World, task: Task)
    requires task.OpenLoaded? || task.MergedLoaded? || task.PullRequestMissed? || task.StaleListed?
    ensures NotBefore(w, Resumed(w, task))
  {
    match task
    case OpenLoaded(_, _, _) =>
    case MergedLoaded(_, _, _) =>
    case PullRequestMissed(_, _) =>
    case StaleListed(_, _) =>
  }

  lemma PipelinesNeverGoBack(w: World, task: Task)
    requires task.PipelineLoaded? || task.PipelineMissed? || task.DeploymentLoaded? || task.DeploymentMissed?
    ensures NotBefore(w, Resumed(w, task))
  {
    match task
    case PipelineLoaded(_, _, _) =>
    case PipelineMissed(_) =>
    case DeploymentLoaded(_, _, _) =>
    case DeploymentMissed(_) =>
  }

  /** The row stays in the table all along: pruning starts it afresh. */
  predicate LivesThrough(w: World, steps: seq<Step>, id: string) {
    id in Run(w, steps).pullRequests && (steps == [] || LivesThrough(w, steps[..|steps| - 1], id))
  }

  predicate PipelineLivesThrough(w: World, steps: seq<Step>, id: string) {
    id in Run(w, steps).pipelines && (steps == [] || PipelineLivesThrough(w, steps[..|steps| - 1], id))
  }

  lemma {:induction false} UpdatedAtNeverDecreases(w: World, steps: seq<Step>, id: string)
    requires LivesThrough(w, steps, id)
    ensures id in w.pullRequests && w.pullRequests[id].updatedAt <= Run(w, steps).pullRequests[id].updatedAt
  {
    if steps != [] {
      UpdatedAtNeverDecreases(w, steps[..|steps| - 1], id);
      StepNeverGoesBack(Run(w, steps[..|steps| - 1]), steps[|steps| - 1]);
    }
  }

  lemma {:induction false} PipelineUpdatedAtNeverDecreases(w: World, steps: seq<Step>, id: string)
    requires PipelineLivesThrough(w, steps, id)
    ensures id in w.pipelines && w.pipelines[id].updatedAt <= Run(w, steps).pipelines[id].updatedAt
  {
    if steps != [] {
      PipelineUpdatedAtNeverDecreases(w, steps[..|steps| - 1], id);
      StepNeverGoesBack(Run(w, steps[..|steps| - 1]), steps[|steps| - 1]);
    }
  }

  // ─── What only an undisturbed writer keeps ───

  /** A writer of the open feed that knows of no merge, and whose update hits the row. */
  predicate Erases(task: Task, id: string, stored: PullRequestRow) {
    && task.OpenLoaded? && task.open.id == id && task.open.mergedAt.None?
    && (task.heldRow.Some? ==> task.heldRow.value.mergedAt.None? && task.heldRow.value.updatedAt <= task.open.updatedAt)
    && stored.updatedAt <= task.open.updatedAt
  }

  /** Such a writer resumes after a merge it has not seen. */
  predicate ErasesMerge(w: World, step: Step, id: string) {
    && step.Resume? && id in w.pullRequests && w.pullRequests[id].mergedAt.Some?
    && Erases(step.task, id, w.pullRequests[id])
  }

  /** A recorded merge is lost at exactly such a step, and at no other. */
  lemma {:induction false} MergeDateIsLostIff(w: World, step: Step, id: string)
    requires Enabled(w, step) && id in w.pullRequests && id in Next(w, step).pullRequests
    ensures Loses(w, Next(w, step), id) <==> ErasesMerge(w, step, id)
  {
    match step
    case Resume(task) =>
      var rest := w.(tasks := w.tasks - multiset{task});
      match task {
        case OpenLoaded(reading, at, held) => OpenWriteErases(rest, reading, at, held, id);
        case _ => OthersKeepMerge(rest, task, id);
      }
    case LoadOpen(_, _) =>
    case LoadMerged(_, _) =>
    case LoadPipeline(_, _) =>
    case LoadDeployment(_, _) =>
    case Sweep(_, _) =>
    case Prune(_) =>
  }

  /** The row was recorded as merged before, and no longer is. */
  predicate Loses(before: World, after: World, id: string)
    requires id in before.pullRequests && id in after.pullRequests
  {
    before.pullRequests[id].mergedAt.Some? && after.pullRequests[id].mergedAt.None?
  }

  lemma OthersKeepMerge(w: World, task: Task, id: string)
    requires !task.OpenLoaded? && id in w.pullRequests
    ensures id in Resumed(w, task).pullRequests && !Loses(w, Resumed(w, task), id)
  {
    match task
    case MergedLoaded(_, _, _) =>
    case PullRequestMissed(_, _) =>
    case StaleListed(_, _) =>
    case PipelineLoaded(_, _, _) =>
    case PipelineMissed(_) =>
    case DeploymentLoaded(_, _, _) =>
    case DeploymentMissed(_) =>
  }

  lemma OpenWriteErases(w: World, reading: OpenReading, at: int, held: Option<PullRequestRow>, id: string)
    requires id in w.pullRequests
    ensures var after := Resumed(w, OpenLoaded(reading, at, held));
      && id in after.pullRequests
      && (Loses(w, after, id) <==> ErasesMerge(w, Resume(OpenLoaded(reading, at, held)), id))
  {
    var row := MergeOpen(held, reading, at);
    if row.Some? && reading.id == id {
      assert row.value.updatedAt == reading.updatedAt;
    }
  }

  /**
   * Such a step does come up. An open listing loads a row, a merge of it is
   * loaded and lands, then the listing writes over it what it had loaded.
   */
  lemma MergeDateCanBeLost(w: World, r: OpenReading, m: MergedReading, at: int, row: PullRequestRow)
    requires Get(w.pullRequests, r.id) == Some(row) && m.id == r.id
    requires row.mergedAt.None? && r.mergedAt.None? && row.updatedAt <= m.mergedAt <= r.updatedAt
    ensures var (open, merged) := (OpenLoaded(r, at, Some(row)), MergedLoaded(m, at, Some(row)));
      var loaded := Next(Next(w, LoadOpen(r, at)), LoadMerged(m, at));
      var landed := Next(loaded, Resume(merged));
      && merged in loaded.tasks && open in landed.tasks
      && r.id in landed.pullRequests && landed.pullRequests[r.id].mergedAt == Some(m.mergedAt)
      && r.id in Next(landed, Resume(open)).pullRequests
      && ErasesMerge(landed, Resume(open), r.id) && Loses(landed, Next(landed, Resume(open)), r.id)
  {
    var open, merged := OpenLoaded(r, at, Some(row)), MergedLoaded(m, at, Some(row));
    var loaded := w.(tasks := w.tasks + multiset{open} + multiset{merged});
    assert Next(Next(w, LoadOpen(r, at)), LoadMerged(m, at)) == loaded;
    MergeLands(loaded, m, at, row);
    MergeDateIsLostIff(Next(loaded, Resume(merged)), Resume(open), r.id);
  }

  lemma MergeLands(w: World, m: MergedReading, at: int, row: PullRequestRow)
    requires Get(w.pullRequests, m.id) == Some(row)
    ensures Next(w, Resume(MergedLoaded(m, at, Some(row))))
         == w.(pullRequests := w.pullRequests[m.id := MergeMerged(Some(row), m, at)],
               tasks := w.tasks - multiset{MergedLoaded(m, at, Some(row))})
  {
  }

  // ─── What else an overtaken writer loses ───

  /**
   * The writer's update hits the row: neither what it loaded nor what is stored by now
   * is dated later than what it writes.
   */
  predicate Overwrites(task: Task, id: string, stored: PullRequestRow) {
    match task
    case OpenLoaded(r, _, held) =>
      r.id == id && stored.updatedAt <= r.updatedAt && (held.Some? ==> held.value.updatedAt <= r.updatedAt)
    case MergedLoaded(r, _, held) =>
      r.id == id && (stored.updatedAt <= r.mergedAt || (held.Some? && stored.updatedAt <= held.value.updatedAt))
    case _ => false
  }

  /** It knows of a first commit: from the row it loaded, or from the merged feed. */
  predicate KnowsFirstCommit(task: Task) {
    match task
    case OpenLoaded(_, _, held) => held.Some? && held.value.firstCommitAt.Some?
    case MergedLoaded(r, _, held) => r.firstCommitAt.Some? || (held.Some? && held.value.firstCommitAt.Some?)
    case _ => false
  }

  predicate KnowsFirstReview(task: Task) {
    match task
    case OpenLoaded(_, _, held) => held.Some? && held.value.firstReviewAt.Some?
    case MergedLoaded(r, _, held) => r.firstReviewAt.Some? || (held.Some? && held.value.firstReviewAt.Some?)
    case _ => false
  }

  /** A lead-time date is lost at exactly the step of a writer that does not know it and overwrites the row. */
  lemma LeadTimeDatesAreLostIff(w: World, step: Step, id: string)
    requires Enabled(w, step) && id in w.pullRequests && id in Next(w, step).pullRequests
    ensures w.pullRequests[id].firstCommitAt.Some? && Next(w, step).pullRequests[id].firstCommitAt.None?
       <==> w.pullRequests[id].firstCommitAt.Some? && step.Resume? && Overwrites(step.task, id, w.pullRequests[id])
            && !KnowsFirstCommit(step.task)
    ensures w.pullRequests[id].firstReviewAt.Some? && Next(w, step).pullRequests[id].firstReviewAt.None?
       <==> w.pullRequests[id].firstReviewAt.Some? && step.Resume? && Overwrites(step.task, id, w.pullRequests[id])
            && !KnowsFirstReview(step.task)
  {
    match step
    case Resume(task) => ResumedDates(w.(tasks := w.tasks - multiset{task}), task, id);
    case LoadOpen(_, _) =>
    case LoadMerged(_, _) =>
    case LoadPipeline(_, _) =>
    case LoadDeployment(_, _) =>
    case Sweep(_, _) =>
    case Prune(_) =>
  }

  lemma ResumedDates(w: World, task: Task, id: string)
    requires id in w.pullRequests
    ensures var (row, after) := (w.pullRequests[id], Resumed(w, task));
      && id in after.pullRequests
      && (Overwrites(task, id, row) ==>
           && (after.pullRequests[id].firstCommitAt.Some? <==> KnowsFirstCommit(task))
           && (after.pullRequests[id].firstReviewAt.Some? <==> KnowsFirstReview(task)))
      && (!Overwrites(task, id, row) ==>
           after.pullRequests[id].firstCommitAt == row.firstCommitAt
           && after.pullRequests[id].firstReviewAt == row.firstReviewAt)
  {
    match task
    case OpenLoaded(_, _, _) =>
    case MergedLoaded(_, _, _) =>
    case PullRequestMissed(_, _) =>
    case StaleListed(_, _) =>
    case PipelineLoaded(_, _, _) =>
    case PipelineMissed(_) =>
    case DeploymentLoaded(_, _, _) =>
    case DeploymentMissed(_) =>
  }

  /**
   * Two merged readings of one row are loaded, the second degraded and without
   * the dates the first brings; it lands last, and what the first wrote is gone.
   */
  lemma LeadTimeDatesCanBeLost(w: World, full: MergedReading, degraded: MergedReading, at: int, row: PullRequestRow)
    requires Get(w.pullRequests, full.id) == Some(row) && degraded.id == full.id && full.mergedAt <= degraded.mergedAt
    requires row.firstCommitAt.None? && full.firstCommitAt.Some? && degraded.firstCommitAt.None?
    requires row.firstReviewAt.None? && full.firstReviewAt.Some? && degraded.firstReviewAt.None?
    ensures var (first, last) := (MergedLoaded(full, at, Some(row)), MergedLoaded(degraded, at, Some(row)));
      var loaded := Next(Next(w, LoadMerged(full, at)), LoadMerged(degraded, at));
      var landed := Next(loaded, Resume(first));
      var after := Next(landed, Resume(last));
      && first in loaded.tasks && last in landed.tasks
      && full.id in landed.pullRequests && full.id in after.pullRequests
      && landed.pullRequests[full.id].firstCommitAt.Some? && after.pullRequests[full.id].firstCommitAt.None?
      && landed.pullRequests[full.id].firstReviewAt.Some? && after.pullRequests[full.id].firstReviewAt.None?
  {
    var first, last := MergedLoaded(full, at, Some(row)), MergedLoaded(degraded, at, Some(row));
    var loaded := w.(tasks := w.tasks + multiset{first} + multiset{last});
    assert Next(Next(w, LoadMerged(full, at)), LoadMerged(degraded, at)) == loaded;
    MergeLands(loaded, full, at, row);
    var landed := Next(loaded, Resume(first));
    ResumedDates(landed.(tasks := landed.tasks - multiset{last}), last, full.id);
  }

  /** A pipeline's writer whose update hits the row. */
  predicate OverwritesPipeline(task: Task, id: string, stored: PipelineRow) {
    && task.PipelineLoaded? && task.pipeline.id == id && stored.updatedAt <= task.pipeline.updatedAt
    && (task.heldPipeline.Some? ==> task.heldPipeline.value.updatedAt <= task.pipeline.updatedAt)
  }

  /** A pipeline's settled status and its duration are lost to a writer that overwrites the row without knowing them. */
  lemma PipelineIsSetBackIff(w: World, step: Step, id: string)
    requires Enabled(w, step) && id in w.pipelines && id in Next(w, step).pipelines
    ensures StatusRank(Next(w, step).pipelines[id].status) < StatusRank(w.pipelines[id].status)
       <==> step.Resume? && OverwritesPipeline(step.task, id, w.pipelines[id])
            && StatusRank(step.task.pipeline.status) < StatusRank(w.pipelines[id].status)
            && (step.task.heldPipeline.Some? ==>
                StatusRank(step.task.heldPipeline.value.status) < StatusRank(w.pipelines[id].status))
    ensures w.pipelines[id].durationSec.Some? && Next(w, step).pipelines[id].durationSec.None?
       <==> w.pipelines[id].durationSec.Some? && step.Resume? && OverwritesPipeline(step.task, id, w.pipelines[id])
            && step.task.pipeline.durationSec.None? && (step.task.heldPipeline.Some? ==>
                step.task.heldPipeline.value.durationSec.None?)
  {
    match step
    case Resume(task) => ResumedPipeline(w.(tasks := w.tasks - multiset{task}), task, id);
    case LoadOpen(_, _) =>
    case LoadMerged(_, _) =>
    case LoadPipeline(_, _) =>
    case LoadDeployment(_, _) =>
    case Sweep(_, _) =>
    case Prune(_) =>
  }

  /**
   * Two readings of one pipeline are loaded; the less settled of them, dated no
   * earlier, lands last and takes back the status and the duration.
   */
  lemma PipelineCanBeSetBack(w: World, settled: PipelineReading, early: PipelineReading, at: int, row: PipelineRow)
    requires Get(w.pipelines, settled.id) == Some(row) && early.id == settled.id
    requires row.updatedAt <= settled.updatedAt <= early.updatedAt
    requires StatusRank(row.status) < StatusRank(settled.status)
             && StatusRank(early.status) < StatusRank(settled.status)
    requires row.durationSec.None? && settled.durationSec.Some? && early.durationSec.None?
    ensures var (first, last) := (PipelineLoaded(settled, at, Some(row)), PipelineLoaded(early, at, Some(row)));
      var loaded := Next(Next(w, LoadPipeline(settled, at)), LoadPipeline(early, at));
      var landed := Next(loaded, Resume(first));
      var after := Next(landed, Resume(last));
      && first in loaded.tasks && last in landed.tasks
      && settled.id in landed.pipelines && settled.id in after.pipelines
      && StatusRank(after.pipelines[settled.id].status) < StatusRank(landed.pipelines[settled.id].status)
      && landed.pipelines[settled.id].durationSec.Some? && after.pipelines[settled.id].durationSec.None?
  {
    var first, last := PipelineLoaded(settled, at, Some(row)), PipelineLoaded(early, at, Some(row));
    var loaded := w.(tasks := w.tasks + multiset{first} + multiset{last});
    assert Next(Next(w, LoadPipeline(settled, at)), LoadPipeline(early, at)) == loaded;
    PipelineLands(loaded, settled, at, row);
    var landed := Next(loaded, Resume(first));
    ResumedPipeline(landed.(tasks := landed.tasks - multiset{last}), last, settled.id);
  }

  lemma PipelineLands(w: World, r: PipelineReading, at: int, row: PipelineRow)
    requires Get(w.pipelines, r.id) == Some(row) && row.updatedAt <= r.updatedAt
    ensures Next(w, Resume(PipelineLoaded(r, at, Some(row))))
         == w.(pipelines := w.pipelines[r.id := MergePipeline(Some(row), r, at).value],
               tasks := w.tasks - multiset{PipelineLoaded(r, at, Some(row))})
  {
  }

  lemma ResumedPipeline(w: World, task: Task, id: string)
    requires id in w.pipelines
    ensures var after := Resumed(w, task);
      && id in after.pipelines
      && after.pipelines[id] ==
         if OverwritesPipeline(task, id, w.pipelines[id])
         then MergePipeline(task.heldPipeline, task.pipeline, task.at).value
         else w.pipelines[id]
  {
    match task
    case OpenLoaded(_, _, _) =>
    case MergedLoaded(_, _, _) =>
    case PullRequestMissed(_, _) =>
    case StaleListed(_, _) =>
    case PipelineLoaded(_, _, _) =>
    case PipelineMissed(_) =>
    case DeploymentLoaded(_, _, _) =>
    case DeploymentMissed(_) =>
  }

  // ─── Undisturbed, a writer is atomic ───

  /** A reading with one writer: its update, then the follow-up the update leaves behind, if any. */
  function FollowUp(held: Option<PullRequestRow>, r: OpenReading, at: int): Option<Task> {
    var row := MergeOpen(held, r, at);
    if row.None? then Some(StaleListed({r.id}, at))
    else if held.None? then Some(PullRequestMissed(r.id, row.value))
    else None
  }

  function Finished(w: World, followUp: Option<Task>): World {
    if followUp.Some? then Next(w, Resume(followUp.value)) else w
  }

  predicate LeftBehind(w: World, followUp: Option<Task>) {
    followUp.Some? ==> followUp.value in w.tasks
  }

  /** Loaded and written with the row untouched in between, a reading lands as an upsert of its own. */
  lemma UndisturbedWriteIsAtomic(w: World, r: OpenReading, at: int)
    requires OpenLoaded(r, at, Get(w.pullRequests, r.id)) in w.tasks
    ensures var held := Get(w.pullRequests, r.id);
      var written := Next(w, Resume(OpenLoaded(r, at, held)));
      LeftBehind(written, FollowUp(held, r, at))
      && Finished(written, FollowUp(held, r, at)).pullRequests == AfterOpen(w.pullRequests, [r], at)
  {
    OneReading(w.pullRequests, r, at);
  }

  /** An upsert of one reading: written where it merges, marked seen where it is stale. */
  lemma OneReading(table: Table<PullRequestRow>, r: OpenReading, at: int)
    ensures var row := MergeOpen(Get(table, r.id), r, at);
      AfterOpen(table, [r], at) == if row.Some? then table[r.id := row.value] else MarkSeen(table, {r.id}, at)
  {
    var row := MergeOpen(Get(table, r.id), r, at);
    BatchOfOne(table, r, OpenId, OpenMerge(at), PullRequestGuard);
    assert StaleIds(table, [r], at) == if row.None? then {r.id} else {};
  }

  lemma UndisturbedMergeIsAtomic(w: World, r: MergedReading, at: int)
    requires MergedLoaded(r, at, Get(w.pullRequests, r.id)) in w.tasks
    ensures var held := Get(w.pullRequests, r.id);
      var written := Next(w, Resume(MergedLoaded(r, at, held)));
      var followUp := if held.None? then Some(PullRequestMissed(r.id, MergeMerged(held, r, at))) else None;
      LeftBehind(written, followUp) && Finished(written, followUp).pullRequests == AfterMerged(w.pullRequests, [r], at)
  {
    BatchOfOne(w.pullRequests, r, MergedId, MergedMerge(at), PullRequestGuard);
  }

  lemma UndisturbedPipelineIsAtomic(w: World, r: PipelineReading, at: int)
    requires PipelineLoaded(r, at, Get(w.pipelines, r.id)) in w.tasks
    ensures var held := Get(w.pipelines, r.id);
      var written := Next(w, Resume(PipelineLoaded(r, at, held)));
      var followUp := if held.None? then Some(PipelineMissed(MergePipeline(held, r, at).value)) else None;
      LeftBehind(written, followUp) && Finished(written, followUp).pipelines == AfterPipelines(w.pipelines, [r], at)
  {
    BatchOfOne(w.pipelines, r, PipelineId, PipelineMerge(at), PipelineGuard);
  }

  lemma UndisturbedDeploymentIsAtomic(w: World, r: DeploymentReading, at: int)
    requires DeploymentLoaded(r, at, Get(w.deployments, r.id)) in w.tasks
    ensures var held := Get(w.deployments, r.id);
      var written := Next(w, Resume(DeploymentLoaded(r, at, held)));
      var followUp := if held.None? then Some(DeploymentMissed(MergeDeployment(held, r, at))) else None;
      LeftBehind(written, followUp) && Finished(written, followUp).deployments
                                       == AfterDeployments(w.deployments, [r], at)
  {
    BatchOfOne(w.deployments, r, DeploymentId, DeploymentMerge(at), NoGuard);
  }

  /** Deployments state no date to guard on: a slow writer takes a settled status back, at exactly such a step. */
  lemma StatusGoesBackIff(w: World, step: Step, id: string)
    requires Enabled(w, step) && id in w.deployments && id in Next(w, step).deployments
    ensures StatusRank(Next(w, step).deployments[id].status) < StatusRank(w.deployments[id].status)
       <==> step.Resume? && step.task.DeploymentLoaded? && step.task.deployment.id == id
            && Overtaken(w.deployments[id], step.task.deployment, step.task.heldDeployment)
  {
    match step
    case Resume(task) => ResumedStatus(w.(tasks := w.tasks - multiset{task}), task, id);
    case LoadOpen(_, _) =>
    case LoadMerged(_, _) =>
    case LoadPipeline(_, _) =>
    case LoadDeployment(_, _) =>
    case Sweep(_, _) =>
    case Prune(_) =>
  }

  /** Neither what the writer read nor what it had loaded is as far on as what is stored by now. */
  predicate Overtaken(stored: DeploymentRow, reading: DeploymentReading, held: Option<DeploymentRow>) {
    && StatusRank(reading.status) < StatusRank(stored.status)
    && (held.Some? ==> StatusRank(held.value.status) < StatusRank(stored.status))
  }

  lemma ResumedStatus(w: World, task: Task, id: string)
    requires id in w.deployments && id in Resumed(w, task).deployments
    ensures StatusRank(Resumed(w, task).deployments[id].status) < StatusRank(w.deployments[id].status)
       <==> task.DeploymentLoaded? && task.deployment.id == id
            && Overtaken(w.deployments[id], task.deployment, task.heldDeployment)
  {
    match task
    case OpenLoaded(_, _, _) =>
    case MergedLoaded(_, _, _) =>
    case PullRequestMissed(_, _) =>
    case StaleListed(_, _) =>
    case PipelineLoaded(_, _, _) =>
    case PipelineMissed(_) =>
    case DeploymentLoaded(_, _, _) =>
    case DeploymentMissed(_) =>
  }

  /** Two readings of one deployment are loaded; the one further on lands, then the other writes over it. */
  lemma StatusCanGoBack(w: World, done: DeploymentReading, pending: DeploymentReading, at: int, row: DeploymentRow)
    requires Get(w.deployments, done.id) == Some(row) && pending.id == done.id
    requires StatusRank(row.status) < StatusRank(done.status) && StatusRank(pending.status) < StatusRank(done.status)
    ensures var (quick, slow) := (DeploymentLoaded(done, at, Some(row)), DeploymentLoaded(pending, at, Some(row)));
      var loaded := Next(Next(w, LoadDeployment(done, at)), LoadDeployment(pending, at));
      var landed := Next(loaded, Resume(quick));
      var after := Next(landed, Resume(slow));
      && quick in loaded.tasks && slow in landed.tasks
      && done.id in landed.deployments && landed.deployments[done.id].status == done.status
      && done.id in after.deployments
      && StatusRank(after.deployments[done.id].status) < StatusRank(landed.deployments[done.id].status)
  {
    var quick, slow := DeploymentLoaded(done, at, Some(row)), DeploymentLoaded(pending, at, Some(row));
    var loaded := w.(tasks := w.tasks + multiset{quick} + multiset{slow});
    assert Next(Next(w, LoadDeployment(done, at)), LoadDeployment(pending, at)) == loaded;
    DeploymentLands(loaded, done, at, row);
    DeploymentWritesOver(Next(loaded, Resume(quick)), pending, at, row);
  }

  lemma DeploymentWritesOver(w: World, r: DeploymentReading, at: int, held: DeploymentRow)
    requires r.id in w.deployments
    requires StatusRank(r.status) < StatusRank(w.deployments[r.id].status)
    requires StatusRank(held.status) < StatusRank(w.deployments[r.id].status)
    ensures var after := Next(w, Resume(DeploymentLoaded(r, at, Some(held))));
      r.id in after.deployments && StatusRank(after.deployments[r.id].status) < StatusRank(w.deployments[r.id].status)
  {
  }

  lemma DeploymentLands(w: World, r: DeploymentReading, at: int, row: DeploymentRow)
    requires Get(w.deployments, r.id) == Some(row)
    ensures Next(w, Resume(DeploymentLoaded(r, at, Some(row))))
         == w.(deployments := w.deployments[r.id := MergeDeployment(Some(row), r, at)],
               tasks := w.tasks - multiset{DeploymentLoaded(r, at, Some(row))})
  {
  }
}
