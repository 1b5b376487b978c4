/**
 * What whole schedules keep. A fact a row holds is safe in every schedule to come
 * exactly where no writer under way would overwrite it without knowing it: a
 * writer that loads from now on loads the fact with the row.
 */
module Endangered {
  import opened Interleaving
  import opened Merge
  import opened Options
  import opened Rows

  predicate IsLoaded(task: Task) {
    task.OpenLoaded? || task.MergedLoaded? || task.PipelineLoaded? || task.DeploymentLoaded?
  }

  /** What a load step adds to the writers under way. */
  predicate LoadedBy(task: Task, w: World, step: Step) {
    match step
    case LoadOpen(r, at) => task == OpenLoaded(r, at, Get(w.pullRequests, r.id))
    case LoadMerged(r, at) => task == MergedLoaded(r, at, Get(w.pullRequests, r.id))
    case LoadPipeline(r, at) => task == PipelineLoaded(r, at, Get(w.pipelines, r.id))
    case LoadDeployment(r, at) => task == DeploymentLoaded(r, at, Get(w.deployments, r.id))
    case _ => false
  }

  /** Writers that have loaded and not written were under way before, or have just loaded. */
  lemma OnlyLoadsLoad(w: World, step: Step, task: Task)
    requires Enabled(w, step) && task in Next(w, step).tasks && IsLoaded(task)
    ensures task in w.tasks || LoadedBy(task, w, step)
  {
    match step
    case Resume(done) => OnlyFollowUps(w.(tasks := w.tasks - multiset{done}), done, task);
    case _ =>
  }

  lemma OnlyFollowUps(w: World, done: Task, task: Task)
    requires task in Resumed(w, done).tasks && IsLoaded(task)
    ensures task in w.tasks
  {
  }

  lemma OneStep(w: World, step: Step)
    ensures Run(w, [step]) == Next(w, step) && (Schedules(w, [step]) <==> Enabled(w, step))
    ensures forall id :: LivesThrough(w, [step], id) <==> id in w.pullRequests && id in Next(w, step).pullRequests
    ensures forall id :: PipelineLivesThrough(w, [step], id) <==> id in w.pipelines && id in Next(w, step).pipelines
    ensures forall id :: DeploymentLivesThrough(w, [step], id) <==>
        id in w.deployments && id in Next(w, step).deployments
  {
    assert [step][..0] == [];
  }

  /** Resuming a writer drops no row. */
  lemma ResumeDropsNothing(w: World, task: Task)
    ensures w.pullRequests.Keys <= Next(w, Resume(task)).pullRequests.Keys
    ensures w.pipelines.Keys <= Next(w, Resume(task)).pipelines.Keys
    ensures w.deployments.Keys <= Next(w, Resume(task)).deployments.Keys
  {
  }

  // ─── Merge dates ───

  ghost predicate MergeIsSafe(w: World, id: string) {
    && id in w.pullRequests && w.pullRequests[id].mergedAt.Some?
    && forall task :: task in w.tasks ==> !Erases(task, id, w.pullRequests[id])
  }

  lemma StepKeepsMergeSafe(w: World, step: Step, id: string)
    requires MergeIsSafe(w, id) && Enabled(w, step) && id in Next(w, step).pullRequests
    ensures MergeIsSafe(Next(w, step), id)
  {
    MergeDateIsLostIff(w, step, id);
    StepNeverGoesBack(w, step);
    forall task | task in Next(w, step).tasks
    && task.OpenLoaded? ensures !Erases(task, id, Next(w, step).pullRequests[id]) {
      OnlyLoadsLoad(w, step, task);
      assert task in w.tasks ==> !Erases(task, id, w.pullRequests[id]);
    }
  }

  ghost predicate KeepsMerge(w: World, steps: seq<Step>, id: string) {
    Schedules(w, steps) && LivesThrough(w, steps, id) ==> Run(w, steps).pullRequests[id].mergedAt.Some?
  }

  lemma {:induction false} SafeMergeIsKept(w: World, steps: seq<Step>, id: string)
    requires MergeIsSafe(w, id) && Schedules(w, steps) && LivesThrough(w, steps, id)
    ensures MergeIsSafe(Run(w, steps), id)
  {
    if steps != [] {
      SafeMergeIsKept(w, steps[..|steps| - 1], id);
      StepKeepsMergeSafe(Run(w, steps[..|steps| - 1]), steps[|steps| - 1], id);
    }
  }

  /** A recorded merge outlives every schedule its row does, exactly where no writer under way would erase it. */
  lemma MergeIsKeptIff(w: World, id: string)
    requires id in w.pullRequests && w.pullRequests[id].mergedAt.Some?
    ensures (forall steps :: KeepsMerge(w, steps, id)) <==> forall task :: task in w.tasks ==>
        !Erases(task, id, w.pullRequests[id])
  {
    if MergeIsSafe(w, id) {
      forall steps ensures KeepsMerge(w, steps, id) {
        if Schedules(w, steps) && LivesThrough(w, steps, id) {
          SafeMergeIsKept(w, steps, id);
        }
      }
    } else {
      var task :| task in w.tasks && Erases(task, id, w.pullRequests[id]);
      OneStep(w, Resume(task));
      ResumeDropsNothing(w, task);
      MergeDateIsLostIff(w, Resume(task), id);
      assert !KeepsMerge(w, [Resume(task)], id);
    }
  }

  // ─── Lead-time dates ───

  datatype LeadDate = FirstCommit | FirstReview

  predicate HasDate(row: PullRequestRow, date: LeadDate) {
    if date.FirstCommit? then row.firstCommitAt.Some? else row.firstReviewAt.Some?
  }

  predicate KnowsDate(task: Task, date: LeadDate) {
    if date.FirstCommit? then KnowsFirstCommit(task) else KnowsFirstReview(task)
  }

  /** A writer that would leave the row without the date. */
  predicate Forgets(task: Task, id: string, stored: PullRequestRow, date: LeadDate) {
    Overwrites(task, id, stored) && !KnowsDate(task, date)
  }

  ghost predicate DateIsSafe(w: World, id: string, date: LeadDate) {
    && id in w.pullRequests && HasDate(w.pullRequests[id], date)
    && forall task :: task in w.tasks ==> !Forgets(task, id, w.pullRequests[id], date)
  }

  lemma StepKeepsDateSafe(w: World, step: Step, id: string, date: LeadDate)
    requires DateIsSafe(w, id, date) && Enabled(w, step) && id in Next(w, step).pullRequests
    ensures DateIsSafe(Next(w, step), id, date)
  {
    LeadTimeDatesAreLostIff(w, step, id);
    StepNeverGoesBack(w, step);
    forall task | task in Next(w, step).tasks
    && IsLoaded(task) ensures !Forgets(task, id, Next(w, step).pullRequests[id], date) {
      OnlyLoadsLoad(w, step, task);
      assert task in w.tasks ==> !Forgets(task, id, w.pullRequests[id], date);
    }
  }

  ghost predicate KeepsDate(w: World, steps: seq<Step>, id: string, date: LeadDate) {
    Schedules(w, steps) && LivesThrough(w, steps, id) ==> HasDate(Run(w, steps).pullRequests[id], date)
  }

  lemma {:induction false} SafeDateIsKept(w: World, steps: seq<Step>, id: string, date: LeadDate)
    requires DateIsSafe(w, id, date) && Schedules(w, steps) && LivesThrough(w, steps, id)
    ensures DateIsSafe(Run(w, steps), id, date)
  {
    if steps != [] {
      SafeDateIsKept(w, steps[..|steps| - 1], id, date);
      StepKeepsDateSafe(Run(w, steps[..|steps| - 1]), steps[|steps| - 1], id, date);
    }
  }

  lemma DateIsKeptIff(w: World, id: string, date: LeadDate)
    requires id in w.pullRequests && HasDate(w.pullRequests[id], date)
    ensures (forall steps :: KeepsDate(w, steps, id, date))
       <==> forall task :: task in w.tasks ==> !Forgets(task, id, w.pullRequests[id], date)
  {
    if DateIsSafe(w, id, date) {
      forall steps ensures KeepsDate(w, steps, id, date) {
        if Schedules(w, steps) && LivesThrough(w, steps, id) {
          SafeDateIsKept(w, steps, id, date);
        }
      }
    } else {
      var task :| task in w.tasks && Forgets(task, id, w.pullRequests[id], date);
      OneStep(w, Resume(task));
      ResumeDropsNothing(w, task);
      LeadTimeDatesAreLostIff(w, Resume(task), id);
      assert !KeepsDate(w, [Resume(task)], id, date);
    }
  }

  // ─── Pipelines ───

  /** What a pipeline's row establishes: how settled it is, or that its duration is known. */
  datatype PipelineFact = SettledTo(rank: nat) | Timed

  predicate Holds(row: PipelineRow, fact: PipelineFact) {
    match fact
    case SettledTo(rank) => rank <= StatusRank(row.status)
    case Timed => row.durationSec.Some?
  }

  /** A writer that would leave the row without it: neither its reading nor what it loaded says as much. */
  predicate Undoes(task: Task, id: string, stored: PipelineRow, fact: PipelineFact) {
    && OverwritesPipeline(task, id, stored)
    && !Holds(MergePipeline(task.heldPipeline, task.pipeline, task.at).value, fact)
  }

  ghost predicate FactIsSafe(w: World, id: string, fact: PipelineFact) {
    && id in w.pipelines && Holds(w.pipelines[id], fact)
    && forall task :: task in w.tasks ==> !Undoes(task, id, w.pipelines[id], fact)
  }

  lemma PipelineAfter(w: World, step: Step, id: string)
    requires id in w.pipelines && id in Next(w, step).pipelines
    ensures Next(w, step).pipelines[id] ==
      if step.Resume? && OverwritesPipeline(step.task, id, w.pipelines[id])
      then MergePipeline(step.task.heldPipeline, step.task.pipeline, step.task.at).value
      else w.pipelines[id]
  {
    if step.Resume? {
      ResumedPipeline(w.(tasks := w.tasks - multiset{step.task}), step.task, id);
    }
  }

  lemma StepKeepsFactSafe(w: World, step: Step, id: string, fact: PipelineFact)
    requires FactIsSafe(w, id, fact) && Enabled(w, step) && id in Next(w, step).pipelines
    ensures FactIsSafe(Next(w, step), id, fact)
  {
    PipelineAfter(w, step, id);
    StepNeverGoesBack(w, step);
    forall task | task in Next(w, step).tasks
    && task.PipelineLoaded? ensures !Undoes(task, id, Next(w, step).pipelines[id], fact) {
      OnlyLoadsLoad(w, step, task);
      assert task in w.tasks ==> !Undoes(task, id, w.pipelines[id], fact);
    }
  }

  ghost predicate KeepsFact(w: World, steps: seq<Step>, id: string, fact: PipelineFact) {
    Schedules(w, steps) && PipelineLivesThrough(w, steps, id) ==> Holds(Run(w, steps).pipelines[id], fact)
  }

  lemma {:induction false} SafeFactIsKept(w: World, steps: seq<Step>, id: string, fact: PipelineFact)
    requires FactIsSafe(w, id, fact) && Schedules(w, steps) && PipelineLivesThrough(w, steps, id)
    ensures FactIsSafe(Run(w, steps), id, fact)
  {
    if steps != [] {
      SafeFactIsKept(w, steps[..|steps| - 1], id, fact);
      StepKeepsFactSafe(Run(w, steps[..|steps| - 1]), steps[|steps| - 1], id, fact);
    }
  }

  lemma PipelineFactIsKeptIff(w: World, id: string, fact: PipelineFact)
    requires id in w.pipelines && Holds(w.pipelines[id], fact)
    ensures (forall steps :: KeepsFact(w, steps, id, fact)) <==> forall task :: task in w.tasks ==>
        !Undoes(task, id, w.pipelines[id], fact)
  {
    if FactIsSafe(w, id, fact) {
      forall steps ensures KeepsFact(w, steps, id, fact) {
        if Schedules(w, steps) && PipelineLivesThrough(w, steps, id) {
          SafeFactIsKept(w, steps, id, fact);
        }
      }
    } else {
      var task :| task in w.tasks && Undoes(task, id, w.pipelines[id], fact);
      OneStep(w, Resume(task));
      ResumeDropsNothing(w, task);
      PipelineAfter(w, Resume(task), id);
      assert !KeepsFact(w, [Resume(task)], id, fact);
    }
  }

  // ─── Deployments ───

  predicate DeploymentLivesThrough(w: World, steps: seq<Step>, id: string) {
    id in Run(w, steps).deployments && (steps == [] || DeploymentLivesThrough(w, steps[..|steps| - 1], id))
  }

  /** A writer that would leave the status below this rank. */
  predicate SetsBelow(task: Task, id: string, rank: nat) {
    && task.DeploymentLoaded? && task.deployment.id == id && StatusRank(task.deployment.status) < rank
    && (task.heldDeployment.Some? ==> StatusRank(task.heldDeployment.value.status) < rank)
  }

  ghost predicate RankIsSafe(w: World, id: string, rank: nat) {
    && id in w.deployments && rank <= StatusRank(w.deployments[id].status)
    && forall task :: task in w.tasks ==> !SetsBelow(task, id, rank)
  }

  /** A deployment's writer always hits the row; no other step changes its status. */
  lemma StatusAfter(w: World, step: Step, id: string)
    requires id in w.deployments && id in Next(w, step).deployments
    ensures Next(w, step).deployments[id].status ==
      if step.Resume? && step.task.DeploymentLoaded? && step.task.deployment.id == id
      then MergeDeployment(step.task.heldDeployment, step.task.deployment, step.task.at).status
      else w.deployments[id].status
  {
    if step.Resume? {
      ResumedDeployment(w.(tasks := w.tasks - multiset{step.task}), step.task, id);
    }
  }

  lemma ResumedDeployment(w: World, task: Task, id: string)
    requires id in w.deployments
    ensures id in Resumed(w, task).deployments
    ensures Resumed(w, task).deployments[id] ==
      if task.DeploymentLoaded? && task.deployment.id == id
      then MergeDeployment(task.heldDeployment, task.deployment, task.at)
      else w.deployments[id]
  {
    match task
    case OpenLoaded(_, _, _) =>
    case MergedLoaded(_, _, _) =>
    case PullRequestMissed(_, _) =>
    case StaleListed(_, _) =>
    case PipelineLoaded(_, _, _) =>
    case PipelineMissed(_) =>
    case DeploymentLoaded(_, _, _) =>
    case DeploymentMissed(_) =>
  }

  lemma StepKeepsRankSafe(w: World, step: Step, id: string, rank: nat)
    requires RankIsSafe(w, id, rank) && Enabled(w, step) && id in Next(w, step).deployments
    ensures RankIsSafe(Next(w, step), id, rank)
  {
    StatusAfter(w, step, id);
    assert step.Resume? ==> !SetsBelow(step.task, id, rank);
    forall task | task in Next(w, step).tasks && task.DeploymentLoaded? ensures !SetsBelow(task, id, rank) {
      OnlyLoadsLoad(w, step, task);
    }
  }

  ghost predicate KeepsRank(w: World, steps: seq<Step>, id: string, rank: nat) {
    Schedules(w, steps) && DeploymentLivesThrough(w, steps, id) ==>
        rank <= StatusRank(Run(w, steps).deployments[id].status)
  }

  lemma {:induction false} SafeRankIsKept(w: World, steps: seq<Step>, id: string, rank: nat)
    requires RankIsSafe(w, id, rank) && Schedules(w, steps) && DeploymentLivesThrough(w, steps, id)
    ensures RankIsSafe(Run(w, steps), id, rank)
  {
    if steps != [] {
      SafeRankIsKept(w, steps[..|steps| - 1], id, rank);
      StepKeepsRankSafe(Run(w, steps[..|steps| - 1]), steps[|steps| - 1], id, rank);
    }
  }

  lemma DeploymentRankIsKeptIff(w: World, id: string, rank: nat)
    requires id in w.deployments && rank <= StatusRank(w.deployments[id].status)
    ensures (forall steps :: KeepsRank(w, steps, id, rank)) <==> forall task :: task in w.tasks ==>
        !SetsBelow(task, id, rank)
  {
    if RankIsSafe(w, id, rank) {
      forall steps ensures KeepsRank(w, steps, id, rank) {
        if Schedules(w, steps) && DeploymentLivesThrough(w, steps, id) {
          SafeRankIsKept(w, steps, id, rank);
        }
      }
    } else {
      var task :| task in w.tasks && SetsBelow(task, id, rank);
      OneStep(w, Resume(task));
      ResumeDropsNothing(w, task);
      StatusAfter(w, Resume(task), id);
      assert !KeepsRank(w, [Resume(task)], id, rank);
    }
  }
}
