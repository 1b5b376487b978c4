/** The intervals of back/src/ingest/sync-cadence.ts and the decisions taken on them. */
module Cadence {
  import opened Numbers
  import opened Options

  const DELTA_OVERLAP_MS := 10 * 60_000
  const FULL_SYNC_INTERVAL_MS := 6 * 3_600_000
  const EVENT_QUIET_MS := 15 * 60_000

  predicate SkipsDelta(lastEventAt: Option<int>, now: int, full: bool) {
    !full && lastEventAt.Some? && now - lastEventAt.value < EVENT_QUIET_MS
  }

  function MergedSince(cursor: Option<int>, now: int, windowDays: int, full: bool): int {
    var windowStart := now - windowDays * DAY_MS;
    if full || cursor.None? then windowStart
    else if windowStart >= cursor.value - DELTA_OVERLAP_MS then windowStart
    else cursor.value - DELTA_OVERLAP_MS
  }

  predicate Overdue(at: Option<int>, now: int) {
    at.None? || now - at.value >= FULL_SYNC_INTERVAL_MS
  }
}

/** The cursors of one source, and what a run of back/src/ingest/sync.service.ts makes of them. */
module Schedule {
  import opened Cadence
  import opened Numbers
  import opened Options
  import opened Reconciliation

  datatype Resource = Repos | Pulls | Pipelines | Deployments

  datatype SyncState = SyncState(
    cursor: Option<int>,
    lastSyncAt: Option<int>,
    lastFullSyncAt: Option<int>,
    lastError: Option<string>
  )

  const NEVER := SyncState(None, None, None, None)

  type Cursors = map<Resource, SyncState>

  /** How one run was asked for, and what it met. */
  datatype Request = Request(startedAt: int, force: bool, lastEventAt: Option<int>, answers: Answers)

  function StateOf(c: Cursors, r: Resource): SyncState { if r in c then c[r] else NEVER }

  /** A success advances the cursor, and the reconciliation clock in a full run only. */
  function MarkDone(c: Cursors, r: Resource, at: int, full: bool): Cursors {
    c[r := SyncState(Some(at), Some(at), if full then Some(at) else StateOf(c, r).lastFullSyncAt, None)]
  }

  /** A failure records itself and nothing else. */
  function MarkFailed(c: Cursors, r: Resource, message: string): Cursors {
    c[r := StateOf(c, r).(lastError := Some(message))]
  }

  function Mark<T>(c: Cursors, r: Resource, answer: Answer<T>, at: int, full: bool): Cursors {
    match answer
    case Answered(_) => MarkDone(c, r, at, full)
    case Refused(message) => MarkFailed(c, r, message)
  }

  /** A source never run reconciles, and so does one with any listing overdue. */
  predicate IsDue(c: Cursors, now: int) {
    c == map[] || exists r :: r in c && Overdue(c[r].lastFullSyncAt, now)
  }

  predicate IsFull(c: Cursors, q: Request) { q.force || IsDue(c, q.startedAt) }

  predicate IsSkipped(c: Cursors, q: Request) { SkipsDelta(q.lastEventAt, q.startedAt, IsFull(c, q)) }

  /** Six hours without a reconciliation of one of them, or a source never listed. */
  ghost predicate SomeListingOverdue(c: Cursors, now: int) {
    c == map[]
    || exists r :: r in c && (c[r].lastFullSyncAt.None? || now - c[r].lastFullSyncAt.value >= 6 * 60 * 60 * 1000)
  }

  /** An event heard less than fifteen minutes before. */
  predicate HeardLately(lastEventAt: Option<int>, now: int) {
    lastEventAt.Some? && now - lastEventAt.value < 15 * 60 * 1000
  }

  /** Every listing current as of this instant, none of them reconciled by it. */
  ghost predicate MarkedCurrent(before: Cursors, after: Cursors, at: int) {
    forall r: Resource ::
      r in after && after[r] == SyncState(Some(at), Some(at), StateOf(before, r).lastFullSyncAt, None)
  }

  lemma MarkAllMarksCurrent(c: Cursors, at: int)
    ensures MarkedCurrent(c, MarkAll(c, at), at)
  {
    forall r: Resource ensures r in MarkAll(c, at)
                            && MarkAll(c, at)[r] == SyncState(Some(at), Some(at), StateOf(c, r).lastFullSyncAt, None) {
      assert r.Repos? || r.Pulls? || r.Pipelines? || r.Deployments?;
    }
  }

  /** From the window's start, or for a delta from ten minutes before the cursor, whichever is later. */
  predicate IsListingStart(since: int, cursor: Option<int>, now: int, depth: int, full: bool) {
    since == if full || cursor.None? then now - depth * 24 * 60 * 60 * 1000
             else Max(now - depth * 24 * 60 * 60 * 1000, cursor.value - 10 * 60 * 1000)
  }

  lemma FullAndSkippedIff(c: Cursors, q: Request)
    ensures IsFull(c, q) <==> q.force || SomeListingOverdue(c, q.startedAt)
    ensures IsSkipped(c, q) <==> !q.force && !SomeListingOverdue(c, q.startedAt)
                                 && HeardLately(q.lastEventAt, q.startedAt)
  {
    if q.force || SomeListingOverdue(c, q.startedAt) {
      if r :| r in c && (c[r].lastFullSyncAt.None? || q.startedAt - c[r].lastFullSyncAt.value >= 6 * 60 * 60 * 1000) {
        assert Overdue(c[r].lastFullSyncAt, q.startedAt);
      }
    } else {
      assert forall r :: r in c ==> !Overdue(c[r].lastFullSyncAt, q.startedAt);
    }
  }

  /** The two listings of the pull requests share one cursor: both must answer. */
  function PullsAnswer(w: Answers): Answer<()> {
    if w.open.Refused? then Refused(w.open.message)
    else if w.merged.Refused? then Refused(w.merged.message)
    else Answered(())
  }

  function MarkAll(c: Cursors, at: int): Cursors {
    MarkDone(MarkDone(MarkDone(MarkDone(c, Repos, at, false), Pulls, at, false), Pipelines, at, false), Deployments, at,
             false)
  }

  /** Without the repository list nothing else is asked. */
  function AfterListings(c: Cursors, w: Answers, at: int, full: bool): Cursors {
    var named := Mark(c, Repos, w.repos, at, full);
    if w.repos.Refused? then named
    else
      Mark(Mark(Mark(named, Pulls, PullsAnswer(w), at, full), Pipelines, w.pipelines, at, full), Deployments,
           w.deployments, at, full)
  }

  function AfterRun(c: Cursors, q: Request): Cursors {
    if IsSkipped(c, q) then MarkAll(c, q.startedAt) else AfterListings(c, q.answers, q.startedAt, IsFull(c, q))
  }

  /** Whether the pull request listings were made, and answered. */
  predicate ListsPulls(c: Cursors, q: Request) {
    !IsSkipped(c, q) && q.answers.repos.Answered? && PullsAnswer(q.answers).Answered?
  }

  predicate AllAnswer(w: Answers) {
    w.repos.Answered? && w.open.Answered? && w.merged.Answered? && w.pipelines.Answered? && w.deployments.Answered?
  }

  // ─── The reconciliation clock ───

  /** A skipped run leaves the reconciliation clock alone; a failed listing advances none of its dates. */
  lemma ClockUntouched(c: Cursors, q: Request, r: Resource)
    ensures IsSkipped(c, q) ==> StateOf(AfterRun(c, q), r).lastFullSyncAt == StateOf(c, r).lastFullSyncAt
    ensures !IsFull(c, q) ==> StateOf(AfterRun(c, q), r).lastFullSyncAt == StateOf(c, r).lastFullSyncAt
    ensures var answered := match r
              case Repos => q.answers.repos.Answered?
              case Pulls => PullsAnswer(q.answers).Answered?
              case Pipelines => q.answers.pipelines.Answered?
              case Deployments => q.answers.deployments.Answered?;
      !IsSkipped(c, q) && !answered ==> StateOf(AfterRun(c, q), r).(lastError := None)
                                        == StateOf(c, r).(lastError := None)
  {
  }

  /**
   * What a failed listing costs is the cursor. The next delta starts where the
   * failed one did, or at the window's own start where that has moved past it.
   */
  lemma FailedListingIsReRead(c: Cursors, message: string, at: int, later: int, depth: int, full: bool)
    requires at <= later
    ensures var next := Mark<()>(c, Pulls, Refused(message), at, full);
      MergedSince(StateOf(next, Pulls).cursor, later, depth, false)
      == Max(MergedSince(StateOf(c, Pulls).cursor, at, depth, false), later - depth * DAY_MS)
  {
  }

  /** Whether a listing was made and answered; without the repositories no other is made. */
  predicate IsAnswered(w: Answers, r: Resource) {
    && w.repos.Answered?
    && match r
       case Repos => true
       case Pulls => w.open.Answered? && w.merged.Answered?
       case Pipelines => w.pipelines.Answered?
       case Deployments => w.deployments.Answered?
  }

  /** What a run that is not skipped makes of each listing's state. */
  lemma ListingsMark(c: Cursors, w: Answers, at: int, full: bool, r: Resource)
    ensures var (before, after) := (StateOf(c, r), Get(AfterListings(c, w, at, full), r));
      && (IsAnswered(w, r) ==>
           after == Some(SyncState(Some(at), Some(at), if full then Some(at) else before.lastFullSyncAt, None)))
      && (!IsAnswered(w, r) && (w.repos.Answered? || r.Repos?) ==>
           after.Some? && after.value.lastError.Some? && after.value.(lastError := before.lastError) == before)
      && (!IsAnswered(w, r) && w.repos.Refused? && !r.Repos? ==> after == Get(c, r))
  {
  }

  function RunAll(c: Cursors, runs: seq<Request>): Cursors {
    if runs == [] then c else AfterRun(RunAll(c, runs[..|runs| - 1]), runs[|runs| - 1])
  }

  /** Every listing last reconciled at the same instant. */
  predicate ReconciledAt(c: Cursors, at: int) {
    forall r :: r in {Repos, Pulls, Pipelines, Deployments} ==> r in c && c[r].lastFullSyncAt == Some(at)
  }

  lemma FullRunReconciles(c: Cursors, q: Request)
    requires IsFull(c, q) && AllAnswer(q.answers)
    ensures ReconciledAt(AfterRun(c, q), q.startedAt)
  {
  }

  lemma DueIffIntervalElapsed(c: Cursors, at: int, now: int)
    requires ReconciledAt(c, at)
    ensures IsDue(c, now) <==> now - at >= FULL_SYNC_INTERVAL_MS
  {
    assert Repos in c && c[Repos].lastFullSyncAt == Some(at);
    forall r | r in c ensures c[r].lastFullSyncAt == Some(at) {
      assert r.Repos? || r.Pulls? || r.Pipelines? || r.Deployments?;
    }
  }

  /** None of these runs, one after the other, reconciles. */
  predicate NoneFull(c: Cursors, runs: seq<Request>) {
    runs == [] || (NoneFull(c, runs[..|runs| - 1]) && !IsFull(RunAll(c, runs[..|runs| - 1]), runs[|runs| - 1]))
  }

  /** When the last of these runs started, `at` if there was none. */
  function LastStart(at: int, runs: seq<Request>): int {
    if runs == [] then at else runs[|runs| - 1].startedAt
  }

  /** Until a full run comes, the clock stands where the last one left it, and no interval has elapsed. */
  lemma {:induction false} ClockStands(c: Cursors, runs: seq<Request>, at: int)
    requires ReconciledAt(c, at) && NoneFull(c, runs)
    ensures ReconciledAt(RunAll(c, runs), at)
    ensures LastStart(at, runs) - at < FULL_SYNC_INTERVAL_MS
  {
    if runs != [] {
      var n := |runs| - 1;
      ClockStands(c, runs[..n], at);
      QuietRunKeepsClock(RunAll(c, runs[..n]), runs[n], at);
    }
  }

  lemma QuietRunKeepsClock(c: Cursors, q: Request, at: int)
    requires ReconciledAt(c, at) && !IsFull(c, q)
    ensures ReconciledAt(AfterRun(c, q), at)
    ensures q.startedAt - at < FULL_SYNC_INTERVAL_MS
  {
    DueIffIntervalElapsed(c, at, q.startedAt);
  }

  /**
   * Events never postpone a reconciliation. Whatever events arrive, and whatever
   * the runs in between meet, the next full run comes less than the interval and
   * one period of the schedule after the last: it comes as soon as one is due.
   */
  lemma FullRunsAreNeverLate(c: Cursors, first: Request, between: seq<Request>, next: Request, period: int)
    requires IsFull(c, first) && AllAnswer(first.answers)
    requires NoneFull(AfterRun(c, first), between)
    requires next.startedAt - LastStart(first.startedAt, between) <= period
    ensures next.startedAt - first.startedAt < FULL_SYNC_INTERVAL_MS + period
    ensures IsFull(RunAll(AfterRun(c, first), between), next)
       <==> next.force || next.startedAt - first.startedAt >= FULL_SYNC_INTERVAL_MS
  {
    FullRunReconciles(c, first);
    ClockStands(AfterRun(c, first), between, first.startedAt);
    DueIffIntervalElapsed(RunAll(AfterRun(c, first), between), first.startedAt, next.startedAt);
  }

  // ─── What the merged listings covered ───

  /** The interval a successful pull request step asked merges for. */
  datatype Listed = Listed(since: int, at: int)

  datatype Trace = Trace(cursors: Cursors, listed: seq<Listed>)

  function Traced(t: Trace, q: Request, depth: int): Trace {
    var since := MergedSince(StateOf(t.cursors, Pulls).cursor, q.startedAt, depth, IsFull(t.cursors, q));
    Trace(AfterRun(t.cursors, q), if ListsPulls(t.cursors, q) then t.listed + [Listed(since, q.startedAt)]
                                  else t.listed)
  }

  function TracedAll(t: Trace, runs: seq<Request>, depth: int): Trace {
    if runs == [] then t else Traced(TracedAll(t, runs[..|runs| - 1], depth), runs[|runs| - 1], depth)
  }

  ghost predicate Asked(listed: seq<Listed>, instant: int) {
    exists l :: l in listed && l.since <= instant <= l.at
  }

  /** Every instant of the window up to the cursor was asked of the provider. */
  ghost predicate Covered(t: Trace, now: int, depth: int) {
    var cursor := StateOf(t.cursors, Pulls).cursor;
    cursor.Some? ==> forall x :: now - depth * DAY_MS <= x <= cursor.value ==> Asked(t.listed, x)
  }

  lemma PullsCursorAfter(c: Cursors, q: Request)
    ensures StateOf(AfterRun(c, q), Pulls).cursor
         == if IsSkipped(c, q) || ListsPulls(c, q) then Some(q.startedAt) else StateOf(c, Pulls).cursor
  {
  }

  /** A full run that lists the pull requests covers its window, whatever came before. */
  lemma FullRunCovers(t: Trace, q: Request, depth: int)
    requires IsFull(t.cursors, q) && ListsPulls(t.cursors, q)
    ensures Covered(Traced(t, q, depth), q.startedAt, depth)
  {
    PullsCursorAfter(t.cursors, q);
    var listed := Listed(q.startedAt - depth * DAY_MS, q.startedAt);
    assert Traced(t, q, depth).listed == t.listed + [listed];
    assert listed in Traced(t, q, depth).listed;
  }

  lemma RunCovers(t: Trace, q: Request, depth: int, before: int)
    requires Covered(t, before, depth) && before <= q.startedAt && !IsSkipped(t.cursors, q)
    ensures Covered(Traced(t, q, depth), q.startedAt, depth)
  {
    PullsCursorAfter(t.cursors, q);
    var next := Traced(t, q, depth);
    var cursor := StateOf(t.cursors, Pulls).cursor;
    if ListsPulls(t.cursors, q) {
      var listed := Listed(MergedSince(cursor, q.startedAt, depth, IsFull(t.cursors, q)), q.startedAt);
      assert next.listed == t.listed + [listed];
      assert listed in next.listed;
      forall x | q.startedAt - depth * DAY_MS <= x <= q.startedAt ensures Asked(next.listed, x) {
        if x < listed.since {
          assert cursor.Some? && x <= cursor.value;
          assert Asked(t.listed, x);
          var l :| l in t.listed && l.since <= x <= l.at;
          assert l in next.listed;
        }
      }
    }
  }

  /** Runs on a clock that never goes back, none of them skipped. */
  predicate Unbroken(t: Trace, at: int, runs: seq<Request>, depth: int) {
    runs == []
    || var n := |runs| - 1;
       && Unbroken(t, at, runs[..n], depth)
       && LastStart(at, runs[..n]) <= runs[n].startedAt
       && !IsSkipped(TracedAll(t, runs[..n], depth).cursors, runs[n])
  }

  /**
   * Coverage over whole histories: after a successful full run from any state,
   * and as long as no run is skipped, every instant from the window's start to
   * the cursor stays asked for, whichever listings fail in between.
   */
  lemma {:induction false} CoverageHolds(t: Trace, first: Request, runs: seq<Request>, depth: int)
    requires IsFull(t.cursors, first) && ListsPulls(t.cursors, first)
    requires Unbroken(Traced(t, first, depth), first.startedAt, runs, depth)
    ensures Covered(TracedAll(Traced(t, first, depth), runs, depth), LastStart(first.startedAt, runs), depth)
  {
    if runs == [] {
      FullRunCovers(t, first, depth);
    } else {
      var n := |runs| - 1;
      CoverageHolds(t, first, runs[..n], depth);
      RunCovers(TracedAll(Traced(t, first, depth), runs[..n], depth), runs[n], depth,
                LastStart(first.startedAt, runs[..n]));
    }
  }

  /** Without any event no run is skipped: each that is answered lists, and the listings are as many. */
  lemma {:induction false} WithoutEventsEveryRunLists(t: Trace, runs: seq<Request>, depth: int)
    requires forall q :: q in runs ==> q.lastEventAt == None && AllAnswer(q.answers)
    ensures |TracedAll(t, runs, depth).listed| == |t.listed| + |runs|
    ensures forall n :: 0 <= n < |runs| ==> TracedAll(t, runs, depth).listed[|t.listed| + n].at == runs[n].startedAt
  {
    if runs != [] {
      var n := |runs| - 1;
      WithoutEventsEveryRunLists(t, runs[..n], depth);
      FullAndSkippedIff(TracedAll(t, runs[..n], depth).cursors, runs[n]);
      assert runs[n] in runs;
      assert ListsPulls(TracedAll(t, runs[..n], depth).cursors, runs[n]);
    }
  }

  // ─── What skipped runs leave open ───

  /** The instant the merged listings had reached: the last one that answered, `upTo` if none did. */
  function Reached(t: Trace, runs: seq<Request>, depth: int, upTo: int): int {
    if runs == [] then upTo
    else
      var n := |runs| - 1;
      if ListsPulls(TracedAll(t, runs[..n], depth).cursors, runs[n]) then runs[n].startedAt
      else Reached(t, runs[..n], depth, upTo)
  }

  /** Every instant of the window up to what the listings had reached was asked of the provider. */
  ghost predicate AskedUpTo(listed: seq<Listed>, upTo: int, now: int, depth: int) {
    forall x :: now - depth * DAY_MS <= x <= upTo ==> Asked(listed, x)
  }

  predicate ReachNoFurther(listed: seq<Listed>, upTo: int) {
    forall l :: l in listed ==> l.at <= upTo
  }

  /**
   * A listing joins what was asked before it: a full one does, and a delta whose
   * start, the overlap before its cursor, is no later than the first instant not
   * asked yet or than the window itself. A run that lists nothing has nothing to join.
   */
  predicate Bridges(t: Trace, q: Request, depth: int, upTo: int) {
    var cursor := StateOf(t.cursors, Pulls).cursor;
    ListsPulls(t.cursors, q) && !IsFull(t.cursors, q) && cursor.Some? ==>
      cursor.value - DELTA_OVERLAP_MS <= Max(upTo + 1, q.startedAt - depth * DAY_MS)
  }

  lemma AskedOfOneMore(listed: seq<Listed>, l: Listed, x: int)
    ensures Asked(listed + [l], x) <==> Asked(listed, x) || l.since <= x <= l.at
  {
    if Asked(listed, x) {
      var m :| m in listed && m.since <= x <= m.at;
      assert m in listed + [l];
    }
    assert l in listed + [l];
  }

  /** One delta, from wherever its cursor has got to. */
  lemma DeltaJoinsIff(listed: seq<Listed>, since: int, at: int, upTo: int, before: int, depth: int)
    requires AskedUpTo(listed, upTo, before, depth) && ReachNoFurther(listed, upTo)
    requires before <= at && upTo <= at && at - depth * DAY_MS <= since <= Max(at, at - depth * DAY_MS)
    ensures AskedUpTo(listed + [Listed(since, at)], at, at, depth) <==> since <= Max(upTo + 1, at - depth * DAY_MS)
  {
    var l, start := Listed(since, at), Max(upTo + 1, at - depth * DAY_MS);
    forall x | at - depth * DAY_MS <= x <= at ensures Asked(listed + [l], x) <==> x < start || since <= x {
      AskedOfOneMore(listed, l, x);
    }
    if start < since && start <= at {
      assert !Asked(listed + [l], start);
    }
  }

  lemma RunJoinsIff(t: Trace, q: Request, depth: int, upTo: int, before: int)
    requires AskedUpTo(t.listed, upTo, before, depth) && ReachNoFurther(t.listed, upTo)
    requires before <= q.startedAt && upTo <= q.startedAt && CursorNotAhead(t, q.startedAt)
    ensures var reached := if ListsPulls(t.cursors, q) then q.startedAt else upTo;
      AskedUpTo(Traced(t, q, depth).listed, reached, q.startedAt, depth)
      <==> Bridges(t, q, depth, upTo)
  {
    if ListsPulls(t.cursors, q) {
      var since := MergedSince(StateOf(t.cursors, Pulls).cursor, q.startedAt, depth, IsFull(t.cursors, q));
      DeltaJoinsIff(t.listed, since, q.startedAt, upTo, before, depth);
    }
  }

  predicate CursorNotAhead(t: Trace, now: int) {
    StateOf(t.cursors, Pulls).cursor.Some? ==> StateOf(t.cursors, Pulls).cursor.value <= now
  }

  /** A clock that never goes back. */
  predicate InTurn(at: int, runs: seq<Request>) {
    runs == [] || (InTurn(at, runs[..|runs| - 1]) && LastStart(at, runs[..|runs| - 1]) <= runs[|runs| - 1].startedAt)
  }

  /** Every run of these joins what was asked before it. */
  predicate Bridged(t: Trace, runs: seq<Request>, depth: int, upTo: int) {
    runs == []
    || var n := |runs| - 1;
       Bridged(t, runs[..n], depth, upTo) && Bridges(TracedAll(t, runs[..n], depth), runs[n], depth,
                                                     Reached(t, runs[..n], depth, upTo))
  }

  /** After every one of these runs, nothing of the window was left unasked below the last listing. */
  ghost predicate NeverLeftOpen(t: Trace, runs: seq<Request>, depth: int, at: int, upTo: int) {
    AskedUpTo(TracedAll(t, runs, depth).listed, Reached(t, runs, depth, upTo), LastStart(at, runs), depth)
    && (runs == [] || NeverLeftOpen(t, runs[..|runs| - 1], depth, at, upTo))
  }

  lemma {:induction false} ListingsReachNoFurther(t: Trace, runs: seq<Request>, depth: int, at: int, upTo: int)
    requires ReachNoFurther(t.listed, upTo) && upTo <= at && CursorNotAhead(t, at) && InTurn(at, runs)
    ensures ReachNoFurther(TracedAll(t, runs, depth).listed, Reached(t, runs, depth, upTo))
    ensures Reached(t, runs, depth, upTo) <= LastStart(at, runs)
            && CursorNotAhead(TracedAll(t, runs, depth), LastStart(at, runs))
  {
    if runs != [] {
      var n := |runs| - 1;
      ListingsReachNoFurther(t, runs[..n], depth, at, upTo);
      PullsCursorAfter(TracedAll(t, runs[..n], depth).cursors, runs[n]);
    }
  }

  /**
   * Coverage over whole histories, skipped runs and failed listings among them:
   * it is never broken exactly where every listing joins the ones before it. A
   * skipped run opens a hole only if the next delta, its overlap included, starts
   * past it.
   */
  lemma {:induction false} CoverageIsUnbrokenIff(t: Trace, runs: seq<Request>, depth: int, at: int, upTo: int)
    requires AskedUpTo(t.listed, upTo, at, depth) && ReachNoFurther(t.listed, upTo)
    requires upTo <= at && CursorNotAhead(t, at) && InTurn(at, runs)
    ensures NeverLeftOpen(t, runs, depth, at, upTo) <==> Bridged(t, runs, depth, upTo)
  {
    if runs != [] {
      var n := |runs| - 1;
      CoverageIsUnbrokenIff(t, runs[..n], depth, at, upTo);
      ListingsReachNoFurther(t, runs[..n], depth, at, upTo);
      if NeverLeftOpen(t, runs[..n], depth, at, upTo) {
        RunJoinsIff(TracedAll(t, runs[..n], depth), runs[n], depth, Reached(t, runs[..n], depth, upTo),
                    LastStart(at, runs[..n]));
      }
    }
  }

  /** Runs none of which lists the pull requests: skipped, or failed. */
  predicate NoneLists(t: Trace, runs: seq<Request>, depth: int) {
    runs == []
    || var n := |runs| - 1;
       NoneLists(t, runs[..n], depth) && !ListsPulls(TracedAll(t, runs[..n], depth).cursors, runs[n])
  }

  /** When the last of these that was skipped started, `cursor` if none was. */
  function LastSkip(t: Trace, runs: seq<Request>, depth: int, cursor: int): int {
    if runs == [] then cursor
    else
      var n := |runs| - 1;
      if IsSkipped(TracedAll(t, runs[..n], depth).cursors, runs[n]) then runs[n].startedAt
      else LastSkip(t, runs[..n], depth, cursor)
  }

  lemma {:induction false} SkipsMoveTheCursor(t: Trace, runs: seq<Request>, depth: int, cursor: int)
    requires StateOf(t.cursors, Pulls).cursor == Some(cursor) && NoneLists(t, runs, depth)
    ensures StateOf(TracedAll(t, runs, depth).cursors, Pulls).cursor == Some(LastSkip(t, runs, depth, cursor))
    ensures TracedAll(t, runs, depth).listed == t.listed
  {
    if runs != [] {
      var n := |runs| - 1;
      SkipsMoveTheCursor(t, runs[..n], depth, cursor);
      PullsCursorAfter(TracedAll(t, runs[..n], depth).cursors, runs[n]);
    }
  }

  /**
   * When a hole outlives the next delta. However many runs are skipped in a row,
   * with failed listings among them, the next delta that is answered covers the
   * window again if and only if the last skip began no more than the overlap past
   * the first instant not asked yet, or past the window's own start.
   */
  lemma SkipsAreCoveredIff(t: Trace, quiet: seq<Request>, q: Request, depth: int, before: int, cursor: int)
    requires StateOf(t.cursors, Pulls).cursor == Some(cursor)
    requires AskedUpTo(t.listed, cursor, before, depth) && ReachNoFurther(t.listed, cursor) && cursor <= before
    requires InTurn(before, quiet + [q]) && NoneLists(t, quiet, depth)
    requires var held := TracedAll(t, quiet, depth); ListsPulls(held.cursors, q) && !IsFull(held.cursors, q)
    ensures Covered(TracedAll(t, quiet + [q], depth), q.startedAt, depth)
       <==> LastSkip(t, quiet, depth, cursor) - DELTA_OVERLAP_MS <= Max(cursor + 1, q.startedAt - depth * DAY_MS)
  {
    var held := TracedAll(t, quiet, depth);
    assert (quiet + [q])[..|quiet|] == quiet;
    SkipsMoveTheCursor(t, quiet, depth, cursor);
    ListingsReachNoFurther(t, quiet, depth, before, cursor);
    LastStartNotBefore(before, quiet);
    RunJoinsIff(held, q, depth, cursor, before);
    PullsCursorAfter(held.cursors, q);
  }

  lemma {:induction false} LastStartNotBefore(at: int, runs: seq<Request>)
    requires InTurn(at, runs)
    ensures at <= LastStart(at, runs)
  {
    if runs != [] {
      LastStartNotBefore(at, runs[..|runs| - 1]);
    }
  }

  /**
   * Such a hole does come up. From a source never run: a full run, an hour later
   * one skipped for an event, and a delta once the events are quiet. Nobody asks
   * for most of the hour before the skip.
   */
  lemma SkipLeavesHole(w: Answers, depth: nat)
    requires AllAnswer(w) && depth > 0
    ensures var (full, skip) := (Request(0, false, None, w), Request(3_600_000, false, Some(3_600_000), w));
      var delta := Request(4_800_000, false, Some(3_600_000), w);
      var (once, twice) := (Traced(Trace(map[], []), full, depth),
                            Traced(Traced(Trace(map[], []), full, depth), skip, depth));
      && IsFull(map[], full) && IsSkipped(once.cursors, skip)
      && ListsPulls(twice.cursors, delta) && !IsFull(twice.cursors, delta)
      && !Asked(Traced(twice, delta, depth).listed, 1_800_000)
  {
    var (full, skip) := (Request(0, false, None, w), Request(3_600_000, false, Some(3_600_000), w));
    var delta := Request(4_800_000, false, Some(3_600_000), w);
    var once := Traced(Trace(map[], []), full, depth);
    var twice := Traced(once, skip, depth);
    FullRunReconciles(map[], full);
    DueIffIntervalElapsed(once.cursors, 0, 3_600_000);
    assert once.listed == [Listed(0 - depth * DAY_MS, 0)];
    QuietRunKeepsClock(once.cursors, skip, 0);
    DueIffIntervalElapsed(twice.cursors, 0, 4_800_000);
    PullsCursorAfter(once.cursors, skip);
    assert Traced(twice, delta, depth).listed == [Listed(0 - depth * DAY_MS, 0), Listed(3_000_000, 4_800_000)];
  }
}
