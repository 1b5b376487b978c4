/** The arithmetic of back/src/api-quota/quota-pressure.ts, and the readings it is done on, as values. */
module QuotaPressure {
  import opened Lists
  import opened Options

  datatype SubjectKind = Source | Tracker | Other

  datatype Subject = Subject(kind: SubjectKind, id: string)

  /** `resetAt` in milliseconds. */
  datatype Sample = Sample(bucket: string, limit: real, used: real, resetAt: int, windowSec: Option<int>)

  datatype Budget = Budget(bucket: string, limit: int, windowSec: int)

  datatype Origin = Observed | Declared

  datatype Reading = Reading(sample: Sample, origin: Origin)

  function CountCall(held: Option<Sample>, budget: Budget, now: int): Sample {
    var live := held.Some? && held.value.resetAt > now;
    Sample(budget.bucket, budget.limit as real,
           if live then held.value.used + 1.0 else 1.0,
           if live then held.value.resetAt else now + budget.windowSec * 1000,
           Some(budget.windowSec))
  }

  /** A bucket with a ceiling, whose window is still running. */
  predicate Metering(s: Sample, now: int) { s.limit > 0.0 && s.resetAt > now }

  function ShareOf(s: Sample): real
    requires s.limit > 0.0
  {
    (if s.used < s.limit then s.limit - s.used else 0.0) / s.limit
  }

  /** A share is what is left over what there was, nothing once it is overdrawn. */
  lemma ShareIsLeft(s: Sample)
    requires s.limit > 0.0
    ensures ShareOf(s) * s.limit == if s.used < s.limit then s.limit - s.used else 0.0
  {
  }

  /** More is left than the reserve, in hundredths of the ceiling. */
  predicate LeavesMore(s: Sample, reservePct: real) {
    s.used < s.limit && (s.limit - s.used) * 100.0 > reservePct * s.limit
  }

  lemma LeavesMoreIff(s: Sample, reservePct: real)
    requires s.limit > 0.0 && reservePct > 0.0
    ensures ShareOf(s) > reservePct / 100.0 <==> LeavesMore(s, reservePct)
  {
    if s.used < s.limit {
      Compared(s.limit - s.used, s.limit, reservePct);
    }
  }

  lemma Compared(left: real, limit: real, pct: real)
    requires limit > 0.0
    ensures left / limit > pct / 100.0 <==> left * 100.0 > pct * limit
  {
    var share := left / limit;
    assert share * limit == left;
    if share > pct / 100.0 {
      assert (share - pct / 100.0) * limit > 0.0;
    } else {
      assert (pct / 100.0 - share) * limit >= 0.0;
    }
  }

  /** The share of the scarcest bucket still metering, or nothing where none is. */
  ghost predicate IsScarcest(share: Option<real>, readings: seq<Reading>, now: int) {
    match share
    case None => forall r :: r in readings ==> !Metering(r.sample, now)
    case Some(worst) =>
      && (exists r :: r in readings && Metering(r.sample, now) && ShareOf(r.sample) == worst)
      && (forall r :: r in readings && Metering(r.sample, now) ==> worst <= ShareOf(r.sample))
  }

  method RemainingShare(readings: seq<Reading>, now: int) returns (worst: Option<real>)
    ensures IsScarcest(worst, readings, now)
  {
    worst := None;
    for i := 0 to |readings|
      invariant IsScarcest(worst, readings[..i], now)
    {
      assert readings[..i + 1] == readings[..i] + [readings[i]];
      var sample := readings[i].sample;
      if sample.limit > 0.0 && sample.resetAt > now {
        var share := ShareOf(sample);
        if worst.None? || share < worst.value {
          worst := Some(share);
        }
      }
    }
    assert readings[..|readings|] == readings;
  }

  predicate AllowsOptionalWork(share: Option<real>, reservePct: real) {
    share.None? || reservePct <= 0.0 || share.value > reservePct / 100.0
  }

  // ─── The readings held, as values ───

  type Key = (Subject, string)

  datatype Meters = Meters(
    current: map<Key, Reading>,
    dirty: set<Key>,
    metered: set<Subject>,
    budgets: map<Subject, Budget>
  )

  function Held(m: Meters, key: Key, reading: Reading): Meters {
    m.(current := m.current[key := reading], dirty := m.dirty + {key})
  }

  /** An observed count of a window already passed, or a lower one of the same. */
  predicate Stale(m: Meters, key: Key, sample: Sample) {
    && key in m.current && m.current[key].origin.Observed?
    && sample.resetAt <= m.current[key].sample.resetAt
    && sample.used < m.current[key].sample.used
  }

  function AfterCall(m: Meters, subject: Subject, now: int): Meters {
    if subject in m.metered || subject !in m.budgets then m
    else
      var budget := m.budgets[subject];
      var key := (subject, budget.bucket);
      var counted := if key in m.current && m.current[key].origin.Declared? then Some(m.current[key].sample) else None;
      Held(m, key, Reading(CountCall(counted, budget, now), Declared))
  }

  function AfterRecord(m: Meters, subject: Subject, sample: Option<Sample>, now: int): Meters {
    if sample.None? then AfterCall(m, subject, now)
    else
      var noted := m.(metered := m.metered + {subject});
      var key := (subject, sample.value.bucket);
      if Stale(noted, key, sample.value) then noted
      else Held(noted, key, Reading(sample.value, Observed))
  }

  function AfterForget(m: Meters, subject: Subject): Meters {
    Meters((map key | key in m.current && key.0 != subject :: m.current[key]),
           (set key | key in m.dirty && (key !in m.current || key.0 != subject)),
           m.metered - {subject},
           m.budgets - {subject})
  }

  datatype Event = Recorded(subject: Subject, sample: Option<Sample>, now: int) | Forgotten(subject: Subject)

  function Apply(m: Meters, e: Event): Meters {
    match e
    case Recorded(subject, sample, now) => AfterRecord(m, subject, sample, now)
    case Forgotten(subject) => AfterForget(m, subject)
  }

  function Replay(m: Meters, events: seq<Event>): Meters {
    if events == [] then m else Apply(Replay(m, events[..|events| - 1]), events[|events| - 1])
  }

  predicate Observes(e: Event, key: Key) {
    e.Recorded? && e.subject == key.0 && e.sample.Some? && e.sample.value.bucket == key.1
  }

  predicate Forgets(e: Event, subject: Subject) { e.Forgotten? && e.subject == subject }

  // ─── Observed counts ───

  /** The highest count these events report of one bucket, which is a count one of them reports. */
  ghost predicate IsHighest(used: real, events: seq<Event>, key: Key) {
    && (exists e :: e in events && Observes(e, key) && e.sample.value.used == used)
    && (forall e :: e in events && Observes(e, key) ==> e.sample.value.used <= used)
  }

  /** The whole reading is one of the answers. */
  ghost predicate WasAnswered(sample: Sample, events: seq<Event>, key: Key) {
    exists e :: e in events && Observes(e, key) && e.sample.value == sample
  }

  /** The reading these events leave: the highest observed count, and a subject known to be metered. */
  ghost predicate HoldsHighest(m: Meters, events: seq<Event>, key: Key, resetAt: int) {
    if exists e :: e in events && Observes(e, key) then
      && key in m.current && m.current[key].origin.Observed? && m.current[key].sample.resetAt == resetAt
      && IsHighest(m.current[key].sample.used, events, key)
      && WasAnswered(m.current[key].sample, events, key)
      && key.0 in m.metered
    else key in m.current ==> m.current[key].origin.Declared?
  }

  /**
   * Counters come back in any order. Of one window, and mixed with calls that
   * report nothing, with other buckets and other subjects, they leave the highest
   * count: order has no part in the statement.
   */
  lemma {:induction false} ReadingIsHighest(m: Meters, events: seq<Event>, key: Key, resetAt: int)
    requires key in m.current ==> m.current[key].origin.Declared?
    requires forall e :: e in events ==> !Forgets(e, key.0)
    requires forall e :: e in events && Observes(e, key) ==> e.sample.value.resetAt == resetAt
    ensures HoldsHighest(Replay(m, events), events, key, resetAt)
  {
    if events != [] {
      var n := |events| - 1;
      assert events == events[..n] + [events[n]];
      ReadingIsHighest(m, events[..n], key, resetAt);
      ReadingAfterOne(Replay(m, events[..n]), events[..n], events[n], key, resetAt);
    }
  }

  lemma ReadingAfterOne(m: Meters, before: seq<Event>, e: Event, key: Key, resetAt: int)
    requires HoldsHighest(m, before, key, resetAt) && !Forgets(e, key.0)
    requires Observes(e, key) ==> e.sample.value.resetAt == resetAt
    ensures HoldsHighest(Apply(m, e), before + [e], key, resetAt)
  {
    var after, events := Apply(m, e), before + [e];
    assert e in events && forall d :: d in events <==> d in before || d == e;
    if Observes(e, key) {
      if exists d :: d in before && Observes(d, key) {
        assert IsHighest(m.current[key].sample.used, before, key) && WasAnswered(m.current[key].sample, before, key);
      }
      assert WasAnswered(after.current[key].sample, events, key);
      assert IsHighest(after.current[key].sample.used, events, key);
    } else if exists d :: d in before && Observes(d, key) {
      assert IsHighest(after.current[key].sample.used, events, key);
      assert WasAnswered(after.current[key].sample, events, key);
    }
  }

  // ─── Answers of several windows ───

  lemma {:induction false} ReplayAppend(m: Meters, a: seq<Event>, b: seq<Event>)
    ensures Replay(m, a + b) == Replay(Replay(m, a), b)
  {
    if b == [] {
      assert a + b == a;
    } else {
      assert (a + b)[..|a| + |b| - 1] == a + b[..|b| - 1];
      ReplayAppend(m, a, b[..|b| - 1]);
    }
  }

  /** No reading observed of the bucket is of a window past this date. */
  predicate HeldNoLater(m: Meters, key: Key, resetAt: int) {
    key in m.current && m.current[key].origin.Observed? ==> m.current[key].sample.resetAt <= resetAt
  }

  lemma {:induction false} AnswersHoldNoLater(m: Meters, events: seq<Event>, key: Key, resetAt: int)
    requires HeldNoLater(m, key, resetAt)
    requires forall e :: e in events && Observes(e, key) ==> e.sample.value.resetAt <= resetAt
    ensures HeldNoLater(Replay(m, events), key, resetAt)
  {
    if events != [] {
      AnswersHoldNoLater(m, events[..|events| - 1], key, resetAt);
    }
  }

  /** A reading of a measured subject, of this window. */
  predicate HoldsWindow(m: Meters, key: Key, resetAt: int) {
    key in m.current && m.current[key].origin.Observed? && m.current[key].sample.resetAt == resetAt
    && key.0 in m.metered
  }

  lemma EarlierAnswer(m: Meters, e: Event, key: Key, resetAt: int)
    requires key in m.current && m.current[key].origin.Observed? && key.0 in m.metered
             && m.current[key].sample.resetAt <= resetAt
    requires !Forgets(e, key.0) && (Observes(e, key) ==> e.sample.value.resetAt < resetAt)
    ensures var after := Apply(m, e);
      && key in after.current && after.current[key].origin.Observed? && key.0 in after.metered
      && (!Observes(e, key) || (m.current[key].sample.resetAt == resetAt
                                && e.sample.value.used < m.current[key].sample.used) ==>
            after.current[key] == m.current[key])
      && (m.current[key].sample.resetAt < resetAt ==> after.current[key].sample.resetAt < resetAt)
      && (Observes(e, key) && e.sample.value.used >= m.current[key].sample.used ==>
          after.current[key].sample.resetAt < resetAt)
  {
  }

  /**
   * Answers of earlier windows leave a reading alone as long as none reaches its count;
   * from the first that does, it is gone for good.
   */
  lemma {:induction false} EarlierAnswers(m: Meters, events: seq<Event>, key: Key, resetAt: int)
    requires HoldsWindow(m, key, resetAt)
    requires forall e :: e in events ==> !Forgets(e, key.0)
    requires forall e :: e in events && Observes(e, key) ==> e.sample.value.resetAt < resetAt
    ensures var after := Replay(m, events);
      && key in after.current && after.current[key].origin.Observed? && key.0 in after.metered
      && if forall e :: e in events && Observes(e, key) ==> e.sample.value.used < m.current[key].sample.used
         then after.current[key] == m.current[key]
         else after.current[key].sample.resetAt < resetAt
  {
    if events != [] {
      var n := |events| - 1;
      EarlierAnswers(m, events[..n], key, resetAt);
      assert events == events[..n] + [events[n]];
      assert forall e :: e in events <==> e in events[..n] || e == events[n];
      EarlierAnswer(Replay(m, events[..n]), events[n], key, resetAt);
    }
  }

  /**
   * Over answers of several windows in any order of arrival: what is held in the
   * end is of the latest window exactly where no answer of an earlier one, coming
   * after the last of the latest, reaches the count held by then.
   */
  lemma LatestWindowIsHeldIff(m: Meters, before: seq<Event>, last: Event, later: seq<Event>, key: Key)
    requires Observes(last, key) && HeldNoLater(m, key, last.sample.value.resetAt)
    requires forall e :: e in before && Observes(e, key) ==> e.sample.value.resetAt <= last.sample.value.resetAt
    requires forall e :: e in later ==> !Forgets(e, key.0)
                                        && (Observes(e, key) ==> e.sample.value.resetAt < last.sample.value.resetAt)
    ensures var held, after := Replay(m, before + [last]), Replay(m, before + [last] + later);
      && key in held.current && key in after.current && last.sample.value.used <= held.current[key].sample.used
      && (after.current[key].sample.resetAt == last.sample.value.resetAt
          <==> forall e :: e in later && Observes(e, key) ==> e.sample.value.used < held.current[key].sample.used)
  {
    var resetAt := last.sample.value.resetAt;
    AnswersHoldNoLater(m, before, key, resetAt);
    assert (before + [last])[..|before|] == before;
    var held := Replay(m, before + [last]);
    assert held == Apply(Replay(m, before), last);
    assert HoldsWindow(held, key, resetAt);
    ReplayAppend(m, before + [last], later);
    EarlierAnswers(held, later, key, resetAt);
  }

  /** The condition bites: one late answer of a busier window before, and the running window's reading is gone. */
  lemma LateAnswerDisplaces(m: Meters, subject: Subject, running: Sample, late: Sample, now: int)
    requires m.current == map[] && running.bucket == late.bucket
    requires late.resetAt < running.resetAt && running.used <= late.used
    ensures var key := (subject, late.bucket);
      var after := Replay(m, [Recorded(subject, Some(running), now), Recorded(subject, Some(late), now)]);
      key in after.current && after.current[key].sample == late
  {
    var first, second := Recorded(subject, Some(running), now), Recorded(subject, Some(late), now);
    assert [first, second][..1] == [first] && [first][..0] == [];
    assert Replay(m, []) == m && Replay(m, [first]) == Apply(m, first);
  }

  // ─── Declared budgets ───

  /** Once measured, a subject's declared counts stand still until it is forgotten. */
  lemma {:induction false} MeasuredSettles(m: Meters, events: seq<Event>, subject: Subject, bucket: string)
    requires subject in m.metered && forall e :: e in events ==> !Forgets(e, subject)
    ensures var after, key := Replay(m, events), (subject, bucket);
      && subject in after.metered
      && (key in after.current && after.current[key].origin.Declared? ==>
            key in m.current && after.current[key] == m.current[key])
  {
    if events != [] {
      MeasuredSettles(m, events[..|events| - 1], subject, bucket);
      assert events[|events| - 1] in events;
      assert forall e :: e in events[..|events| - 1] ==> e in events;
    }
  }

  function CallsSince(subject: Subject, from: int): Event -> bool {
    (e: Event) => e.Recorded? && e.subject == subject && e.sample.None? && e.now >= from
  }

  predicate Calls(e: Event, subject: Subject) { e.Recorded? && e.subject == subject && e.sample.None? }

  /** Unmetered calls of one subject on a clock that never goes back, among anything else. */
  predicate UnmeteredCalls(events: seq<Event>, subject: Subject) {
    && (forall e :: e in events ==> !Forgets(e, subject) && (e.Recorded? && e.subject == subject ==> e.sample.None?))
    && (forall i, j :: 0 <= i < j < |events| && Calls(events[i], subject) && Calls(events[j], subject) ==>
        events[i].now <= events[j].now)
  }

  ghost predicate Called(events: seq<Event>, subject: Subject) {
    exists e :: e in events && Calls(e, subject)
  }

  /** A window opened by a call, that no call outran, counting the calls made since it opened. */
  ghost predicate CountsItsWindow(sample: Sample, events: seq<Event>, subject: Subject, start: int) {
    && (exists e :: e in events && Calls(e, subject) && e.now == start)
    && (forall e :: e in events && Calls(e, subject) ==> e.now < sample.resetAt)
    && sample.used == |Filter(events, CallsSince(subject, start))| as real
  }

  function Opening(sample: Sample, budget: Budget): int { sample.resetAt - budget.windowSec * 1000 }

  /** The ceiling and the window are the declared ones. */
  predicate IsOfBudget(sample: Sample, budget: Budget) {
    sample.bucket == budget.bucket && sample.limit == budget.limit as real && sample.windowSec == Some(budget.windowSec)
  }

  ghost predicate CountsSinceOpening(m: Meters, events: seq<Event>, subject: Subject, budget: Budget) {
    var key := (subject, budget.bucket);
    if Called(events, subject) then
      && key in m.current && m.current[key].origin.Declared? && IsOfBudget(m.current[key].sample, budget)
      && CountsItsWindow(m.current[key].sample, events, subject, Opening(m.current[key].sample, budget))
    else key !in m.current || m.current[key].origin.Observed?
  }

  /** Before any measure, the declared count is the calls made since its window opened, on a call. */
  lemma {:induction false} DeclaredCountsItsWindow(m: Meters, events: seq<Event>, subject: Subject, budget: Budget)
    requires budget.windowSec > 0 && subject !in m.metered && subject in m.budgets && m.budgets[subject] == budget
    requires (subject, budget.bucket) in m.current ==> m.current[(subject, budget.bucket)].origin.Observed?
    requires UnmeteredCalls(events, subject)
    ensures var after := Replay(m, events);
      && subject !in after.metered && subject in after.budgets && after.budgets[subject] == budget
      && CountsSinceOpening(after, events, subject, budget)
  {
    if events != [] {
      var n := |events| - 1;
      assert events == events[..n] + [events[n]];
      DeclaredCountsItsWindow(m, events[..n], subject, budget);
      CountAfterOne(Replay(m, events[..n]), events[..n], events[n], subject, budget);
    }
  }

  lemma CountAfterOne(m: Meters, before: seq<Event>, e: Event, subject: Subject, budget: Budget)
    requires budget.windowSec > 0 && subject !in m.metered && subject in m.budgets && m.budgets[subject] == budget
    requires CountsSinceOpening(m, before, subject, budget) && UnmeteredCalls(before + [e], subject)
    ensures var after := Apply(m, e);
      && subject !in after.metered && subject in after.budgets && after.budgets[subject] == budget
      && CountsSinceOpening(after, before + [e], subject, budget)
  {
    var events := before + [e];
    assert events[|before|] == e && e in events && forall d :: d in events <==> d in before || d == e;
    if Calls(e, subject) {
      forall d | d in before && Calls(d, subject) ensures d.now <= e.now {
        var i :| 0 <= i < |before| && before[i] == d;
        assert events[i] == d;
      }
      CountAfterCall(m, before, e, subject, budget);
    } else {
      CountUnchanged(m, before, e, subject, budget);
    }
  }

  lemma CountUnchanged(m: Meters, before: seq<Event>, e: Event, subject: Subject, budget: Budget)
    requires subject !in m.metered && CountsSinceOpening(m, before, subject, budget)
    requires !Calls(e, subject) && !Forgets(e, subject) && (e.Recorded? ==> e.subject != subject)
    ensures CountsSinceOpening(Apply(m, e), before + [e], subject, budget)
  {
    var key, events := (subject, budget.bucket), before + [e];
    assert e in events && forall d :: d in events <==> d in before || d == e;
    assert key in m.current <==> key in Apply(m, e).current;
    assert key in m.current ==> Apply(m, e).current[key] == m.current[key];
    assert Called(events, subject) <==> Called(before, subject);
    if Called(before, subject) {
      var sample := m.current[key].sample;
      FilterSnoc(before, e, CallsSince(subject, Opening(sample, budget)));
      assert CountsItsWindow(sample, events, subject, Opening(sample, budget));
    }
  }

  lemma CountAfterCall(m: Meters, before: seq<Event>, e: Event, subject: Subject, budget: Budget)
    requires budget.windowSec > 0 && subject !in m.metered && subject in m.budgets && m.budgets[subject] == budget
    requires CountsSinceOpening(m, before, subject, budget) && Calls(e, subject)
    requires forall d :: d in before && Calls(d, subject) ==> d.now <= e.now
    ensures CountsSinceOpening(Apply(m, e), before + [e], subject, budget)
  {
    var key, events := (subject, budget.bucket), before + [e];
    var sample := Apply(m, e).current[key].sample;
    assert e in events && Called(events, subject);
    if Called(before, subject) && m.current[key].sample.resetAt > e.now {
      LiveCall(m.current[key].sample, before, e, subject, budget);
      assert sample.used == m.current[key].sample.used + 1.0 && sample.resetAt == m.current[key].sample.resetAt;
      assert CountsItsWindow(sample, events, subject, Opening(sample, budget));
    } else {
      assert Called(before, subject) ==> forall d :: d in before && Calls(d, subject) ==> d.now < e.now;
      OpeningCall(before, e, subject);
      assert sample.used == 1.0 && sample.resetAt == e.now + budget.windowSec * 1000;
      assert CountsItsWindow(sample, events, subject, Opening(sample, budget));
    }
  }

  lemma LiveCall(sample: Sample, before: seq<Event>, e: Event, subject: Subject, budget: Budget)
    requires Calls(e, subject) && e.now < sample.resetAt
    requires forall d :: d in before && Calls(d, subject) ==> d.now <= e.now
    requires CountsItsWindow(sample, before, subject, Opening(sample, budget))
    ensures CountsItsWindow(sample.(used := sample.used + 1.0), before + [e], subject, Opening(sample, budget))
  {
    var start := Opening(sample, budget);
    var first :| first in before && Calls(first, subject) && first.now == start;
    assert first in before + [e] && forall d :: d in before + [e] <==> d in before || d == e;
    FilterSnoc(before, e, CallsSince(subject, start));
  }

  lemma OpeningCall(before: seq<Event>, e: Event, subject: Subject)
    requires Calls(e, subject)
    requires forall d :: d in before && Calls(d, subject) ==> d.now < e.now
    ensures |Filter(before + [e], CallsSince(subject, e.now))| == 1
    ensures forall d :: d in before + [e] && Calls(d, subject) ==> d.now <= e.now
  {
    NothingKept(before, CallsSince(subject, e.now));
    FilterSnoc(before, e, CallsSince(subject, e.now));
  }

  lemma NothingKept(s: seq<Event>, p: Event -> bool)
    requires forall x :: x in s ==> !p(x)
    ensures Filter(s, p) == []
  {
    forall i | 0 <= i < |s| ensures !p(s[i]) {
      assert s[i] in s;
    }
    NoneKept(s, p);
  }
}

/** The in-memory half of back/src/api-quota/api-quota.service.ts. */
module ApiQuota {
  import opened Options
  import opened QuotaPressure

  /** The readings of one subject. */
  function Readings(current: map<Key, Reading>, subject: Subject): set<Reading> {
    set key | key in current && key.0 == subject :: current[key]
  }

  /** One call more on a declared window that still runs, else the first of a new one; nothing else moves. */
  ghost predicate IsCharged(subject: Subject, budget: Budget, now: int, before: map<Key, Reading>,
                            after: map<Key, Reading>) {
    var key := (subject, budget.bucket);
    var runs := key in before && before[key].origin.Declared? && now < before[key].sample.resetAt;
    && after.Keys == before.Keys + {key}
    && (forall k :: k in before && k != key ==> after[k] == before[k])
    && after[key] == Reading(
         Sample(budget.bucket, budget.limit as real, if runs then before[key].sample.used + 1.0 else 1.0,
                if runs then before[key].sample.resetAt else now + budget.windowSec * 1000, Some(budget.windowSec)),
         Declared)
  }

  /** A bucket without a ceiling, or whose window is over, holds nothing back. */
  predicate LeavesReserve(s: Sample, reservePct: real, now: int) {
    s.limit > 0.0 && now < s.resetAt ==> LeavesMore(s, reservePct)
  }

  /** An observed reading of a window no earlier already counts more. */
  predicate IsOutdone(sample: Sample, held: Option<Reading>) {
    && held.Some? && held.value.origin.Observed?
    && sample.resetAt <= held.value.sample.resetAt && sample.used < held.value.sample.used
  }

  class ApiQuotaService {
    var current: map<Key, Reading>
    var dirty: set<Key>
    var metered: set<Subject>
    /** The ceilings declared by hand, which another service caches. */
    var budgets: map<Subject, Budget>

    constructor (budgets: map<Subject, Budget>)
      ensures State() == Meters(map[], {}, {}, budgets)
    {
      current, dirty, metered := map[], {}, {};
      this.budgets := budgets;
    }

    function State(): Meters
      reads this
    {
      Meters(current, dirty, metered, budgets)
    }

    method Hold(key: Key, reading: Reading)
      modifies this`current, this`dirty
      ensures State() == Held(old(State()), key, reading)
    {
      current := current[key := reading];
      dirty := dirty + {key};
    }

    method CountAgainstBudget(subject: Subject, now: int)
      modifies this`current, this`dirty
      ensures metered == old(metered) && budgets == old(budgets)
      ensures subject in metered || subject !in budgets ==> current == old(current) && dirty == old(dirty)
      ensures subject !in metered && subject in budgets ==>
                IsCharged(subject, budgets[subject], now, old(current), current)
                && dirty == old(dirty) + {(subject, budgets[subject].bucket)}
      ensures State() == AfterCall(old(State()), subject, now)
    {
      if subject in metered {
        return;
      }
      if subject !in budgets {
        return;
      }
      var budget := budgets[subject];
      var key := (subject, budget.bucket);
      var held := Get(current, key);
      var counted := if held.Some? && held.value.origin.Declared? then Some(held.value.sample) else None;
      Hold(key, Reading(CountCall(counted, budget, now), Declared));
    }

    method Record(subject: Subject, sample: Option<Sample>, now: int)
      modifies this
      ensures budgets == old(budgets)
      ensures sample.Some? ==> metered == old(metered) + {subject}
      ensures sample.Some? ==>
                var key := (subject, sample.value.bucket);
                if IsOutdone(sample.value, Get(old(current), key)) then current == old(current) && dirty == old(dirty)
                else current == old(current)[key := Reading(sample.value, Observed)] && dirty == old(dirty) + {key}
      ensures State() == AfterRecord(old(State()), subject, sample, now)
    {
      if sample.None? {
        CountAgainstBudget(subject, now);
        return;
      }
      metered := metered + {subject};
      var key := (subject, sample.value.bucket);
      var held := Get(current, key);
      if held.Some? && held.value.origin.Observed? && sample.value.resetAt <= held.value.sample.resetAt
         && sample.value.used < held.value.sample.used {
        return;
      }
      Hold(key, Reading(sample.value, Observed));
    }

    method Forget(subject: Subject)
      modifies this
      ensures forall key :: Get(current, key) == if key.0 == subject then None else Get(old(current), key)
      ensures forall key :: key in dirty <==> key in old(dirty) && (key.0 != subject || key !in old(current))
      ensures metered == old(metered) - {subject} && budgets == old(budgets) - {subject}
      ensures State() == AfterForget(old(State()), subject)
    {
      var left := current.Keys;
      while left != {}
        invariant left <= old(current).Keys
        invariant metered == old(metered) && budgets == old(budgets)
        invariant current == map key | key in old(current) && (key in left || key.0 != subject) :: old(current)[key]
        invariant dirty == set key | key in old(dirty) && (key !in old(current) || key in left || key.0 != subject)
        decreases |left|
      {
        var key :| key in left;
        left := left - {key};
        if key.0 == subject {
          current := current - {key};
          dirty := dirty - {key};
        }
      }
      metered := metered - {subject};
      budgets := budgets - {subject};
    }

    method Share(subject: Subject, now: int) returns (share: Option<real>)
      ensures match share
              case None => forall r :: r in Readings(current, subject) ==> !Metering(r.sample, now)
              case Some(worst) =>
                && (exists r :: r in Readings(current, subject) && Metering(r.sample, now)
                                && ShareOf(r.sample) == worst)
                && (forall r :: r in Readings(current, subject) && Metering(r.sample, now) ==>
                    worst <= ShareOf(r.sample))
    {
      var readings: seq<Reading> := [];
      var left := current.Keys;
      while left != {}
        invariant left <= current.Keys
        invariant forall r :: r in readings <==> exists key :: key in current && key !in left && key.0 == subject
                                                               && current[key] == r
        decreases |left|
      {
        var key :| key in left;
        ghost var before := left;
        left := left - {key};
        if key.0 == subject {
          readings := readings + [current[key]];
        }
        assert forall k :: k in current ==> (k !in left <==> k !in before || k == key);
      }
      assert forall r :: r in readings <==> r in Readings(current, subject);
      share := RemainingShare(readings, now);
    }

    /** Optional work stops where some running bucket has no more than the reserve left. */
    method AllowsOptional(subject: Subject, reservePct: real, now: int) returns (allowed: bool)
      ensures allowed <==> reservePct <= 0.0 || forall key :: key in current && key.0 == subject ==>
        LeavesReserve(current[key].sample, reservePct, now)
    {
      var share := Share(subject, now);
      assert forall key :: key in current && key.0 == subject ==> current[key] in Readings(current, subject);
      if reservePct > 0.0 {
        forall r | r in Readings(current, subject)
          ensures LeavesReserve(r.sample, reservePct, now) <==>
              (Metering(r.sample, now) ==> ShareOf(r.sample) > reservePct / 100.0)
        {
          if Metering(r.sample, now) {
            LeavesMoreIff(r.sample, reservePct);
          }
        }
      }
      allowed := AllowsOptionalWork(share, reservePct);
    }
  }
}
