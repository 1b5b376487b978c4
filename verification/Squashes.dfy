/** `expandSquashes` of back/src/release-notes/release-notes.service.ts. */
module Squashes {
  import opened Lists
  import opened Options

  /** `namesRequest`: whether the commit's own message names a request, as a squash's does. */
  datatype Commit = Commit(sha: string, parents: nat, namesRequest: bool)

  /** A commit of the range, and what it came in on. */
  datatype Landed = Landed(commit: Commit, request: Option<int>, branch: Option<string>, title: Option<string>,
                           body: Option<string>)

  /** The commits each request was made of, by request number. */
  type ByRequest = map<int, seq<Commit>>

  function CommitSha(c: Commit): string { c.sha }

  function LandedSha(l: Landed): string { l.commit.sha }

  predicate IsSquash(l: Landed) { l.commit.parents == 1 && l.commit.namesRequest }

  function Shas(landed: seq<Landed>): set<string> { set l | l in landed :: l.commit.sha }

  function SquashShas(landed: seq<Landed>): set<string> { set l | l in landed && IsSquash(l) :: l.commit.sha }

  /** What was fetched for an entry: nothing for what is no squash. */
  function Children(entry: Landed, squashes: set<string>, byRequest: ByRequest): seq<Commit> {
    var number := if entry.request.Some? then entry.request.value else -1;
    if entry.commit.sha in squashes && number in byRequest then byRequest[number] else []
  }

  function Unseen(seen: set<string>): Commit -> bool { (c: Commit) => c.sha !in seen }

  /** A child inherits the request its squash named. */
  function InPlaceOf(entry: Landed): Commit -> Landed { (c: Commit) => entry.(commit := c) }

  function Fresh(entry: Landed, squashes: set<string>, byRequest: ByRequest, seen: set<string>): seq<Commit> {
    Filter(Children(entry, squashes, byRequest), Unseen(seen))
  }

  function CommitShas(commits: seq<Commit>): set<string> { set c | c in commits :: c.sha }

  /** The shas known once the first `n` entries are expanded. */
  function Seen(landed: seq<Landed>, byRequest: ByRequest, n: nat): set<string>
    requires n <= |landed|
    decreases n, 0
  {
    if n == 0 then Shas(landed) else Seen(landed, byRequest, n - 1) + CommitShas(FreshAt(landed, byRequest, n - 1))
  }

  /** What an entry brings that nothing before it did. */
  function FreshAt(landed: seq<Landed>, byRequest: ByRequest, i: nat): seq<Commit>
    requires i < |landed|
    decreases i, 1
  {
    Fresh(landed[i], SquashShas(landed), byRequest, Seen(landed, byRequest, i))
  }

  function Standing(entry: Landed, added: seq<Commit>): seq<Landed> {
    if added == [] then [entry] else Map(added, InPlaceOf(entry))
  }

  /** What stands for one entry in the output. */
  function Run(landed: seq<Landed>, byRequest: ByRequest, i: nat): seq<Landed>
    requires i < |landed|
  {
    Standing(landed[i], FreshAt(landed, byRequest, i))
  }

  function Expanded(landed: seq<Landed>, byRequest: ByRequest, n: nat): seq<Landed>
    requires n <= |landed|
  {
    if n == 0 then [] else Expanded(landed, byRequest, n - 1) + Run(landed, byRequest, n - 1)
  }

  method ExpandSquashes(landed: seq<Landed>, byRequest: ByRequest) returns (out: seq<Landed>)
    ensures out == Expanded(landed, byRequest, |landed|)
  {
    if SquashShas(landed) == {} || byRequest == map[] {
      NothingToExpand(landed, byRequest, |landed|);
      assert landed[..|landed|] == landed;
      return landed;
    }
    out := ExpandAll(landed, byRequest);
  }

  method ExpandAll(landed: seq<Landed>, byRequest: ByRequest) returns (out: seq<Landed>)
    ensures out == Expanded(landed, byRequest, |landed|)
  {
    var squashes, seen := SquashShas(landed), Shas(landed);
    out := [];
    for i := 0 to |landed|
      invariant seen == Seen(landed, byRequest, i)
      invariant out == Expanded(landed, byRequest, i)
    {
      out, seen := Place(landed[i], Fresh(landed[i], squashes, byRequest, seen), out, seen);
    }
  }

  /** An entry as it was written, or the commits it was made of, pushed one by one. */
  method Place(entry: Landed, added: seq<Commit>, before: seq<Landed>, known: set<string>)
    returns (out: seq<Landed>, seen: set<string>)
    ensures out == before + Standing(entry, added)
    ensures seen == known + CommitShas(added)
  {
    out, seen := before, known;
    if added == [] {
      out := out + [entry];
      return;
    }
    for j := 0 to |added|
      invariant seen == known + CommitShas(added[..j])
      invariant out == before + Map(added, InPlaceOf(entry))[..j]
    {
      assert added[..j + 1] == added[..j] + [added[j]];
      seen := seen + {added[j].sha};
      out := out + [entry.(commit := added[j])];
    }
    assert added[..|added|] == added;
  }

  lemma {:induction false} NothingToExpand(landed: seq<Landed>, byRequest: ByRequest, n: nat)
    requires n <= |landed| && (SquashShas(landed) == {} || byRequest == map[])
    ensures Expanded(landed, byRequest, n) == landed[..n]
  {
    if n > 0 {
      NothingToExpand(landed, byRequest, n - 1);
      assert Children(landed[n - 1], SquashShas(landed), byRequest) == [];
      assert landed[..n] == landed[..n - 1] + [landed[n - 1]];
    }
  }

  // ─── Neither duplicated nor lost ───

  predicate CommitsDistinct(commits: seq<Commit>) {
    forall i, j :: 0 <= i < j < |commits| ==> CommitSha(commits[i]) != CommitSha(commits[j])
  }

  /** Every sha once in the range, and once in what each request was made of. */
  predicate Distinct(landed: seq<Landed>, byRequest: ByRequest) {
    && (forall i, j :: 0 <= i < j < |landed| ==> LandedSha(landed[i]) != LandedSha(landed[j]))
    && (forall number :: number in byRequest ==> CommitsDistinct(byRequest[number]))
  }

  lemma {:induction false} FilterKeepsDistinct(commits: seq<Commit>, keep: Commit -> bool)
    requires CommitsDistinct(commits)
    ensures CommitsDistinct(Filter(commits, keep))
  {
    if commits != [] {
      var n := |commits| - 1;
      FilterKeepsDistinct(commits[..n], keep);
      assert commits == commits[..n] + [commits[n]];
      FilterSnoc(commits[..n], commits[n], keep);
      var r := Filter(commits[..n], keep);
      forall i | 0 <= i < |r| ensures CommitSha(r[i]) != CommitSha(commits[n]) {
        assert r[i] in r;
        var k :| 0 <= k < n && commits[k] == r[i];
      }
    }
  }

  /**
   * An entry stands as it was written, or it is a squash replaced by a run of its
   * own commits, none of them of the range: what is no squash survives, once, in
   * its place.
   */
  lemma RunIsEntryOrItsWork(landed: seq<Landed>, byRequest: ByRequest, i: nat)
    requires i < |landed| && Distinct(landed, byRequest)
    ensures var run := Run(landed, byRequest, i);
      run == [landed[i]]
      || (IsSquash(landed[i]) && run != []
          && forall l :: l in run ==> IsWorkOf(l, landed, byRequest, i))
  {
    if FreshAt(landed, byRequest, i) != [] {
      var squash :| squash in landed && IsSquash(squash) && squash.commit.sha == landed[i].commit.sha;
      var k :| 0 <= k < |landed| && landed[k] == squash;
      assert LandedSha(landed[k]) == LandedSha(landed[i]);
      ReplacedByWork(landed, byRequest, i);
    }
  }

  /** A commit of the squash's own request, new to the range, in its place. */
  ghost predicate IsWorkOf(l: Landed, landed: seq<Landed>, byRequest: ByRequest, i: nat)
    requires i < |landed|
  {
    exists c :: c in Children(landed[i], SquashShas(landed), byRequest) && c.sha !in Shas(landed)
                && l == landed[i].(commit := c)
  }

  lemma ReplacedByWork(landed: seq<Landed>, byRequest: ByRequest, i: nat)
    requires i < |landed|
    ensures forall l :: l in Map(FreshAt(landed, byRequest, i), InPlaceOf(landed[i])) ==>
        IsWorkOf(l, landed, byRequest, i)
  {
    var added := FreshAt(landed, byRequest, i);
    SeenGrows(landed, byRequest, i);
    forall l | l in Map(added, InPlaceOf(landed[i])) ensures IsWorkOf(l, landed, byRequest, i) {
      var m :| 0 <= m < |added| && l == InPlaceOf(landed[i])(added[m]);
      assert added[m] in added;
    }
  }

  lemma {:induction false} SeenGrows(landed: seq<Landed>, byRequest: ByRequest, n: nat)
    requires n <= |landed|
    ensures Shas(landed) <= Seen(landed, byRequest, n)
  {
    if n > 0 {
      SeenGrows(landed, byRequest, n - 1);
    }
  }

  predicate ShasDistinct(out: seq<Landed>) {
    forall i, j :: 0 <= i < j < |out| ==> LandedSha(out[i]) != LandedSha(out[j])
  }

  /** Output so far: each sha once, and known; those of entries not reached yet are not among them. */
  ghost predicate Sound(landed: seq<Landed>, byRequest: ByRequest, n: nat)
    requires n <= |landed|
  {
    var out := Expanded(landed, byRequest, n);
    && ShasDistinct(out)
    && (forall l :: l in out ==> LandedSha(l) in Seen(landed, byRequest, n))
    && (forall k, l :: n <= k < |landed| && l in out ==> LandedSha(l) != LandedSha(landed[k]))
  }

  lemma RunShas(landed: seq<Landed>, byRequest: ByRequest, i: nat)
    requires i < |landed| && Distinct(landed, byRequest)
    ensures var run := Run(landed, byRequest, i);
      && ShasDistinct(run)
      && forall l :: l in run ==>
           LandedSha(l) in Seen(landed, byRequest, i + 1)
           && (l == landed[i] || LandedSha(l) !in Seen(landed, byRequest, i))
  {
    var added := FreshAt(landed, byRequest, i);
    if added == [] {
      SeenGrows(landed, byRequest, i);
      assert landed[i] in landed;
    } else {
      var number := if landed[i].request.Some? then landed[i].request.value else -1;
      assert Children(landed[i], SquashShas(landed), byRequest) == byRequest[number];
      FilterKeepsDistinct(byRequest[number], Unseen(Seen(landed, byRequest, i)));
      ReplacedShas(landed[i], added, Seen(landed, byRequest, i));
    }
  }

  lemma ReplacedShas(entry: Landed, added: seq<Commit>, seen: set<string>)
    requires CommitsDistinct(added)
    requires forall c :: c in added ==> c.sha !in seen
    ensures var run := Map(added, InPlaceOf(entry));
      && ShasDistinct(run)
      && (forall l :: l in run ==> LandedSha(l) !in seen && LandedSha(l) in CommitShas(added))
  {
    var run := Map(added, InPlaceOf(entry));
    assert forall m :: 0 <= m < |run| ==> LandedSha(run[m]) == CommitSha(added[m]);
    assert forall m :: 0 <= m < |run| ==> added[m] in added;
  }

  lemma {:induction false} ExpansionIsSound(landed: seq<Landed>, byRequest: ByRequest, n: nat)
    requires n <= |landed| && Distinct(landed, byRequest)
    ensures Sound(landed, byRequest, n)
  {
    if n > 0 {
      ExpansionIsSound(landed, byRequest, n - 1);
      RunIsSound(landed, byRequest, n - 1);
    }
  }

  lemma RunIsSound(landed: seq<Landed>, byRequest: ByRequest, i: nat)
    requires i < |landed| && Distinct(landed, byRequest) && Sound(landed, byRequest, i)
    ensures Sound(landed, byRequest, i + 1)
  {
    var before, run := Expanded(landed, byRequest, i), Run(landed, byRequest, i);
    RunShas(landed, byRequest, i);
    SeenGrows(landed, byRequest, i);
    forall a, l | a in before && l in run ensures LandedSha(a) != LandedSha(l) {
    }
    assert forall m :: 0 <= m < |before| ==> before[m] in before;
    assert forall m :: 0 <= m < |run| ==> run[m] in run;
    forall k, l | i + 1 <= k < |landed| && l in run ensures LandedSha(l) != LandedSha(landed[k]) {
      assert landed[k] in landed;
    }
  }

  /** Nothing is listed twice. */
  lemma OutputIsDistinct(landed: seq<Landed>, byRequest: ByRequest)
    requires Distinct(landed, byRequest)
    ensures ShasDistinct(Expanded(landed, byRequest, |landed|))
  {
    ExpansionIsSound(landed, byRequest, |landed|);
  }

  ghost predicate IsListed(out: seq<Landed>, sha: string) {
    exists l :: l in out && LandedSha(l) == sha
  }

  lemma ListedInEither(a: seq<Landed>, b: seq<Landed>, sha: string)
    ensures IsListed(a + b, sha) <==> IsListed(a, sha) || IsListed(b, sha)
  {
    assert forall l :: l in a + b <==> l in a || l in b;
  }

  lemma {:induction false} SeenIsListed(landed: seq<Landed>, byRequest: ByRequest, n: nat, sha: string)
    requires n <= |landed| && sha in Seen(landed, byRequest, n)
    ensures sha in Shas(landed) || IsListed(Expanded(landed, byRequest, n), sha)
  {
    if n > 0 {
      var before := Seen(landed, byRequest, n - 1);
      ListedInEither(Expanded(landed, byRequest, n - 1), Run(landed, byRequest, n - 1), sha);
      if sha in before {
        SeenIsListed(landed, byRequest, n - 1, sha);
      } else {
        FreshIsListed(landed, byRequest, n - 1, sha);
      }
    }
  }

  lemma FreshIsListed(landed: seq<Landed>, byRequest: ByRequest, i: nat, sha: string)
    requires i < |landed|
    requires sha in CommitShas(FreshAt(landed, byRequest, i))
    ensures IsListed(Run(landed, byRequest, i), sha)
  {
    var added := FreshAt(landed, byRequest, i);
    var m :| 0 <= m < |added| && added[m].sha == sha;
    assert Map(added, InPlaceOf(landed[i]))[m] == landed[i].(commit := added[m]);
    assert landed[i].(commit := added[m]) in Run(landed, byRequest, i);
  }

  lemma {:induction false} ListedStays(landed: seq<Landed>, byRequest: ByRequest, m: nat, n: nat, sha: string)
    requires m <= n <= |landed| && IsListed(Expanded(landed, byRequest, m), sha)
    ensures IsListed(Expanded(landed, byRequest, n), sha)
    decreases n
  {
    if m < n {
      ListedStays(landed, byRequest, m, n - 1, sha);
      ListedInEither(Expanded(landed, byRequest, n - 1), Run(landed, byRequest, n - 1), sha);
    }
  }

  /** Nothing fetched is lost: every commit of a squash is in the output, or was in the range already. */
  lemma FetchedWorkIsKept(landed: seq<Landed>, byRequest: ByRequest, i: nat, c: Commit)
    requires i < |landed| && c in Children(landed[i], SquashShas(landed), byRequest)
    ensures c.sha in Shas(landed) || IsListed(Expanded(landed, byRequest, |landed|), c.sha)
  {
    ChildIsSeenOrPlaced(landed, byRequest, i, c);
    if c.sha !in Shas(landed) {
      ListedInEither(Expanded(landed, byRequest, i), Run(landed, byRequest, i), c.sha);
      ListedStays(landed, byRequest, i + 1, |landed|, c.sha);
    }
  }

  lemma {:induction false} ChildIsSeenOrPlaced(landed: seq<Landed>, byRequest: ByRequest, i: nat, c: Commit)
    requires i < |landed| && c in Children(landed[i], SquashShas(landed), byRequest)
    ensures c.sha in Shas(landed) || IsListed(Expanded(landed, byRequest, i), c.sha)
            || IsListed(Run(landed, byRequest, i), c.sha)
  {
    if c.sha in Seen(landed, byRequest, i) {
      SeenIsListed(landed, byRequest, i, c.sha);
    } else {
      assert Unseen(Seen(landed, byRequest, i))(c);
      assert c in FreshAt(landed, byRequest, i);
      FreshIsListed(landed, byRequest, i, c.sha);
    }
  }

  // ─── What stands for each entry, exactly ───

  /** The commits the entry's own request was made of, where the entry is a squash of one that was fetched. */
  ghost predicate IsMadeOf(entry: Landed, c: Commit, byRequest: ByRequest) {
    && entry.commit.parents == 1 && entry.commit.namesRequest
    && var number := if entry.request.Some? then entry.request.value else -1;
       number in byRequest && c in byRequest[number]
  }

  lemma ChildrenAre(landed: seq<Landed>, byRequest: ByRequest, i: nat, c: Commit)
    requires i < |landed| && Distinct(landed, byRequest)
    ensures c in Children(landed[i], SquashShas(landed), byRequest) <==> IsMadeOf(landed[i], c, byRequest)
  {
    assert landed[i] in landed;
    if landed[i].commit.sha in SquashShas(landed) {
      var squash :| squash in landed && IsSquash(squash) && squash.commit.sha == landed[i].commit.sha;
      var k :| 0 <= k < |landed| && landed[k] == squash;
      assert LandedSha(landed[k]) == LandedSha(landed[i]);
      assert k == i;
    }
  }

  /** Work of the entry that neither the range nor anything put out before it holds. */
  ghost predicate IsNewWork(c: Commit, landed: seq<Landed>, byRequest: ByRequest, i: nat)
    requires i < |landed|
  {
    && IsMadeOf(landed[i], c, byRequest)
    && !IsListed(landed, c.sha) && !IsListed(Expanded(landed, byRequest, i), c.sha)
  }

  lemma FreshIsNewWork(landed: seq<Landed>, byRequest: ByRequest, i: nat, c: Commit)
    requires i < |landed| && Distinct(landed, byRequest)
    ensures c in FreshAt(landed, byRequest, i) <==> IsNewWork(c, landed, byRequest, i)
  {
    ChildrenAre(landed, byRequest, i, c);
    ExpansionIsSound(landed, byRequest, i);
    assert c in FreshAt(landed, byRequest, i)
      <==> c in Children(landed[i], SquashShas(landed), byRequest) && c.sha !in Seen(landed, byRequest, i);
    if c.sha in Seen(landed, byRequest, i) {
      SeenIsListed(landed, byRequest, i, c.sha);
    }
    SeenGrows(landed, byRequest, i);
    assert c.sha in Shas(landed) <==> IsListed(landed, c.sha);
  }

  /** The commits of a run, one entry each, in the order their request lists them. */
  ghost predicate RunsThrough(run: seq<Landed>, landed: seq<Landed>, byRequest: ByRequest, i: nat)
    requires i < |landed|
  {
    && (forall c :: IsNewWork(c, landed, byRequest, i) <==> landed[i].(commit := c) in run)
    && (forall l :: l in run ==> l == landed[i].(commit := l.commit))
    && forall p, q :: 0 <= p < q < |run| ==>
         run[p].commit.sha != run[q].commit.sha
         && forall number :: number in byRequest && landed[i].request == Some(number) ==>
              Precedes(byRequest[number], run[p].commit, run[q].commit)
  }

  lemma PlacedInOrder(landed: seq<Landed>, byRequest: ByRequest, i: nat, p: nat, q: nat, number: int)
    requires i < |landed| && Distinct(landed, byRequest) && number in byRequest && landed[i].request == Some(number)
    requires p < q < |FreshAt(landed, byRequest, i)|
    ensures Precedes(byRequest[number], FreshAt(landed, byRequest, i)[p], FreshAt(landed, byRequest, i)[q])
  {
    var children := Children(landed[i], SquashShas(landed), byRequest);
    KeptKeepsOrder(children, Unseen(Seen(landed, byRequest, i)), p, q);
  }

  /**
   * Each entry stands as it was written where it has no new work, and otherwise
   * gives way to all of it: each commit once, in its request's order, carrying
   * what the entry came in on.
   */
  lemma RunIsExactly(landed: seq<Landed>, byRequest: ByRequest, i: nat)
    requires i < |landed| && Distinct(landed, byRequest)
    ensures var run := Run(landed, byRequest, i);
      if forall c :: !IsNewWork(c, landed, byRequest, i) then run == [landed[i]]
      else RunsThrough(run, landed, byRequest, i)
  {
    var added, run := FreshAt(landed, byRequest, i), Run(landed, byRequest, i);
    forall c ensures c in added <==> IsNewWork(c, landed, byRequest, i) {
      FreshIsNewWork(landed, byRequest, i, c);
    }
    if added == [] {
      assert run == [landed[i]];
    } else {
      assert added[0] in added;
      RunOfAdded(landed[i], added);
      RunShas(landed, byRequest, i);
      forall p, q, number | 0 <= p < q < |run| && number in byRequest && landed[i].request == Some(number)
        ensures Precedes(byRequest[number], run[p].commit, run[q].commit)
      {
        PlacedInOrder(landed, byRequest, i, p, q, number);
      }
    }
  }

  lemma RunOfAdded(entry: Landed, added: seq<Commit>)
    ensures var run := Map(added, InPlaceOf(entry));
      && (forall c :: entry.(commit := c) in run <==> c in added)
      && (forall l :: l in run ==> l == entry.(commit := l.commit))
      && forall m :: 0 <= m < |run| ==> run[m].commit == added[m]
  {
    var run := Map(added, InPlaceOf(entry));
    forall m | 0 <= m < |run| ensures run[m] == entry.(commit := added[m]) {
      assert run[m] == InPlaceOf(entry)(added[m]);
    }
    forall c | c in added ensures entry.(commit := c) in run {
      var m :| 0 <= m < |added| && added[m] == c;
      assert run[m] == entry.(commit := c);
    }
    forall c | entry.(commit := c) in run ensures c in added {
      var m :| 0 <= m < |run| && run[m] == entry.(commit := c);
    }
  }

  /** The output is the runs of the entries, one after the other. */
  lemma {:induction false} RunsFollowOneAnother(landed: seq<Landed>, byRequest: ByRequest, i: nat, n: nat)
    requires i < n <= |landed|
    ensures Expanded(landed, byRequest, 0) == []
    ensures Expanded(landed, byRequest, i) + Run(landed, byRequest, i) <= Expanded(landed, byRequest, n)
    ensures i + 1 == n ==> Expanded(landed, byRequest, i) + Run(landed, byRequest, i) == Expanded(landed, byRequest, n)
  {
    if i + 1 < n {
      RunsFollowOneAnother(landed, byRequest, i, n - 1);
    }
  }
}
