/** What the failed sign-ins of back/src/auth/login-throttle.ts are counted against. */
module SignIns {
  import opened Lists
  import opened Numbers
  import opened Options

  const WINDOW_MS := 15 * 60 * 1000
  const SWEEP_SIZE := 5000

  datatype Kind = Email | Ip

  datatype Key = Key(kind: Kind, value: string)

  datatype LoginKeys = LoginKeys(email: string, ip: string)

  datatype Bucket = Bucket(count: nat, expiresAt: int)

  type Buckets = map<Key, Bucket>

  function Limit(kind: Kind): nat { if kind.Email? then 10 else 30 }

  function Entries(keys: LoginKeys): seq<Key> { [Key(Email, keys.email), Key(Ip, keys.ip)] }

  /** How long one bucket keeps sign-in closed. */
  function WaitOf(buckets: Buckets, key: Key, now: int): int {
    if key !in buckets || buckets[key].expiresAt <= now || buckets[key].count < Limit(key.kind) then 0
    else buckets[key].expiresAt - now
  }

  function Counted(buckets: Buckets, key: Key, now: int): Buckets {
    var live := key in buckets && buckets[key].expiresAt > now;
    buckets[key := Bucket(if live then buckets[key].count + 1 else 1, now + WINDOW_MS)]
  }

  /** One more where the bucket was live, else the first; remembered for fifteen minutes from now. */
  predicate IsCounted(after: Bucket, before: Option<Bucket>, now: int) {
    && after.count == (if before.Some? && before.value.expiresAt > now then before.value.count + 1 else 1)
    && after.expiresAt == now + 15 * 60 * 1000
  }

  function Swept(buckets: Buckets, now: int): Buckets {
    map key | key in buckets && buckets[key].expiresAt > now :: buckets[key]
  }

  /** A map below this size is left as it is, expired buckets included. */
  function PrunedAt(buckets: Buckets, now: int): Buckets {
    if |buckets| < SWEEP_SIZE then buckets else Swept(buckets, now)
  }

  function AfterFailure(buckets: Buckets, keys: LoginKeys, now: int): Buckets {
    PrunedAt(Counted(Counted(buckets, Key(Email, keys.email), now), Key(Ip, keys.ip), now), now)
  }

  function AfterClear(buckets: Buckets, keys: LoginKeys): Buckets {
    buckets - {Key(Email, keys.email), Key(Ip, keys.ip)}
  }

  // ─── Against the history of calls ───

  /** `Sweep` is a walk over the buckets at a moment of its own, whatever their number. */
  datatype Call = Failure(keys: LoginKeys, at: int) | Clear(keys: LoginKeys) | Sweep(at: int)

  function Apply(buckets: Buckets, call: Call): Buckets {
    match call
    case Failure(keys, at) => AfterFailure(buckets, keys, at)
    case Clear(keys) => AfterClear(buckets, keys)
    case Sweep(at) => Swept(buckets, at)
  }

  function Replay(calls: seq<Call>): Buckets {
    if calls == [] then map[] else Apply(Replay(calls[..|calls| - 1]), calls[|calls| - 1])
  }

  /** When one key failed since it was last cleared. */
  function FailureTimes(calls: seq<Call>, key: Key): seq<int> {
    if calls == [] then []
    else
      var before := FailureTimes(calls[..|calls| - 1], key);
      match calls[|calls| - 1]
      case Failure(keys, at) => if key in Entries(keys) then before + [at] else before
      case Clear(keys) => if key in Entries(keys) then [] else before
      case Sweep(_) => before
  }

  /** The failures that follow one another within the window, counted back from the last. */
  function ChainLength(times: seq<int>): nat {
    if |times| <= 1 then |times|
    else if times[|times| - 1] - times[|times| - 2] < WINDOW_MS then ChainLength(times[..|times| - 1]) + 1
    else 1
  }

  /** It is the longest suffix with no gap of a window or more. */
  lemma {:induction false} ChainIsLongestUnbrokenSuffix(times: seq<int>)
    ensures var n := ChainLength(times);
      && n <= |times|
      && (forall i :: |times| - n < i < |times| ==> times[i] - times[i - 1] < WINDOW_MS)
      && (0 < n < |times| ==> times[|times| - n] - times[|times| - n - 1] >= WINDOW_MS)
      && (n == 0 <==> times == [])
  {
    if |times| > 1 {
      ChainIsLongestUnbrokenSuffix(times[..|times| - 1]);
    }
  }

  /** What the history says one key must wait. */
  function ChainWait(times: seq<int>, kind: Kind, now: int): int {
    if times == [] || times[|times| - 1] + WINDOW_MS <= now || ChainLength(times) < Limit(kind) then 0
    else times[|times| - 1] + WINDOW_MS - now
  }

  /** The latest moment the history mentions, if any. */
  function Latest(calls: seq<Call>): Option<int> {
    if calls == [] then None
    else
      match calls[|calls| - 1]
      case Failure(_, at) => Some(at)
      case Clear(_) => Latest(calls[..|calls| - 1])
      case Sweep(at) => Some(at)
  }

  predicate NotBefore(now: int, calls: seq<Call>) {
    Latest(calls).Some? ==> Latest(calls).value <= now
  }

  /** A clock that never goes back. */
  predicate Timely(calls: seq<Call>) {
    calls == []
    || (Timely(calls[..|calls| - 1])
        && match calls[|calls| - 1]
           case Failure(_, at) => NotBefore(at, calls[..|calls| - 1])
           case Clear(_) => true
           case Sweep(at) => NotBefore(at, calls[..|calls| - 1]))
  }

  /** A bucket is its key's chain; a key without one has nothing live to remember. */
  predicate AgreesOn(buckets: Buckets, times: seq<int>, key: Key, latest: Option<int>) {
    if key in buckets then
      times != [] && buckets[key] == Bucket(ChainLength(times), times[|times| - 1] + WINDOW_MS)
    else
      times == [] || (latest.Some? && times[|times| - 1] + WINDOW_MS <= latest.value)
  }

  lemma {:induction false} BucketsAreChains(calls: seq<Call>, key: Key)
    requires Timely(calls)
    ensures AgreesOn(Replay(calls), FailureTimes(calls, key), key, Latest(calls))
  {
    if calls != [] {
      BucketsAreChains(calls[..|calls| - 1], key);
      CallKeepsChain(calls, key);
    }
  }

  lemma {:induction false} CallKeepsChain(calls: seq<Call>, key: Key)
    requires calls != [] && Timely(calls)
    requires var before := calls[..|calls| - 1]; AgreesOn(Replay(before), FailureTimes(before, key), key,
                                                          Latest(before))
    ensures AgreesOn(Replay(calls), FailureTimes(calls, key), key, Latest(calls))
  {
    var before := calls[..|calls| - 1];
    var times := FailureTimes(before, key);
    match calls[|calls| - 1]
    case Failure(keys, at) => FailureKeepsChain(Replay(before), times, key, Latest(before), keys, at);
    case Clear(_) =>
    case Sweep(at) => SweepKeepsChain(Replay(before), times, key, Latest(before), at);
  }

  lemma FailureKeepsChain(buckets: Buckets, times: seq<int>, key: Key, latest: Option<int>, keys: LoginKeys, at: int)
    requires AgreesOn(buckets, times, key, latest) && (latest.Some? ==> latest.value <= at)
    ensures var now := if key in Entries(keys) then times + [at] else times;
      AgreesOn(AfterFailure(buckets, keys, at), now, key, Some(at))
  {
    var counted := Counted(Counted(buckets, Key(Email, keys.email), at), Key(Ip, keys.ip), at);
    var next := if key in Entries(keys) then times + [at] else times;
    if key in Entries(keys) {
      assert (times + [at])[..|times|] == times;
      assert counted[key] == Bucket(ChainLength(times + [at]), at + WINDOW_MS);
    }
    SweepKeepsChain(counted, next, key, Some(at), at);
  }

  /** A bucket no longer live says nothing, whether or not it was walked away. */
  lemma SweepKeepsChain(buckets: Buckets, times: seq<int>, key: Key, latest: Option<int>, at: int)
    requires AgreesOn(buckets, times, key, latest) && (latest.Some? ==> latest.value <= at)
    ensures AgreesOn(Swept(buckets, at), times, key, Some(at)) && AgreesOn(buckets, times, key, Some(at))
  {
  }

  /**
   * The throttle answers from its history: after any calls on a clock that never
   * goes back, the wait is the longest left over the keys whose unbroken chain of
   * failures reached its limit. Sweeps are nowhere in that answer.
   */
  lemma AnswersFromHistory(calls: seq<Call>, keys: LoginKeys, now: int)
    requires Timely(calls) && NotBefore(now, calls)
    ensures Max(WaitOf(Replay(calls), Key(Email, keys.email), now), WaitOf(Replay(calls), Key(Ip, keys.ip), now))
         == Max(ChainWait(FailureTimes(calls, Key(Email, keys.email)), Email, now),
                ChainWait(FailureTimes(calls, Key(Ip, keys.ip)), Ip, now))
  {
    BucketsAreChains(calls, Key(Email, keys.email));
    BucketsAreChains(calls, Key(Ip, keys.ip));
  }

  /** The last `limit` failures followed one another less than fifteen minutes apart. */
  predicate ReachesLimit(times: seq<int>, limit: nat) {
    |times| >= limit && forall i :: |times| - limit < i < |times| && 0 < i ==> times[i] - times[i - 1] < 15 * 60 * 1000
  }

  /** What is left of the fifteen minutes after the last failure, once the limit was reached. */
  predicate IsLeft(wait: int, times: seq<int>, limit: nat, now: int) {
    wait == if times != [] && ReachesLimit(times, limit) && now < times[|times| - 1] + 15 * 60 * 1000
            then times[|times| - 1] + 15 * 60 * 1000 - now else 0
  }

  lemma ChainReaches(times: seq<int>, limit: nat)
    requires limit > 0
    ensures ChainLength(times) >= limit <==> ReachesLimit(times, limit)
  {
    ChainIsLongestUnbrokenSuffix(times);
    var n := ChainLength(times);
    if n < limit <= |times| {
      assert times[|times| - n] - times[|times| - n - 1] >= WINDOW_MS;
    }
  }

  /** Ten failures close sign-in for an address, thirty for a caller. */
  lemma WaitIsLeft(times: seq<int>, now: int)
    ensures IsLeft(ChainWait(times, Email, now), times, 10, now)
    ensures IsLeft(ChainWait(times, Ip, now), times, 30, now)
  {
    ChainReaches(times, 10);
    ChainReaches(times, 30);
  }

  /** After any calls on a clock that never goes back, the wait is the longer of what is left for the two keys. */
  lemma RetryIsLongestLeft(calls: seq<Call>, keys: LoginKeys, now: int)
    requires Timely(calls) && NotBefore(now, calls)
    ensures exists a, b :: IsLeft(a, FailureTimes(calls, Key(Email, keys.email)), 10, now)
                           && IsLeft(b, FailureTimes(calls, Key(Ip, keys.ip)), 30, now)
                           && Max(WaitOf(Replay(calls), Key(Email, keys.email), now),
                                  WaitOf(Replay(calls), Key(Ip, keys.ip), now)) == if a >= b then a else b
  {
    AnswersFromHistory(calls, keys, now);
    WaitIsLeft(FailureTimes(calls, Key(Email, keys.email)), now);
    WaitIsLeft(FailureTimes(calls, Key(Ip, keys.ip)), now);
  }

  // ─── Which failures count ───

  predicate Names(keys: LoginKeys, key: Key) { key == Key(Email, keys.email) || key == Key(Ip, keys.ip) }

  /** A failure of this key. */
  predicate FailsFor(call: Call, key: Key) { call.Failure? && Names(call.keys, key) }

  /** A sign-in that cleared it. */
  predicate ClearsFor(call: Call, key: Key) { call.Clear? && Names(call.keys, key) }

  function FailingFor(key: Key): Call -> bool { (call: Call) => FailsFor(call, key) }

  /** From this call on the key was not cleared, and it is the first such. */
  predicate IsSinceCleared(from: int, calls: seq<Call>, key: Key) {
    && 0 <= from <= |calls|
    && (forall i :: from <= i < |calls| ==> !ClearsFor(calls[i], key))
    && (from > 0 ==> ClearsFor(calls[from - 1], key))
  }

  /** The times counted are those of the key's failures since it was last cleared, each once, in order. */
  lemma {:induction false} TimesSinceCleared(calls: seq<Call>, key: Key)
    ensures exists from :: IsSinceCleared(from, calls, key)
                           && AreTimesOf(FailureTimes(calls, key), Kept(calls[from..], FailingFor(key)))
  {
    if calls == [] {
      assert IsSinceCleared(0, calls, key) && calls[0..] == [];
    } else {
      var init, last := calls[..|calls| - 1], calls[|calls| - 1];
      TimesSinceCleared(init, key);
      var from :| IsSinceCleared(from, init, key)
                  && AreTimesOf(FailureTimes(init, key), Kept(init[from..], FailingFor(key)));
      if ClearsFor(last, key) {
        assert IsSinceCleared(|calls|, calls, key) && calls[|calls|..] == [];
      } else {
        SinceClearedStill(from, calls, key);
        OneMoreTime(calls, key, from);
      }
    }
  }

  lemma SinceClearedStill(from: int, calls: seq<Call>, key: Key)
    requires calls != [] && IsSinceCleared(from, calls[..|calls| - 1], key) && !ClearsFor(calls[|calls| - 1], key)
    ensures IsSinceCleared(from, calls, key)
  {
    assert forall i :: 0 <= i < |calls| - 1 ==> calls[..|calls| - 1][i] == calls[i];
  }

  lemma OneMoreTime(calls: seq<Call>, key: Key, from: int)
    requires calls != [] && 0 <= from < |calls| && !ClearsFor(calls[|calls| - 1], key)
    requires var init := calls[..|calls| - 1]; AreTimesOf(FailureTimes(init, key), Kept(init[from..], FailingFor(key)))
    ensures AreTimesOf(FailureTimes(calls, key), Kept(calls[from..], FailingFor(key)))
  {
    var init, last := calls[..|calls| - 1], calls[|calls| - 1];
    assert calls[from..] == init[from..] + [last];
    KeptSnoc(init[from..], last, FailingFor(key));
    assert FailureTimes(calls, key) == FailureTimes(init, key) + if FailingFor(key)(last) then [last.at] else [];
  }

  ghost predicate AreTimesOf(times: seq<int>, failures: seq<Call>) {
    |times| == |failures| && forall i :: 0 <= i < |times| ==> failures[i].Failure? && failures[i].at == times[i]
  }

  function Unswept(calls: seq<Call>): seq<Call> {
    if calls == [] then []
    else Unswept(calls[..|calls| - 1]) + if calls[|calls| - 1].Sweep? then [] else [calls[|calls| - 1]]
  }

  lemma {:induction false} UnsweptIsTimely(calls: seq<Call>)
    requires Timely(calls)
    ensures Timely(Unswept(calls))
    ensures forall now :: NotBefore(now, calls) ==> NotBefore(now, Unswept(calls))
    ensures forall key :: FailureTimes(Unswept(calls), key) == FailureTimes(calls, key)
  {
    if calls != [] {
      var before, call := calls[..|calls| - 1], calls[|calls| - 1];
      UnsweptIsTimely(before);
      forall now | NotBefore(now, calls) ensures NotBefore(now, before) {
      }
      if !call.Sweep? {
        var kept := Unswept(calls);
        assert kept == Unswept(before) + [call];
        assert kept[..|kept| - 1] == Unswept(before) && kept[|kept| - 1] == call;
      } else {
        assert Unswept(calls) == Unswept(before);
      }
    }
  }

  /** Walking the buckets at any moment, any number of times, changes no later answer. */
  lemma {:induction false} SweepsAreUnobservable(calls: seq<Call>, key: Key, now: int)
    requires Timely(calls) && NotBefore(now, calls)
    ensures WaitOf(Replay(calls), key, now) == WaitOf(Replay(Unswept(calls)), key, now)
  {
    UnsweptIsTimely(calls);
    BucketsAreChains(calls, key);
    BucketsAreChains(Unswept(calls), key);
  }
}

/** The class of back/src/auth/login-throttle.ts. */
module Throttle {
  import opened Numbers
  import opened Options
  import opened SignIns

  class LoginThrottle {
    var buckets: Buckets

    constructor ()
      ensures buckets == map[]
    {
      buckets := map[];
    }

    method RetryAfter(keys: LoginKeys, now: int) returns (wait: int)
      ensures wait == Max(WaitOf(buckets, Key(Email, keys.email), now), WaitOf(buckets, Key(Ip, keys.ip), now))
    {
      wait := 0;
      var entries := Entries(keys);
      for i := 0 to |entries|
        invariant wait >= 0
        invariant i == 0 ==> wait == 0
        invariant i == 1 ==> wait == WaitOf(buckets, entries[0], now)
        invariant i == 2 ==> wait == Max(WaitOf(buckets, entries[0], now), WaitOf(buckets, entries[1], now))
      {
        var key := entries[i];
        if key in buckets && buckets[key].expiresAt > now && buckets[key].count >= Limit(key.kind) {
          wait := Max(wait, buckets[key].expiresAt - now);
        }
      }
    }

    method RecordFailure(keys: LoginKeys, now: int)
      modifies this
      ensures forall key :: Names(keys, key) ==> key in buckets && IsCounted(buckets[key], Get(old(buckets), key), now)
      ensures forall key :: !Names(keys, key) ==>
                Get(buckets, key) == Get(old(buckets), key)
                || (key !in buckets && key in old(buckets) && old(buckets)[key].expiresAt <= now)
      ensures buckets == AfterFailure(old(buckets), keys, now)
    {
      var entries := Entries(keys);
      for i := 0 to |entries|
        invariant i == 0 ==> buckets == old(buckets)
        invariant i == 1 ==> buckets == Counted(old(buckets), entries[0], now)
        invariant i == 2 ==> buckets == Counted(Counted(old(buckets), entries[0], now), entries[1], now)
      {
        var key := entries[i];
        var count := if key in buckets && buckets[key].expiresAt > now then buckets[key].count + 1 else 1;
        buckets := buckets[key := Bucket(count, now + WINDOW_MS)];
      }
      Prune(now);
    }

    method Clear(keys: LoginKeys)
      modifies this
      ensures forall key :: Get(buckets, key) == if Names(keys, key) then None else Get(old(buckets), key)
      ensures buckets == AfterClear(old(buckets), keys)
    {
      var entries := Entries(keys);
      for i := 0 to |entries|
        invariant buckets == old(buckets) - set key | key in entries[..i]
      {
        assert entries[..i + 1] == entries[..i] + [entries[i]];
        buckets := buckets - {entries[i]};
      }
      assert entries[..|entries|] == [Key(Email, keys.email), Key(Ip, keys.ip)];
      assert forall key :: key in entries[..|entries|] <==> key == Key(Email, keys.email) || key == Key(Ip, keys.ip);
    }

    method Prune(now: int)
      modifies this
      ensures |old(buckets)| < 5000 ==> buckets == old(buckets)
      ensures |old(buckets)| >= 5000 ==>
                buckets == map key | key in old(buckets) && now < old(buckets)[key].expiresAt :: old(buckets)[key]
      ensures buckets == PrunedAt(old(buckets), now)
    {
      if |buckets| < SWEEP_SIZE {
        return;
      }
      var left := buckets.Keys;
      while left != {}
        invariant left <= old(buckets).Keys
        invariant buckets == map key | key in old(buckets)
                  && (key in left || old(buckets)[key].expiresAt > now) :: old(buckets)[key]
        decreases |left|
      {
        var key :| key in left;
        left := left - {key};
        if buckets[key].expiresAt <= now {
          buckets := buckets - {key};
        }
      }
    }
  }
}
