/** Optional values, bounds, and the list operations the models are written with. */
module Options {
  datatype Option<+T> = None | Some(value: T)

  function Get<K, V>(m: map<K, V>, k: K): Option<V> {
    if k in m then Some(m[k]) else None
  }
}

module Numbers {
  const DAY_MS := 86_400_000

  function Min(a: int, b: int): int { if a <= b then a else b }

  function Max(a: int, b: int): int { if a >= b then a else b }
}

/**
 * Filtering, grouping and summing. Every function recurses on the last element,
 * so that a loop over a growing prefix unfolds it once per turn. Predicates and
 * keys that capture a value are built by named functions (`Keyed`, `KeyIn`):
 * the same name with the same arguments is the same function everywhere.
 */
module Lists {
  predicate NoDuplicates<T(==)>(s: seq<T>) {
    forall i, j :: 0 <= i < j < |s| ==> s[i] != s[j]
  }

  /** The elements that pass, in order. */
  function Kept<T>(s: seq<T>, keep: T -> bool): seq<T> {
    if s == [] then [] else Kept(s[..|s| - 1], keep) + if keep(s[|s| - 1]) then [s[|s| - 1]] else []
  }

  lemma {:induction false} KeptHolds<T(!new)>(s: seq<T>, keep: T -> bool)
    ensures forall x :: x in Kept(s, keep) <==> x in s && keep(x)
    ensures |Kept(s, keep)| <= |s|
  {
    if s != [] {
      KeptHolds(s[..|s| - 1], keep);
      assert s == s[..|s| - 1] + [s[|s| - 1]];
    }
  }

  lemma KeptSnoc<T>(s: seq<T>, x: T, keep: T -> bool)
    ensures Kept(s + [x], keep) == if keep(x) then Kept(s, keep) + [x] else Kept(s, keep)
  {
    assert (s + [x])[..|s|] == s;
  }

  lemma {:induction false} KeptAppend<T>(a: seq<T>, b: seq<T>, keep: T -> bool)
    ensures Kept(a + b, keep) == Kept(a, keep) + Kept(b, keep)
  {
    if b == [] {
      assert a + b == a;
    } else {
      assert (a + b)[..|a| + |b| - 1] == a + b[..|b| - 1];
      KeptAppend(a, b[..|b| - 1], keep);
    }
  }

  lemma {:induction false} KeptAll<T>(s: seq<T>, keep: T -> bool)
    requires forall i :: 0 <= i < |s| ==> keep(s[i])
    ensures Kept(s, keep) == s
  {
    if s != [] {
      KeptAll(s[..|s| - 1], keep);
    }
  }

  lemma {:induction false} NoneKept<T>(s: seq<T>, keep: T -> bool)
    ensures Kept(s, keep) == [] <==> forall i :: 0 <= i < |s| ==> !keep(s[i])
  {
    if s != [] {
      NoneKept(s[..|s| - 1], keep);
      assert forall i :: 0 <= i < |s| - 1 ==> s[..|s| - 1][i] == s[i];
    }
  }

  /** `Kept`, with what it holds for every reader to see. */
  function Filter<T(!new)>(s: seq<T>, keep: T -> bool): (r: seq<T>)
    ensures forall x :: x in r <==> x in s && keep(x)
    ensures |r| <= |s|
  {
    KeptHolds(s, keep);
    Kept(s, keep)
  }

  /** A prefix one longer, and the longest one. */
  lemma PrefixNext<T>(s: seq<T>, i: nat)
    requires i < |s|
    ensures s[..i + 1] == s[..i] + [s[i]]
    ensures i + 1 == |s| ==> s[..i + 1] == s
  {
  }

  lemma FilterSnoc<T(!new)>(s: seq<T>, x: T, keep: T -> bool)
    ensures Filter(s + [x], keep) == if keep(x) then Filter(s, keep) + [x] else Filter(s, keep)
  {
    KeptSnoc(s, x, keep);
  }

  lemma FilterAppend<T(!new)>(a: seq<T>, b: seq<T>, keep: T -> bool)
    ensures Filter(a + b, keep) == Filter(a, keep) + Filter(b, keep)
  {
    KeptAppend(a, b, keep);
  }

  lemma FilterAll<T(!new)>(s: seq<T>, keep: T -> bool)
    requires forall x :: x in s ==> keep(x)
    ensures Filter(s, keep) == s
  {
    KeptAll(s, keep);
  }

  /** Filter of a list one element longer. */
  lemma FilterNext<T(!new)>(s: seq<T>, i: nat, keep: T -> bool)
    requires i < |s|
    ensures s[..i + 1] == s[..i] + [s[i]]
    ensures Filter(s[..i + 1], keep) == Filter(s[..i], keep) + if keep(s[i]) then [s[i]] else []
  {
    PrefixNext(s, i);
    KeptSnoc(s[..i], s[i], keep);
  }

  // ─── The first and the last element kept ───

  predicate IsFirstKept<T(==)>(s: seq<T>, keep: T -> bool, i: nat)
    requires i < |s|
  {
    var kept := Kept(s, keep);
    keep(s[i]) && kept != [] && kept[0] == s[i] && forall j :: 0 <= j < i ==> !keep(s[j])
  }

  predicate IsLastKept<T(==)>(s: seq<T>, keep: T -> bool, i: nat)
    requires i < |s|
  {
    var kept := Kept(s, keep);
    keep(s[i]) && kept != [] && kept[|kept| - 1] == s[i] && forall j :: i < j < |s| ==> !keep(s[j])
  }

  lemma {:induction false} FirstKept<T>(s: seq<T>, keep: T -> bool, i: nat)
    requires i < |s| && keep(s[i]) && forall j :: 0 <= j < i ==> !keep(s[j])
    ensures IsFirstKept(s, keep, i)
  {
    var n := |s| - 1;
    if i < n {
      FirstKept(s[..n], keep, i);
    } else {
      NoneKept(s[..n], keep);
    }
  }

  lemma {:induction false} FilterBegins<T>(s: seq<T>, keep: T -> bool)
    requires Kept(s, keep) != []
    ensures exists i :: 0 <= i < |s| && IsFirstKept(s, keep, i)
  {
    var n := |s| - 1;
    NoneKept(s[..n], keep);
    if Kept(s[..n], keep) == [] {
      assert forall j :: 0 <= j < n ==> s[..n][j] == s[j];
      FirstKept(s, keep, n);
    } else {
      FilterBegins(s[..n], keep);
      var f :| 0 <= f < n && IsFirstKept(s[..n], keep, f);
      FirstKept(s, keep, f);
    }
  }

  lemma {:induction false} FilterEnds<T>(s: seq<T>, keep: T -> bool)
    requires Kept(s, keep) != []
    ensures exists i :: 0 <= i < |s| && IsLastKept(s, keep, i)
  {
    var n := |s| - 1;
    if keep(s[n]) {
      assert IsLastKept(s, keep, n);
    } else {
      FilterEnds(s[..n], keep);
      var l :| 0 <= l < n && IsLastKept(s[..n], keep, l);
      assert IsLastKept(s, keep, l);
    }
  }

  // ─── Order among the elements kept ───

  /** One occurrence of `x` comes before one of `y`. */
  ghost predicate Precedes<T(!new)>(s: seq<T>, x: T, y: T) {
    exists i, j :: 0 <= i < j < |s| && s[i] == x && s[j] == y
  }

  lemma {:induction false} KeptKeepsOrder<T(!new)>(s: seq<T>, keep: T -> bool, i: nat, j: nat)
    requires i < j < |Kept(s, keep)|
    ensures Precedes(s, Kept(s, keep)[i], Kept(s, keep)[j])
  {
    var init, last := s[..|s| - 1], s[|s| - 1];
    if j < |Kept(init, keep)| {
      KeptKeepsOrder(init, keep, i, j);
      var a, b :| 0 <= a < b < |init| && init[a] == Kept(s, keep)[i] && init[b] == Kept(s, keep)[j];
      assert s[a] == init[a] && s[b] == init[b];
    } else {
      KeptHolds(init, keep);
      assert Kept(init, keep)[i] in Kept(init, keep);
      var a :| 0 <= a < |init| && init[a] == Kept(s, keep)[i];
      assert s[a] == init[a] && s[|s| - 1] == Kept(s, keep)[j];
    }
  }

  lemma {:induction false} KeptInOrder<T(!new)>(s: seq<T>, keep: T -> bool, p: nat, q: nat)
    requires p < q < |s| && keep(s[p]) && keep(s[q])
    ensures Precedes(Kept(s, keep), s[p], s[q])
  {
    var n := |s| - 1;
    var before, all := Kept(s[..n], keep), Kept(s, keep);
    if q < n {
      KeptInOrder(s[..n], keep, p, q);
      var a, b :| 0 <= a < b < |before| && before[a] == s[p] && before[b] == s[q];
      assert all[a] == before[a] && all[b] == before[b];
    } else {
      KeptHolds(s[..n], keep);
      assert s[..n][p] in s[..n];
      var a :| 0 <= a < |before| && before[a] == s[p];
      assert all[a] == before[a] && all[|before|] == s[q];
    }
  }

  // ─── Filtering, further ───

  /** Of five lists put together, the only one that holds anything. */
  lemma OnlyOnePart<T>(a: seq<T>, b: seq<T>, c: seq<T>, d: seq<T>, e: seq<T>)
    ensures b == c == d == e == [] ==> a + b + c + d + e == a
    ensures a == c == d == e == [] ==> a + b + c + d + e == b
    ensures a == b == d == e == [] ==> a + b + c + d + e == c
    ensures a == b == c == e == [] ==> a + b + c + d + e == d
    ensures a == b == c == d == [] ==> a + b + c + d + e == e
  {
  }

  lemma {:induction false} FilterNoDuplicates<T(!new)>(s: seq<T>, keep: T -> bool)
    requires NoDuplicates(s)
    ensures NoDuplicates(Filter(s, keep))
  {
    if s != [] {
      var n := |s| - 1;
      FilterNoDuplicates(s[..n], keep);
      assert s[n] !in s[..n];
    }
  }

  /** Two predicates that agree on the list select the same elements. */
  lemma {:induction false} FilterAgree<T(!new)>(s: seq<T>, p: T -> bool, q: T -> bool)
    requires forall x :: x in s ==> p(x) == q(x)
    ensures Filter(s, p) == Filter(s, q)
  {
    if s != [] {
      FilterAgree(s[..|s| - 1], p, q);
    }
  }

  /** Filtering twice is filtering once where the second test implies the first. */
  lemma {:induction false} FilterTwice<T(!new)>(s: seq<T>, p: T -> bool, q: T -> bool)
    requires forall x :: x in s && q(x) ==> p(x)
    ensures Filter(Filter(s, p), q) == Filter(s, q)
  {
    if s != [] {
      var n := |s| - 1;
      FilterTwice(s[..n], p, q);
      assert s == s[..n] + [s[n]];
      FilterSnoc(s[..n], s[n], p);
      FilterSnoc(s[..n], s[n], q);
      FilterSnoc(Filter(s[..n], p), s[n], q);
    }
  }

  function Not<T>(p: T -> bool): T -> bool { x => !p(x) }

  function Keyed<T, K(==)>(key: T -> K, k: K): T -> bool { x => key(x) == k }

  function KeyIn<T, K(==)>(key: T -> K, ks: seq<K>): T -> bool { x => key(x) in ks }

  function Among<T(==)>(s: set<T>): T -> bool { x => x in s }

  function Self<T>(x: T): T { x }

  /** The distinct keys of a list, in order of first appearance. */
  function FirstSeen<T(!new), K(==)>(items: seq<T>, key: T -> K): (r: seq<K>)
    ensures NoDuplicates(r)
    ensures forall x :: x in items ==> key(x) in r
    ensures forall k :: k in r ==> exists x :: x in items && key(x) == k
  {
    if items == [] then []
    else
      var n := |items| - 1;
      var earlier := FirstSeen(items[..n], key);
      assert items == items[..n] + [items[n]];
      if key(items[n]) in earlier then earlier else earlier + [key(items[n])]
  }

  lemma FirstSeenNext<T(!new), K>(items: seq<T>, i: nat, key: T -> K)
    requires i < |items|
    ensures FirstSeen(items[..i + 1], key)
         == FirstSeen(items[..i], key) + if key(items[i]) in FirstSeen(items[..i], key) then [] else [key(items[i])]
  {
    assert items[..i + 1][..i] == items[..i];
  }

  lemma FirstSeenSnoc<T(!new), K>(items: seq<T>, x: T, key: T -> K)
    ensures FirstSeen(items + [x], key)
         == if key(x) in FirstSeen(items, key) then FirstSeen(items, key) else FirstSeen(items, key) + [key(x)]
  {
    assert (items + [x])[..|items|] == items;
  }

  lemma {:induction false} FirstSeenOfDistinct<T(!new)>(s: seq<T>)
    requires NoDuplicates(s)
    ensures FirstSeen(s, Self) == s
  {
    if s != [] {
      var n := |s| - 1;
      FirstSeenOfDistinct(s[..n]);
      assert s[n] !in s[..n];
    }
  }

  function OnKey<T, K>(key: T -> K, p: K -> bool): T -> bool { x => p(key(x)) }

  /** The keys of the elements whose key passes are the keys that pass. */
  lemma {:induction false} FirstSeenFiltered<T(!new), K(!new)>(items: seq<T>, key: T -> K, p: K -> bool)
    ensures FirstSeen(Filter(items, OnKey(key, p)), key) == Filter(FirstSeen(items, key), p)
  {
    if items != [] {
      var n := |items| - 1;
      var init, x := items[..n], items[n];
      FirstSeenFiltered(init, key, p);
      var kept, seen := Filter(init, OnKey(key, p)), FirstSeen(init, key);
      assert FirstSeen(items, key) == if key(x) in seen then seen else seen + [key(x)];
      assert Filter(items, OnKey(key, p)) == if p(key(x)) then kept + [x] else kept;
      if p(key(x)) {
        assert FirstSeen(kept + [x], key) == if key(x) in seen then Filter(seen, p) else Filter(seen, p) + [key(x)] by {
          FirstSeenSnoc(kept, x, key);
        }
      }
      assert key(x) !in seen ==> Filter(seen + [key(x)], p) == Filter(seen, p) + if p(key(x)) then [key(x)] else [] by {
        FilterSnoc(seen, key(x), p);
      }
    }
  }

  function FlatMap<T, U>(s: seq<T>, f: T -> seq<U>): seq<U> {
    if s == [] then [] else FlatMap(s[..|s| - 1], f) + f(s[|s| - 1])
  }

  lemma FlatMapNext<T, U>(s: seq<T>, i: nat, f: T -> seq<U>)
    requires i < |s|
    ensures FlatMap(s[..i + 1], f) == FlatMap(s[..i], f) + f(s[i])
  {
    assert s[..i + 1][..i] == s[..i];
  }

  lemma {:induction false} InFlatMap<T(!new), U(!new)>(s: seq<T>, f: T -> seq<U>)
    ensures forall u :: u in FlatMap(s, f) <==> exists x :: x in s && u in f(x)
  {
    if s != [] {
      var n := |s| - 1;
      InFlatMap(s[..n], f);
      assert s == s[..n] + [s[n]];
    }
  }

  lemma {:induction false} FlatMapAgree<T, U>(s: seq<T>, f: T -> seq<U>, g: T -> seq<U>)
    requires forall x :: x in s ==> f(x) == g(x)
    ensures FlatMap(s, f) == FlatMap(s, g)
  {
    if s != [] {
      FlatMapAgree(s[..|s| - 1], f, g);
    }
  }

  function Map<T, U>(s: seq<T>, f: T -> U): (r: seq<U>)
    ensures |r| == |s| && forall i :: 0 <= i < |s| ==> r[i] == f(s[i])
  {
    seq(|s|, i requires 0 <= i < |s| => f(s[i]))
  }
}

/** Lists without repeats, counted as sets. */
module Distinct {
  import opened Lists

  lemma {:induction false} SizeOfDistinct<T>(s: seq<T>)
    requires NoDuplicates(s)
    ensures |s| == |set x | x in s|
  {
    if s != [] {
      var init, last := s[..|s| - 1], s[|s| - 1];
      SizeOfDistinct(init);
      assert last !in init;
      assert (set x | x in s) == (set x | x in init) + {last} by {
        assert s == init + [last];
      }
    }
  }

  lemma {:induction false} FlatMapNoDuplicates<T(!new), U(!new)>(s: seq<T>, f: T -> seq<U>)
    requires NoDuplicates(s) && forall x :: x in s ==> NoDuplicates(f(x))
    requires forall x, y, u :: x in s && y in s && u in f(x) && u in f(y) ==> x == y
    ensures NoDuplicates(FlatMap(s, f))
  {
    if s != [] {
      var n := |s| - 1;
      var before, here := FlatMap(s[..n], f), f(s[n]);
      assert forall x :: x in s[..n] ==> x in s;
      FlatMapNoDuplicates(s[..n], f);
      InFlatMap(s[..n], f);
      forall u | u in before ensures u !in here {
        var x :| x in s[..n] && u in f(x);
        assert s[n] !in s[..n] && s[n] in s;
      }
      AppendNoDuplicates(before, here);
    }
  }

  lemma AppendNoDuplicates<T(!new)>(a: seq<T>, b: seq<T>)
    requires NoDuplicates(a) && NoDuplicates(b) && forall u :: u in a ==> u !in b
    ensures NoDuplicates(a + b)
  {
    assert forall i :: 0 <= i < |a| ==> a[i] in a;
    assert forall i :: 0 <= i < |b| ==> b[i] in b;
  }

  lemma MapNoDuplicates<T, U>(s: seq<T>, f: T -> U)
    requires forall i, j :: 0 <= i < j < |s| ==> f(s[i]) != f(s[j])
    ensures NoDuplicates(Map(s, f))
  {
  }
}

/** Sums over lists, the currency every conservation law below is stated in. */
module Sums {
  import opened Lists

  function Sum<T>(s: seq<T>, w: T -> real): real {
    if s == [] then 0.0 else Sum(s[..|s| - 1], w) + w(s[|s| - 1])
  }

  function One<T>(x: T): real { 1.0 }

  function Is<T(==)>(v: T): T -> real { x => if x == v then 1.0 else 0.0 }

  lemma {:induction false} SumOfOnes<T>(s: seq<T>)
    ensures Sum(s, One) == |s| as real
  {
    if s != [] {
      SumOfOnes(s[..|s| - 1]);
    }
  }

  lemma SumSnoc<T>(s: seq<T>, x: T, w: T -> real)
    ensures Sum(s + [x], w) == Sum(s, w) + w(x)
  {
    assert (s + [x])[..|s|] == s;
  }

  lemma {:induction false} SumAppend<T>(a: seq<T>, b: seq<T>, w: T -> real)
    ensures Sum(a + b, w) == Sum(a, w) + Sum(b, w)
  {
    if b == [] {
      assert a + b == a;
    } else {
      var n := |b| - 1;
      SumAppend(a, b[..n], w);
      assert (a + b)[..|a| + n] == a + b[..n];
    }
  }

  lemma {:induction false} SumAgree<T>(s: seq<T>, v: T -> real, w: T -> real)
    requires forall x :: x in s ==> v(x) == w(x)
    ensures Sum(s, v) == Sum(s, w)
  {
    if s != [] {
      SumAgree(s[..|s| - 1], v, w);
    }
  }

  lemma {:induction false} SumSplit<T(!new)>(s: seq<T>, p: T -> bool, w: T -> real)
    ensures Sum(s, w) == Sum(Filter(s, p), w) + Sum(Filter(s, Not(p)), w)
  {
    if s != [] {
      var n := |s| - 1;
      SumSplit(s[..n], p, w);
      assert s == s[..n] + [s[n]];
      FilterSnoc(s[..n], s[n], p);
      FilterSnoc(s[..n], s[n], Not(p));
      SumSnoc(Filter(s[..n], p), s[n], w);
      SumSnoc(Filter(s[..n], Not(p)), s[n], w);
    }
  }

  /** Summing what `f` yields: the weight of one element is the sum of its list. */
  function Spread<T, U>(f: T -> seq<U>, w: U -> real): T -> real { x => Sum(f(x), w) }

  lemma {:induction false} SumFlatMap<T, U>(s: seq<T>, f: T -> seq<U>, w: U -> real)
    ensures Sum(FlatMap(s, f), w) == Sum(s, Spread(f, w))
  {
    if s != [] {
      var n := |s| - 1;
      SumFlatMap(s[..n], f, w);
      SumAppend(FlatMap(s[..n], f), f(s[n]), w);
    }
  }

  function After<T, U>(f: T -> U, w: U -> real): T -> real { x => w(f(x)) }

  lemma {:induction false} SumMap<T, U>(s: seq<T>, f: T -> U, w: U -> real)
    ensures Sum(Map(s, f), w) == Sum(s, After(f, w))
  {
    if s != [] {
      var n := |s| - 1;
      SumMap(s[..n], f, w);
      assert Map(s, f)[..n] == Map(s[..n], f);
    }
  }

  function Plus<T>(v: T -> real, w: T -> real): T -> real { x => v(x) + w(x) }

  lemma {:induction false} SumPlus<T>(s: seq<T>, v: T -> real, w: T -> real)
    ensures Sum(s, Plus(v, w)) == Sum(s, v) + Sum(s, w)
  {
    if s != [] {
      SumPlus(s[..|s| - 1], v, w);
    }
  }

  /** The group of one key, and what it weighs. */
  function Group<T(!new), K(==)>(items: seq<T>, key: T -> K): K -> seq<T> { k => Filter(items, Keyed(key, k)) }

  function GroupWeight<T(!new), K(==)>(items: seq<T>, key: T -> K, w: T -> real): K -> real {
    Spread(Group(items, key), w)
  }

  lemma {:induction false} SumOfOneHit<K>(ks: seq<K>, k: K, c: real)
    requires NoDuplicates(ks)
    ensures Sum(ks, Hit(k, c)) == if k in ks then c else 0.0
  {
    if ks != [] {
      var n := |ks| - 1;
      SumOfOneHit(ks[..n], k, c);
      assert ks[n] !in ks[..n];
      assert ks == ks[..n] + [ks[n]];
    }
  }

  function Hit<K(==)>(k: K, c: real): K -> real { x => if x == k then c else 0.0 }

  /**
   * Grouping neither loses nor repeats: over any distinct keys, the groups add up
   * to the elements that carry one of those keys.
   */
  lemma {:induction false} SumByGroups<T(!new), K>(ks: seq<K>, items: seq<T>, key: T -> K, w: T -> real)
    requires NoDuplicates(ks)
    ensures Sum(ks, GroupWeight(items, key, w)) == Sum(Filter(items, KeyIn(key, ks)), w)
  {
    if items == [] {
      SumAgree(ks, GroupWeight(items, key, w), Zero());
      SumOfZero(ks);
    } else {
      var n := |items| - 1;
      var init, x := items[..n], items[n];
      assert items == init + [x];
      SumByGroups(ks, init, key, w);
      var rest, hit := GroupWeight(init, key, w), Hit(key(x), w(x));
      forall k | k in ks ensures GroupWeight(items, key, w)(k) == Plus(rest, hit)(k) {
        FilterSnoc(init, x, Keyed(key, k));
        SumSnoc(Filter(init, Keyed(key, k)), x, w);
      }
      SumAgree(ks, GroupWeight(items, key, w), Plus(rest, hit));
      SumPlus(ks, rest, hit);
      SumOfOneHit(ks, key(x), w(x));
      FilterSnoc(init, x, KeyIn(key, ks));
      SumSnoc(Filter(init, KeyIn(key, ks)), x, w);
    }
  }

  function Zero<K>(): K -> real { k => 0.0 }

  lemma {:induction false} SumOfZero<K>(ks: seq<K>)
    ensures Sum(ks, Zero()) == 0.0
  {
    if ks != [] {
      SumOfZero(ks[..|ks| - 1]);
    }
  }

  /** With the keys of the list itself, every element is counted exactly once. */
  lemma {:induction false} SumOfAllGroups<T(!new), K>(items: seq<T>, key: T -> K, w: T -> real)
    ensures Sum(FirstSeen(items, key), GroupWeight(items, key, w)) == Sum(items, w)
  {
    var ks := FirstSeen(items, key);
    SumByGroups(ks, items, key, w);
    FilterAll(items, KeyIn(key, ks));
  }

  /** A multiplicity is a sum, so equal sums under every weight are one multiset. */
  lemma {:induction false} CountIsSum<T>(s: seq<T>, v: T)
    ensures Sum(s, Is(v)) == multiset(s)[v] as real
  {
    if s != [] {
      var n := |s| - 1;
      CountIsSum(s[..n], v);
      assert s == s[..n] + [s[n]];
    }
  }

  lemma SameSumsSameElements<T(!new)>(a: seq<T>, b: seq<T>)
    requires forall v :: Sum(a, Is(v)) == Sum(b, Is(v))
    ensures multiset(a) == multiset(b)
  {
    forall v ensures multiset(a)[v] == multiset(b)[v] {
      assert Sum(a, Is(v)) == Sum(b, Is(v));
      CountIsSum(a, v);
      CountIsSum(b, v);
    }
  }
}
