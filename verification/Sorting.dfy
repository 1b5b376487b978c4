/**
 * The stable ascending sort behind every `sort` call of the models, and the
 * median taken over it.
 */
module Sorting {
  import opened Lists

  predicate Ascending<T>(s: seq<T>, rank: T -> real) {
    forall i, j :: 0 <= i < j < |s| ==> rank(s[i]) <= rank(s[j])
  }

  function Insert<T>(s: seq<T>, x: T, rank: T -> real): seq<T> {
    if s == [] || rank(s[|s| - 1]) <= rank(x) then s + [x]
    else Insert(s[..|s| - 1], x, rank) + [s[|s| - 1]]
  }

  /** Elements of equal rank keep their order, as JavaScript's sort promises. */
  function Sort<T>(s: seq<T>, rank: T -> real): seq<T> {
    if s == [] then [] else Insert(Sort(s[..|s| - 1], rank), s[|s| - 1], rank)
  }

  lemma {:induction false} InsertKeepsElements<T>(s: seq<T>, x: T, rank: T -> real)
    ensures multiset(Insert(s, x, rank)) == multiset(s) + multiset{x}
    ensures |Insert(s, x, rank)| == |s| + 1
  {
    if s != [] && rank(s[|s| - 1]) > rank(x) {
      InsertKeepsElements(s[..|s| - 1], x, rank);
      assert s == s[..|s| - 1] + [s[|s| - 1]];
    }
  }

  lemma {:induction false} InsertKeepsOrder<T>(s: seq<T>, x: T, rank: T -> real)
    requires Ascending(s, rank)
    ensures Ascending(Insert(s, x, rank), rank)
  {
    if s != [] && rank(s[|s| - 1]) > rank(x) {
      var n := |s| - 1;
      InsertKeepsOrder(s[..n], x, rank);
      InsertKeepsElements(s[..n], x, rank);
      var r := Insert(s[..n], x, rank);
      assert forall y :: y in multiset(r) ==> y in s[..n] || y == x;
      forall i | 0 <= i < |r| ensures rank(r[i]) <= rank(s[n]) {
        assert r[i] in multiset(r);
      }
    }
  }

  lemma {:induction false} SortSorts<T>(s: seq<T>, rank: T -> real)
    ensures multiset(Sort(s, rank)) == multiset(s)
    ensures |Sort(s, rank)| == |s|
    ensures Ascending(Sort(s, rank), rank)
    ensures forall x :: x in Sort(s, rank) <==> x in s
  {
    if s != [] {
      var n := |s| - 1;
      SortSorts(s[..n], rank);
      InsertKeepsElements(Sort(s[..n], rank), s[n], rank);
      InsertKeepsOrder(Sort(s[..n], rank), s[n], rank);
      assert s == s[..n] + [s[n]];
    }
    SameMembers(Sort(s, rank), s);
  }

  lemma SameMembers<T>(a: seq<T>, b: seq<T>)
    requires multiset(a) == multiset(b)
    ensures forall x :: x in a <==> x in b
  {
    forall x ensures x in a <==> x in b {
      assert x in multiset(a) <==> x in multiset(b);
    }
  }

  function OfRank<T>(rank: T -> real, r: real): T -> bool { x => rank(x) == r }

  lemma {:induction false} InsertIsStable<T(!new)>(s: seq<T>, x: T, rank: T -> real, r: real)
    ensures Filter(Insert(s, x, rank), OfRank(rank, r)) == Filter(s + [x], OfRank(rank, r))
  {
    if s != [] && rank(s[|s| - 1]) > rank(x) {
      var init, last := s[..|s| - 1], s[|s| - 1];
      assert Filter(Insert(init, x, rank) + [last], OfRank(rank, r))
             == Filter(init + [x] + [last], OfRank(rank, r)) by {
        InsertIsStable(init, x, rank, r);
        FilterSnoc(Insert(init, x, rank), last, OfRank(rank, r));
        FilterSnoc(init + [x], last, OfRank(rank, r));
      }
      FilterSwapped(init, x, last, OfRank(rank, r));
      assert init + [last] + [x] == s + [x];
    }
  }

  /** Two elements not both kept may trade places. */
  lemma FilterSwapped<T(!new)>(s: seq<T>, x: T, y: T, keep: T -> bool)
    requires !keep(x) || !keep(y)
    ensures Filter(s + [x] + [y], keep) == Filter(s + [y] + [x], keep)
  {
    FilterSnoc(s + [x], y, keep);
    FilterSnoc(s, x, keep);
    FilterSnoc(s + [y], x, keep);
    FilterSnoc(s, y, keep);
  }

  /** Elements of one rank come out in the order they went in. */
  lemma {:induction false} SortIsStable<T(!new)>(s: seq<T>, rank: T -> real, r: real)
    ensures Filter(Sort(s, rank), OfRank(rank, r)) == Filter(s, OfRank(rank, r))
  {
    if s != [] {
      var n := |s| - 1;
      SortIsStable(s[..n], rank, r);
      InsertIsStable(Sort(s[..n], rank), s[n], rank, r);
      FilterSnoc(Sort(s[..n], rank), s[n], OfRank(rank, r));
      assert s == s[..n] + [s[n]];
      FilterSnoc(s[..n], s[n], OfRank(rank, r));
    }
  }

  /** By rank, and among equals as they came. */
  lemma SortKeepsTies<T(!new)>(s: seq<T>, rank: T -> real, p: nat, q: nat)
    requires p < q < |Sort(s, rank)|
    ensures var sorted := Sort(s, rank);
      rank(sorted[p]) < rank(sorted[q]) || (rank(sorted[p]) == rank(sorted[q]) && Precedes(s, sorted[p], sorted[q]))
  {
    var sorted := Sort(s, rank);
    SortSorts(s, rank);
    assert rank(sorted[p]) <= rank(sorted[q]);
    if rank(sorted[p]) == rank(sorted[q]) {
      var tie := OfRank(rank, rank(sorted[p]));
      KeptInOrder(sorted, tie, p, q);
      SortIsStable(s, rank, rank(sorted[p]));
      var a, b :| 0 <= a < b < |Kept(sorted, tie)|
                  && Kept(sorted, tie)[a] == sorted[p] && Kept(sorted, tie)[b] == sorted[q];
      assert Kept(sorted, tie) == Filter(s, tie) == Kept(s, tie);
      KeptKeepsOrder(s, tie, a, b);
    }
  }

  function Itself(x: real): real { x }

  /** The last of an ascending list is the largest of its elements. */
  lemma LastIsLargest(s: seq<real>, x: real)
    requires Ascending(s, Itself) && x in multiset(s)
    ensures s != [] && x <= s[|s| - 1]
    ensures multiset(s[..|s| - 1]) == multiset(s) - multiset{s[|s| - 1]}
  {
    var i :| 0 <= i < |s| && s[i] == x;
    assert Itself(s[i]) <= Itself(s[|s| - 1]);
    assert s == s[..|s| - 1] + [s[|s| - 1]];
  }

  /** Two ascending lists of the same numbers are the same list. */
  lemma {:induction false} AscendingIsUnique(a: seq<real>, b: seq<real>)
    requires Ascending(a, Itself) && Ascending(b, Itself)
    requires multiset(a) == multiset(b)
    ensures a == b
  {
    SameElementsSameSize(a, b);
    if a != [] {
      SameLast(a, b);
      AscendingIsUnique(a[..|a| - 1], b[..|b| - 1]);
      assert a == a[..|a| - 1] + [a[|a| - 1]] == b[..|b| - 1] + [b[|b| - 1]] == b;
    }
  }

  lemma SameLast(a: seq<real>, b: seq<real>)
    requires Ascending(a, Itself) && Ascending(b, Itself)
    requires multiset(a) == multiset(b) && a != [] && b != []
    ensures a[|a| - 1] == b[|b| - 1]
    ensures multiset(a[..|a| - 1]) == multiset(b[..|b| - 1])
  {
    LastIsLargest(a, a[|a| - 1]);
    LastIsLargest(b, b[|b| - 1]);
    LastIsLargest(a, b[|b| - 1]);
    LastIsLargest(b, a[|a| - 1]);
  }

  lemma SameElementsSameSize<T>(a: seq<T>, b: seq<T>)
    requires multiset(a) == multiset(b)
    ensures |a| == |b|
  {
    assert |multiset(a)| == |a| && |multiset(b)| == |b|;
  }

  /** The middle of the sorted values, or the mean of the two middles; 0 of none. */
  function Median(values: seq<real>): real {
    if values == [] then 0.0
    else
      var sorted := Sort(values, Itself);
      SortSorts(values, Itself);
      Middle(sorted)
  }

  function Middle(sorted: seq<real>): real
    requires sorted != []
  {
    var mid := |sorted| / 2;
    if |sorted| % 2 == 0 then (sorted[mid - 1] + sorted[mid]) / 2.0 else sorted[mid]
  }

  /** The middle of a list in order, or halfway between its two middles. */
  predicate IsMiddleOf(v: real, sorted: seq<real>) {
    && sorted != []
    && if |sorted| % 2 == 1 then v == sorted[|sorted| / 2]
       else v + v == sorted[|sorted| / 2 - 1] + sorted[|sorted| / 2]
  }

  /** Put in order, the values have this one in the middle. */
  ghost predicate IsMedianOf(v: real, values: seq<real>) {
    exists sorted :: multiset(sorted) == multiset(values) && IsMiddleOf(v, sorted)
                     && forall i, j :: 0 <= i < j < |sorted| ==> sorted[i] <= sorted[j]
  }

  lemma MedianIsMiddle(values: seq<real>)
    requires values != []
    ensures IsMedianOf(Median(values), values)
  {
    var sorted := Sort(values, Itself);
    SortSorts(values, Itself);
    assert IsMiddleOf(Median(values), sorted);
    forall i, j | 0 <= i < j < |sorted| ensures sorted[i] <= sorted[j] {
      assert Itself(sorted[i]) <= Itself(sorted[j]);
    }
  }

  /** A median is of the values alone, whatever order they were gathered in. */
  lemma MedianOfPermutation(a: seq<real>, b: seq<real>)
    requires multiset(a) == multiset(b)
    ensures Median(a) == Median(b)
  {
    SortSorts(a, Itself);
    SortSorts(b, Itself);
    AscendingIsUnique(Sort(a, Itself), Sort(b, Itself));
    SameElementsSameSize(a, b);
  }

  function Below(m: real): real -> bool { x => x < m }

  function Above(m: real): real -> bool { x => x > m }

  /** What makes it a median: at most half the values on either side of it. */
  lemma MedianHalves(values: seq<real>)
    ensures 2 * |Filter(values, Below(Median(values)))| <= |values|
    ensures 2 * |Filter(values, Above(Median(values)))| <= |values|
  {
    if values != [] {
      var sorted, m := Sort(values, Itself), Median(values);
      SortSorts(values, Itself);
      MiddleHalves(sorted);
      FilterOfPermutation(values, sorted, Below(m));
      FilterOfPermutation(values, sorted, Above(m));
    }
  }

  lemma MiddleHalves(sorted: seq<real>)
    requires sorted != [] && Ascending(sorted, Itself)
    ensures 2 * |Filter(sorted, Below(Middle(sorted)))| <= |sorted|
    ensures 2 * |Filter(sorted, Above(Middle(sorted)))| <= |sorted|
  {
    var m := Middle(sorted);
    var mid := |sorted| / 2;
    var half := if |sorted| % 2 == 0 then mid else mid + 1;
    assert |sorted| % 2 == 0 ==> Itself(sorted[mid - 1]) <= Itself(sorted[mid]);
    forall i | mid <= i < |sorted| ensures !Below(m)(sorted[i]) {
      assert i > mid ==> Itself(sorted[mid]) <= Itself(sorted[i]);
    }
    forall i | 0 <= i < half ensures !Above(m)(sorted[i]) {
      assert i < half - 1 ==> Itself(sorted[i]) <= Itself(sorted[half - 1]);
    }
    FilterNoneFrom(sorted, mid, Below(m));
    FilterNoneBefore(sorted, half, Above(m));
  }

  lemma FilterOfPermutation<T(!new)>(a: seq<T>, b: seq<T>, p: T -> bool)
    requires multiset(a) == multiset(b)
    ensures |Filter(a, p)| == |Filter(b, p)|
    ensures multiset(Filter(a, p)) == multiset(Filter(b, p))
  {
    FilterMultiset(a, p);
    FilterMultiset(b, p);
    forall x ensures multiset(Filter(a, p))[x] == multiset(Filter(b, p))[x] {
      assert multiset(a)[x] == multiset(b)[x];
    }
    assert multiset(Filter(a, p)) == multiset(Filter(b, p));
    SameElementsSameSize(Filter(a, p), Filter(b, p));
  }

  lemma {:induction false} FilterMultiset<T(!new)>(s: seq<T>, p: T -> bool)
    ensures forall x :: multiset(Filter(s, p))[x] == if p(x) then multiset(s)[x] else 0
  {
    if s != [] {
      var n := |s| - 1;
      FilterMultiset(s[..n], p);
      assert s == s[..n] + [s[n]];
    }
  }

  lemma {:induction false} FilterNoneFrom<T(!new)>(s: seq<T>, k: nat, p: T -> bool)
    requires k <= |s| && forall i :: k <= i < |s| ==> !p(s[i])
    ensures |Filter(s, p)| <= k
  {
    if |s| > k {
      FilterNoneFrom(s[..|s| - 1], k, p);
    }
  }

  lemma {:induction false} FilterNoneBefore<T(!new)>(s: seq<T>, k: nat, p: T -> bool)
    requires k <= |s| && forall i :: 0 <= i < k ==> !p(s[i])
    ensures |Filter(s, p)| <= |s| - k
  {
    if s != [] {
      FilterNoneBefore(s[..|s| - 1], if k < |s| then k else k - 1, p);
    }
  }
}
