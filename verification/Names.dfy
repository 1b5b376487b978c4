/** Lists of names in the order JavaScript's plain `sort` gives strings. */
module Names {
  import opened Lists

  /** Character by character; a name comes after its own beginnings. */
  predicate Before(a: string, b: string) {
    b != "" && (a == "" || a[0] < b[0] || (a[0] == b[0] && Before(a[1..], b[1..])))
  }

  lemma {:induction false} BeforeIsTransitive(a: string, b: string, c: string)
    requires Before(a, b) && Before(b, c)
    ensures Before(a, c)
  {
    if a != "" && a[0] == b[0] == c[0] {
      BeforeIsTransitive(a[1..], b[1..], c[1..]);
    }
  }

  lemma {:induction false} BeforeIsTotal(a: string, b: string)
    ensures a == b || Before(a, b) || Before(b, a)
    ensures !Before(a, a)
    ensures Before(a, b) ==> !Before(b, a)
  {
    if a != "" {
      BeforeIsTotal(a[1..], a[1..]);
      if b != "" && a[0] == b[0] {
        BeforeIsTotal(a[1..], b[1..]);
        assert a == [a[0]] + a[1..] && b == [b[0]] + b[1..];
      }
    }
  }

  /** One name stops short of the other, or differs from it first by a lower character. */
  predicate FirstDiffersAt(k: int, a: string, b: string) {
    && 0 <= k <= |a| && k < |b| && a[..k] == b[..k]
    && (k == |a| || a[k] < b[k])
  }

  lemma {:induction false} BeforeIffDiffers(a: string, b: string)
    ensures Before(a, b) <==> exists k :: FirstDiffersAt(k, a, b)
  {
    if a == "" || b == "" || a[0] != b[0] {
      if Before(a, b) {
        assert FirstDiffersAt(0, a, b);
      }
      if k :| FirstDiffersAt(k, a, b) {
        assert k > 0 ==> a[..k][0] == b[..k][0];
      }
    } else {
      BeforeIffDiffers(a[1..], b[1..]);
      if Before(a, b) {
        var k :| FirstDiffersAt(k, a[1..], b[1..]);
        assert a[..k + 1] == [a[0]] + a[1..][..k] && b[..k + 1] == [b[0]] + b[1..][..k];
        assert FirstDiffersAt(k + 1, a, b);
      }
      if k :| FirstDiffersAt(k, a, b) {
        assert a[1..][..k - 1] == a[..k][1..] && b[1..][..k - 1] == b[..k][1..];
        assert FirstDiffersAt(k - 1, a[1..], b[1..]);
      }
    }
  }

  predicate Alphabetical(s: seq<string>) {
    forall i, j :: 0 <= i < j < |s| ==> Before(s[i], s[j])
  }

  /** Exactly these names, once each, in order. */
  ghost predicate IsListOf(s: seq<string>, names: set<string>) {
    Alphabetical(s) && forall x :: x in s <==> x in names
  }

  function InsertName(s: seq<string>, x: string): seq<string> {
    if s == [] || Before(s[|s| - 1], x) then s + [x]
    else InsertName(s[..|s| - 1], x) + [s[|s| - 1]]
  }

  function SortNames(s: seq<string>): seq<string> {
    if s == [] then [] else InsertName(SortNames(s[..|s| - 1]), s[|s| - 1])
  }

  lemma {:induction false} InsertKeepsNames(s: seq<string>, x: string)
    ensures forall y :: y in InsertName(s, x) <==> y in s || y == x
  {
    if s != [] && !Before(s[|s| - 1], x) {
      InsertKeepsNames(s[..|s| - 1], x);
      assert s == s[..|s| - 1] + [s[|s| - 1]];
    }
  }

  lemma {:induction false} InsertIsAlphabetical(s: seq<string>, x: string)
    requires Alphabetical(s) && x !in s
    ensures Alphabetical(InsertName(s, x))
  {
    if s == [] {
    } else if Before(s[|s| - 1], x) {
      forall i | 0 <= i < |s| ensures Before(s[i], x) {
        if i < |s| - 1 {
          BeforeIsTransitive(s[i], s[|s| - 1], x);
        }
      }
    } else {
      var n := |s| - 1;
      InsertIsAlphabetical(s[..n], x);
      InsertKeepsNames(s[..n], x);
      BeforeIsTotal(x, s[n]);
      var r := InsertName(s[..n], x);
      forall i | 0 <= i < |r| ensures Before(r[i], s[n]) {
        assert r[i] in r;
      }
    }
  }

  lemma {:induction false} SortNamesLists(s: seq<string>)
    requires NoDuplicates(s)
    ensures IsListOf(SortNames(s), set x | x in s)
  {
    if s != [] {
      var n := |s| - 1;
      SortNamesLists(s[..n]);
      assert s == s[..n] + [s[n]];
      assert s[n] !in s[..n];
      InsertIsAlphabetical(SortNames(s[..n]), s[n]);
      InsertKeepsNames(SortNames(s[..n]), s[n]);
    }
  }

  lemma LastIsGreatest(s: seq<string>, x: string)
    requires Alphabetical(s) && x in s
    ensures x == s[|s| - 1] || Before(x, s[|s| - 1])
    ensures x == s[|s| - 1] <==> x !in s[..|s| - 1]
  {
    var i :| 0 <= i < |s| && s[i] == x;
    BeforeIsTotal(x, x);
    if x in s[..|s| - 1] {
      var j :| 0 <= j < |s| - 1 && s[j] == x;
      assert Before(s[j], s[|s| - 1]);
    }
  }

  ghost predicate SameNames(a: seq<string>, b: seq<string>) {
    forall x :: x in a <==> x in b
  }

  /** A set of names has one list: whoever builds it, and from whatever order. */
  lemma {:induction false} ListIsUnique(a: seq<string>, b: seq<string>)
    requires Alphabetical(a) && Alphabetical(b)
    requires SameNames(a, b)
    ensures a == b
  {
    SameEmptiness(a, b);
    if a != [] {
      var x := a[|a| - 1];
      assert x in a && b[|b| - 1] in b;
      LastIsGreatest(b, x);
      LastIsGreatest(a, b[|b| - 1]);
      BeforeIsTotal(x, b[|b| - 1]);
      SameBeforeLast(a, b);
      ListIsUnique(a[..|a| - 1], b[..|b| - 1]);
      assert a == a[..|a| - 1] + [x] && b == b[..|b| - 1] + [x];
    }
  }

  lemma SameBeforeLast(a: seq<string>, b: seq<string>)
    requires a != [] && b != [] && Alphabetical(a) && Alphabetical(b) && a[|a| - 1] == b[|b| - 1]
    requires SameNames(a, b)
    ensures SameNames(a[..|a| - 1], b[..|b| - 1])
  {
    var c, d := a[..|a| - 1], b[..|b| - 1];
    forall x ensures x in c <==> x in d {
      if x in a {
        LastIsGreatest(a, x);
        LastIsGreatest(b, x);
      } else {
        assert x !in c && x !in d by { assert x !in b; }
      }
    }
  }

  lemma SameEmptiness(a: seq<string>, b: seq<string>)
    requires SameNames(a, b)
    ensures a == [] <==> b == []
  {
    if a != [] {
      assert a[0] in b;
    }
    if b != [] {
      assert b[0] in a;
    }
  }
}
