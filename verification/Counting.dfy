// How many different numbers there can be.
module Counting {

  predicate Different(s: seq<nat>) {
    forall i, j :: 0 <= i < j < |s| ==> s[i] != s[j]
  }

  function Elements<T(!new)>(s: seq<T>): (r: set<T>)
    ensures forall x :: x in r <==> x in s
  {
    set x <- s
  }

  function Below(n: nat): (r: set<nat>)
    ensures |r| == n && forall k: nat :: k in r <==> k < n
  {
    if n == 0 then {} else Below(n - 1) + {n - 1}
  }

  lemma SubsetSmaller<T>(a: set<T>, b: set<T>)
    requires a <= b
    ensures |a| <= |b|
  {
    assert b == a + (b - a);
  }

  /** A list without repeats is as long as its set of elements. */
  lemma {:induction false} CountDifferent<T(!new)>(s: seq<T>)
    requires forall i, j :: 0 <= i < j < |s| ==> s[i] != s[j]
    ensures |Elements(s)| == |s|
  {
    if s != [] {
      var init, last := s[..|s| - 1], s[|s| - 1];
      CountDifferent(init);
      assert s == init + [last];
      assert Elements(s) == Elements(init) + {last};
      assert last !in Elements(init);
    }
  }

  lemma {:induction false} ElementsAtMost<T(!new)>(s: seq<T>)
    ensures |Elements(s)| <= |s|
  {
    if s != [] {
      var init, last := s[..|s| - 1], s[|s| - 1];
      ElementsAtMost(init);
      assert s == init + [last];
      assert Elements(s) == Elements(init) + {last};
    }
  }

  /** Put in another order, a list without repeats has none. */
  lemma StillDifferent<T(!new)>(a: seq<T>, b: seq<T>)
    requires forall i, j :: 0 <= i < j < |a| ==> a[i] != a[j]
    requires |a| == |b| && forall x :: x in a <==> x in b
    ensures forall i, j :: 0 <= i < j < |b| ==> b[i] != b[j]
  {
    CountDifferent(a);
    assert Elements(a) == Elements(b);
    forall i, j | 0 <= i < j < |b| ensures b[i] != b[j] {
      var rest := b[..j] + b[j + 1..];
      ElementsAtMost(rest);
      assert b == b[..j] + [b[j]] + b[j + 1..];
      assert rest[i] == b[i];
      assert Elements(b) == Elements(rest) + {b[j]};
    }
  }

  /** Different elements of a list without repeats are no more than it has. */
  lemma DifferentAmong<T(!new)>(s: seq<T>, all: seq<T>)
    requires forall i, j :: 0 <= i < j < |s| ==> s[i] != s[j]
    requires forall i, j :: 0 <= i < j < |all| ==> all[i] != all[j]
    requires forall x <- s :: x in all
    ensures |s| <= |all|
  {
    CountDifferent(s);
    CountDifferent(all);
    SubsetSmaller(Elements(s), Elements(all));
  }

  /** Different numbers below n are at most n. */
  lemma DifferentBelow(s: seq<nat>, n: nat)
    requires Different(s) && forall i :: 0 <= i < |s| ==> s[i] < n
    ensures |s| <= n
  {
    CountDifferent(s);
    SubsetSmaller(Elements(s), Below(n));
  }

  /** The numbers below n that p picks, in order. */
  function Picked(n: nat, p: nat -> bool): (r: seq<nat>)
    ensures forall i: nat :: i in r <==> i < n && p(i)
    ensures forall j, k :: 0 <= j < k < |r| ==> r[j] < r[k]
  {
    if n == 0 then []
    else
      var before := Picked(n - 1, p);
      assert forall k :: 0 <= k < |before| ==> before[k] in before;
      before + if p(n - 1) then [n - 1] else []
  }

  /** Where a value stands in a list. */
  function Position<T(==)>(s: seq<T>, x: T): (k: nat)
    requires x in s
    ensures k < |s| && s[k] == x
    ensures forall j :: 0 <= j < k ==> s[j] != x
  {
    if s[0] == x then 0 else 1 + Position(s[1..], x)
  }
}
