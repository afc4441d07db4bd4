// The stable sort of an array by a comparator, as Array.sort does it.
module Sorting {

  /** x after every element that may stand before it. */
  function InsertBy<T>(le: (T, T) -> bool, sorted: seq<T>, x: T): seq<T> {
    if sorted == [] then [x]
    else
      var last := |sorted| - 1;
      if le(sorted[last], x) then sorted + [x] else InsertBy(le, sorted[..last], x) + [sorted[last]]
  }

  function SortBy<T>(le: (T, T) -> bool, s: seq<T>): seq<T> {
    if s == [] then [] else InsertBy(le, SortBy(le, s[..|s| - 1]), s[|s| - 1])
  }

  ghost predicate TotalPreorder<T(!new)>(le: (T, T) -> bool) {
    (forall a, b :: le(a, b) || le(b, a)) && (forall a, b, c :: le(a, b) && le(b, c) ==> le(a, c))
  }

  ghost predicate Sorted<T>(le: (T, T) -> bool, s: seq<T>) {
    forall i, j :: 0 <= i < j < |s| ==> le(s[i], s[j])
  }

  lemma {:induction false} InsertKeeps<T>(le: (T, T) -> bool, sorted: seq<T>, x: T)
    ensures multiset(InsertBy(le, sorted, x)) == multiset(sorted) + multiset{x}
  {
    if sorted != [] {
      var last := |sorted| - 1;
      assert sorted == sorted[..last] + [sorted[last]];
      if !le(sorted[last], x) {
        InsertKeeps(le, sorted[..last], x);
      }
    }
  }

  lemma {:induction false} InsertOrders<T(!new)>(le: (T, T) -> bool, sorted: seq<T>, x: T)
    requires TotalPreorder(le) && Sorted(le, sorted)
    ensures Sorted(le, InsertBy(le, sorted, x))
  {
    if sorted != [] {
      var last := |sorted| - 1;
      if le(sorted[last], x) {
        forall i | 0 <= i < |sorted| ensures le(sorted[i], x) {
          assert i == last || le(sorted[i], sorted[last]);
        }
      } else {
        var r := InsertBy(le, sorted[..last], x);
        InsertOrders(le, sorted[..last], x);
        InsertKeeps(le, sorted[..last], x);
        forall i | 0 <= i < |r| ensures le(r[i], sorted[last]) {
          assert r[i] in multiset(r);
          if r[i] != x {
            assert r[i] in multiset(sorted[..last]);
          }
        }
      }
    }
  }

  /** Sorting keeps every element and puts them in order. */
  lemma {:induction false} SortKeeps<T>(le: (T, T) -> bool, s: seq<T>)
    ensures multiset(SortBy(le, s)) == multiset(s)
    ensures |SortBy(le, s)| == |s|
    ensures forall x :: x in SortBy(le, s) <==> x in s
  {
    if s != [] {
      var last := |s| - 1;
      SortKeeps(le, s[..last]);
      InsertKeeps(le, SortBy(le, s[..last]), s[last]);
      assert s == s[..last] + [s[last]];
    }
    var r := SortBy(le, s);
    assert |r| == |multiset(r)| == |multiset(s)|;
    forall x ensures x in r <==> x in s {
      assert x in r <==> x in multiset(r);
    }
  }

  lemma {:induction false} SortOrders<T(!new)>(le: (T, T) -> bool, s: seq<T>)
    requires TotalPreorder(le)
    ensures Sorted(le, SortBy(le, s))
  {
    if s != [] {
      SortOrders(le, s[..|s| - 1]);
      InsertOrders(le, SortBy(le, s[..|s| - 1]), s[|s| - 1]);
    }
  }
}
