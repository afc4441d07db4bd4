// The column solver of ui/src/diagramSequence.ts: each lifeline's x, from the
// least distances that have to lie between them.
module SequenceColumns {
  import opened Geometry
  import opened Sorting

  /** Lifelines a and b stand at least need apart. */
  datatype Constraint = Constraint(a: nat, b: nat, need: real)

  predicate Spans(n: nat, cons: seq<Constraint>) {
    forall c <- cons :: c.a < c.b < n
  }

  function Span(c: Constraint): int {
    c.b - c.a
  }

  /** The sort's order: the narrowest first. */
  predicate NoWider(p: Constraint, q: Constraint) {
    Span(p) <= Span(q)
  }

  function SortBySpan(cons: seq<Constraint>): seq<Constraint> {
    SortBy(NoWider, cons)
  }

  lemma SortedSpans(n: nat, cons: seq<Constraint>)
    requires Spans(n, cons)
    ensures Spans(n, SortBySpan(cons))
  {
    SortKeeps(NoWider, cons);
  }

  /** The room gaps a up to b give. */
  function Sum(gap: seq<real>, a: nat, b: nat): real
    requires a <= b <= |gap|
  {
    if a == b then 0.0 else Sum(gap, a, b - 1) + gap[b - 1]
  }

  /** Gaps a up to b each wider by add. */
  function Raise(gap: seq<real>, a: nat, b: nat, add: real): (r: seq<real>)
    requires a <= b <= |gap|
    ensures |r| == |gap|
  {
    seq(|gap|, i requires 0 <= i < |gap| => if a <= i < b then gap[i] + add else gap[i])
  }

  function Meet(gap: seq<real>, c: Constraint): (r: seq<real>)
    requires c.a < c.b <= |gap|
    ensures |r| == |gap|
  {
    var have := Sum(gap, c.a, c.b);
    if have >= c.need then gap else Raise(gap, c.a, c.b, (c.need - have) / Span(c) as real)
  }

  function MeetAll(gap: seq<real>, cons: seq<Constraint>): (r: seq<real>)
    requires Spans(|gap| + 1, cons)
    ensures |r| == |gap|
  {
    if cons == [] then gap else Meet(MeetAll(gap, cons[..|cons| - 1]), cons[|cons| - 1])
  }

  /** The lifelines' xs, the first at 0, each gap rounded up to a whole pixel. */
  function Positions(gap: seq<real>): (xs: seq<real>)
    ensures |xs| == |gap| + 1
  {
    if gap == [] then [0.0]
    else
      var xs := Positions(gap[..|gap| - 1]);
      xs + [xs[|xs| - 1] + Up(gap[|gap| - 1])]
  }

  function ColumnsOf(n: nat, cons: seq<Constraint>): (xs: seq<real>)
    requires n >= 1 && Spans(n, cons)
    ensures |xs| == n
  {
    SortedSpans(n, cons);
    Positions(MeetAll(seq(n - 1, _ => 0.0), SortBySpan(cons)))
  }

  /** Meets one constraint in place. */
  method MeetInPlace(gap: array<real>, c: Constraint)
    requires c.a < c.b <= gap.Length
    modifies gap
    ensures gap[..] == Meet(old(gap[..]), c)
  {
    ghost var before := gap[..];
    var have := 0.0;
    for i := c.a to c.b
      invariant have == Sum(before, c.a, i)
      invariant gap[..] == before
    {
      assert gap[i] == before[i];
      have := have + gap[i];
    }
    if have < c.need {
      var add := (c.need - have) / Span(c) as real;
      for i := c.a to c.b
        invariant forall k :: 0 <= k < gap.Length ==> gap[k] == if c.a <= k < i then before[k] + add else before[k]
      {
        gap[i] := gap[i] + add;
      }
      assert gap[..] == Raise(before, c.a, c.b, add);
    }
  }

  method Columns(n: nat, cons: seq<Constraint>) returns (xs: seq<real>)
    requires n >= 1 && Spans(n, cons)
    ensures xs == ColumnsOf(n, cons)
  {
    hide SortBySpan;
    var gap := new real[n - 1](_ => 0.0);
    var sorted := SortBySpan(cons);
    SortedSpans(n, cons);
    ghost var zero := seq(n - 1, _ => 0.0);
    assert gap[..] == zero;
    for k := 0 to |sorted|
      invariant gap[..] == MeetAll(zero, sorted[..k])
    {
      assert sorted[..k + 1][..k] == sorted[..k];
      MeetInPlace(gap, sorted[k]);
    }
    assert sorted[..|sorted|] == sorted;
    xs := [0.0];
    for k := 0 to gap.Length
      invariant xs == Positions(gap[..k])
    {
      assert gap[..k + 1][..k] == gap[..k];
      xs := xs + [xs[|xs| - 1] + Up(gap[k])];
    }
    assert gap[..gap.Length] == gap[..];
  }

  // ---- what the columns achieve ----

  predicate AtLeast(lo: seq<real>, hi: seq<real>) {
    |lo| == |hi| && forall i :: 0 <= i < |lo| ==> lo[i] <= hi[i]
  }

  lemma Distribute(k: nat, add: real)
    ensures (k + 1) as real * add == k as real * add + add
  {
    assert (k + 1) as real == k as real + 1.0;
  }

  lemma {:induction false} SumRaise(gap: seq<real>, a: nat, b: nat, k: nat, add: real)
    requires a <= k <= b <= |gap|
    ensures Sum(Raise(gap, a, b, add), a, k) == Sum(gap, a, k) + (k - a) as real * add
  {
    if k > a {
      var r := Raise(gap, a, b, add);
      SumRaise(gap, a, b, k - 1, add);
      Distribute(k - 1 - a, add);
      assert r[k - 1] == gap[k - 1] + add;
      assert Sum(r, a, k) == Sum(r, a, k - 1) + r[k - 1];
    }
  }

  lemma DivMul(x: real, n: real)
    requires n > 0.0
    ensures n * (x / n) == x
    ensures x > 0.0 ==> x / n > 0.0
  {
  }

  /** One constraint met: no gap shrinks, the gaps outside its span stand, those
      inside widen alike, and its span comes to what it needs, no more. */
  lemma MeetMeets(gap: seq<real>, c: Constraint)
    requires c.a < c.b <= |gap|
    ensures AtLeast(gap, Meet(gap, c))
    ensures Sum(Meet(gap, c), c.a, c.b) == Max(Sum(gap, c.a, c.b), c.need)
    ensures forall i :: 0 <= i < |gap| && !(c.a <= i < c.b) ==> Meet(gap, c)[i] == gap[i]
    ensures forall i, j :: c.a <= i < c.b && c.a <= j < c.b
                           ==> Meet(gap, c)[i] - gap[i] == Meet(gap, c)[j] - gap[j]
  {
    MeetSum(gap, c);
    hide Sum;
    var have := Sum(gap, c.a, c.b);
    if have < c.need {
      DivMul(c.need - have, Span(c) as real);
    }
  }

  lemma MeetSum(gap: seq<real>, c: Constraint)
    requires c.a < c.b <= |gap|
    ensures Sum(Meet(gap, c), c.a, c.b) == Max(Sum(gap, c.a, c.b), c.need)
  {
    hide Sum, Raise;
    var have := Sum(gap, c.a, c.b);
    if have < c.need {
      DivMul(c.need - have, Span(c) as real);
      SumRaise(gap, c.a, c.b, c.b, (c.need - have) / Span(c) as real);
    }
  }

  lemma {:induction false} SumMonotone(lo: seq<real>, hi: seq<real>, a: nat, b: nat)
    requires AtLeast(lo, hi) && a <= b <= |lo|
    ensures Sum(lo, a, b) <= Sum(hi, a, b)
  {
    if a < b {
      SumMonotone(lo, hi, a, b - 1);
    }
  }

  lemma {:induction false} MeetAllMeets(gap: seq<real>, cons: seq<Constraint>)
    requires Spans(|gap| + 1, cons)
    ensures AtLeast(gap, MeetAll(gap, cons))
    ensures forall c <- cons :: c.a < c.b <= |gap| && Sum(MeetAll(gap, cons), c.a, c.b) >= c.need
  {
    if cons != [] {
      var init, last := cons[..|cons| - 1], cons[|cons| - 1];
      MeetAllMeets(gap, init);
      var before := MeetAll(gap, init);
      MeetMeets(before, last);
      forall c | c in cons ensures c.a < c.b <= |gap| && Sum(MeetAll(gap, cons), c.a, c.b) >= c.need {
        if c in init {
          SumMonotone(before, Meet(before, last), c.a, c.b);
        } else {
          assert c == last;
        }
      }
    }
  }

  lemma {:induction false} PositionsApart(gap: seq<real>, a: nat, b: nat)
    requires a <= b <= |gap|
    ensures Positions(gap)[b] - Positions(gap)[a] >= Sum(gap, a, b)
  {
    if b < |gap| {
      var init := gap[..|gap| - 1];
      PositionsApart(init, a, b);
      SumPrefix(gap, init, a, b);
    } else if a < b {
      var init := gap[..|gap| - 1];
      PositionsApart(init, a, b - 1);
      SumPrefix(gap, init, a, b - 1);
    }
  }

  lemma {:induction false} SumPrefix(gap: seq<real>, init: seq<real>, a: nat, b: nat)
    requires a <= b <= |init| <= |gap| && gap[..|init|] == init
    ensures Sum(gap, a, b) == Sum(init, a, b)
  {
    if a < b {
      SumPrefix(gap, init, a, b - 1);
      assert gap[..|init|][b - 1] == init[b - 1];
    }
  }

  /** Every constraint is met by the columns, and the first lifeline is at 0. */
  lemma ColumnsMeet(n: nat, cons: seq<Constraint>)
    requires n >= 1 && Spans(n, cons)
    ensures ColumnsOf(n, cons)[0] == 0.0
    ensures forall c <- cons :: c.a < c.b < n && ColumnsOf(n, cons)[c.b] - ColumnsOf(n, cons)[c.a] >= c.need
  {
    SortedSpans(n, cons);
    SortKeeps(NoWider, cons);
    var zero, sorted := seq(n - 1, _ => 0.0), SortBySpan(cons);
    var gap := MeetAll(zero, sorted);
    MeetAllMeets(zero, sorted);
    FirstAtZero(gap);
    forall c | c in cons ensures c.a < c.b < n && Positions(gap)[c.b] - Positions(gap)[c.a] >= c.need {
      assert c in sorted;
      PositionsApart(gap, c.a, c.b);
    }
  }

  lemma {:induction false} FirstAtZero(gap: seq<real>)
    ensures Positions(gap)[0] == 0.0
  {
    if gap != [] {
      FirstAtZero(gap[..|gap| - 1]);
    }
  }

  lemma {:induction false} SumNonNegative(gap: seq<real>, a: nat, b: nat)
    requires a <= b <= |gap| && forall i :: 0 <= i < |gap| ==> gap[i] >= 0.0
    ensures Sum(gap, a, b) >= 0.0
  {
    if a < b {
      SumNonNegative(gap, a, b - 1);
    }
  }

  predicate Whole(x: real) {
    x == x.Floor as real
  }

  lemma {:induction false} PositionsWhole(gap: seq<real>)
    ensures forall x <- Positions(gap) :: Whole(x)
  {
    if gap != [] {
      var init := Positions(gap[..|gap| - 1]);
      PositionsWhole(gap[..|gap| - 1]);
      assert init[|init| - 1] in init;
      WholeSum(init[|init| - 1], Up(gap[|gap| - 1]));
    }
  }

  lemma WholeSum(x: real, y: real)
    requires Whole(x) && Whole(y)
    ensures Whole(x + y)
  {
    assert x + y == (x.Floor + y.Floor) as real;
  }

  /** The lifelines stand left to right from 0, each at a whole pixel. */
  lemma ColumnsAscend(n: nat, cons: seq<Constraint>, i: nat, j: nat)
    requires n >= 1 && Spans(n, cons) && i <= j < n
    ensures var xs := ColumnsOf(n, cons); xs[0] == 0.0 <= xs[i] <= xs[j] && Whole(xs[j])
  {
    Ascend(n, cons, 0, i);
    Ascend(n, cons, i, j);
    SortedSpans(n, cons);
    FirstAtZero(MeetAll(seq(n - 1, _ => 0.0), SortBySpan(cons)));
    PositionsWhole(MeetAll(seq(n - 1, _ => 0.0), SortBySpan(cons)));
  }

  lemma Ascend(n: nat, cons: seq<Constraint>, i: nat, j: nat)
    requires n >= 1 && Spans(n, cons) && i <= j < n
    ensures ColumnsOf(n, cons)[i] <= ColumnsOf(n, cons)[j]
  {
    SortedSpans(n, cons);
    var zero := seq(n - 1, _ => 0.0);
    var gap := MeetAll(zero, SortBySpan(cons));
    MeetAllMeets(zero, SortBySpan(cons));
    SumNonNegative(gap, i, j);
    PositionsApart(gap, i, j);
  }

  // ---- narrowest first ----

  /** A constraint widened every gap it spans alike, to what it needs and no more, and no
      other gap. */
  predicate Shares(before: seq<real>, after: seq<real>, c: Constraint)
    requires c.a < c.b <= |before| == |after|
  {
    && Sum(after, c.a, c.b) == Max(Sum(before, c.a, c.b), c.need)
    && (forall i, j :: c.a <= i < c.b && c.a <= j < c.b ==> after[i] - before[i] == after[j] - before[j])
    && (forall i :: 0 <= i < |before| && !(c.a <= i < c.b) ==> after[i] == before[i])
  }

  lemma MeetShares(gap: seq<real>, c: Constraint)
    requires c.a < c.b <= |gap|
    ensures Shares(gap, Meet(gap, c), c)
  {
    hide Meet, Sum;
    MeetMeets(gap, c);
  }

  /** The gaps once the k narrowest constraints are met. */
  function GapsAfter(n: nat, cons: seq<Constraint>, k: nat): (gap: seq<real>)
    requires n >= 1 && Spans(n, cons) && k <= |SortBySpan(cons)|
    ensures |gap| == n - 1
  {
    SortedSpans(n, cons);
    MeetAll(seq(n - 1, _ => 0.0), SortBySpan(cons)[..k])
  }

  /** Whatever the constraints, each is met after all the narrower ones, and shares what it
      then lacks alike. */
  lemma EachSharesAlike(n: nat, cons: seq<Constraint>, k: nat)
    requires n >= 1 && Spans(n, cons) && k < |cons|
    ensures |SortBySpan(cons)| == |cons| && SortBySpan(cons)[k] in cons
    ensures forall c <- cons :: Span(c) < Span(SortBySpan(cons)[k]) ==> c in SortBySpan(cons)[..k]
    ensures SortBySpan(cons)[k].a < SortBySpan(cons)[k].b < n
    ensures Shares(GapsAfter(n, cons, k), GapsAfter(n, cons, k + 1), SortBySpan(cons)[k])
  {
    hide SortBySpan, Shares, Meet;
    var sorted := SortBySpan(cons);
    SortedSpans(n, cons);
    SpanOrder(cons);
    assert sorted[k] in sorted;
    assert sorted[..k + 1][..k] == sorted[..k];
    MeetShares(GapsAfter(n, cons, k), sorted[k]);
    forall c | c in cons && Span(c) < Span(sorted[k]) ensures c in sorted[..k] {
      var i :| 0 <= i < |sorted| && sorted[i] == c;
      assert i < k ==> sorted[..k][i] == c;
    }
  }

  lemma SpanOrder(cons: seq<Constraint>)
    ensures |SortBySpan(cons)| == |cons| && forall c :: c in SortBySpan(cons) <==> c in cons
    ensures forall i, j :: 0 <= i < j < |cons| ==> Span(SortBySpan(cons)[i]) <= Span(SortBySpan(cons)[j])
  {
    SortKeeps(NoWider, cons);
    SortOrders(NoWider, cons);
  }

  predicate Units(cons: seq<Constraint>) {
    forall c <- cons :: Span(c) == 1
  }

  lemma {:induction false} UnitsSorted(cons: seq<Constraint>)
    requires Units(cons)
    ensures SortBySpan(cons) == cons
  {
    if cons != [] {
      var init, last := cons[..|cons| - 1], cons[|cons| - 1];
      UnitsSorted(init);
      assert cons == init + [last];
      if init != [] {
        assert init[|init| - 1] in cons && last in cons;
      }
    }
  }

  lemma {:induction false} WideLast(a: seq<Constraint>, wide: Constraint, b: seq<Constraint>)
    requires Units(a) && Units(b) && Span(wide) > 1
    ensures SortBySpan(a + [wide] + b) == a + b + [wide]
  {
    var all := a + [wide] + b;
    if b == [] {
      UnitsSorted(a);
      assert all[..|all| - 1] == a && a + b + [wide] == a + [wide];
      if a != [] {
        assert a[|a| - 1] in a;
      }
    } else {
      var init, last := b[..|b| - 1], b[|b| - 1];
      WideLast(a, wide, init);
      assert all[..|all| - 1] == a + [wide] + init;
      assert last in b && Units(a + init) by {
        assert forall c <- init :: c in b;
      }
      UnitBeforeWide(a + init, wide, last);
      assert a + b + [wide] == a + init + [last] + [wide];
    }
  }

  /** A constraint between neighbours goes in before the wide one, after the others. */
  lemma UnitBeforeWide(units: seq<Constraint>, wide: Constraint, unit: Constraint)
    requires Units(units) && Span(wide) > 1 && Span(unit) == 1
    ensures InsertBy(NoWider, units + [wide], unit) == units + [unit] + [wide]
  {
    var sorted := units + [wide];
    assert sorted[..|sorted| - 1] == units;
    if units != [] {
      assert units[|units| - 1] in units;
    }
    assert InsertBy(NoWider, units, unit) == units + [unit];
  }

  /** A message over several lifelines, written anywhere among constraints
      between neighbours, widens every gap it spans alike, past what the
      neighbours need, and by no more than it lacks. */
  lemma WideSharesAlike(n: nat, a: seq<Constraint>, wide: Constraint, b: seq<Constraint>, i: nat, j: nat)
    requires n >= 1 && Spans(n, a + [wide] + b) && Units(a) && Units(b) && Span(wide) > 1
    requires wide.a <= i < wide.b && wide.a <= j < wide.b
    ensures Spans(n, a + b) && Spans(n, SortBySpan(a + [wide] + b))
    ensures var zero := seq(n - 1, _ => 0.0);
            var near, all := MeetAll(zero, a + b), MeetAll(zero, SortBySpan(a + [wide] + b));
            all[i] - near[i] == all[j] - near[j]
            && Sum(all, wide.a, wide.b) == Max(Sum(near, wide.a, wide.b), wide.need)
  {
    WideLast(a, wide, b);
    var zero := seq(n - 1, _ => 0.0);
    var sorted := a + b + [wide];
    assert sorted[..|sorted| - 1] == a + b;
    forall c | c in sorted ensures c.a < c.b < n {
      assert c in a + [wide] + b;
    }
    MeetMeets(MeetAll(zero, a + b), wide);
  }

  // ---- no further apart than asked ----

  lemma {:induction false} PositionsTight(gap: seq<real>, i: nat)
    requires i < |gap|
    ensures |Positions(gap)| == |gap| + 1
    ensures Positions(gap)[i + 1] == Positions(gap)[i] + Up(gap[i])
  {
    if i < |gap| - 1 {
      PositionsTight(gap[..|gap| - 1], i);
    }
  }

  /** Two neighbours stand as far apart as their gap, once every constraint is met, in whole
      pixels; and before any is met there is no gap. */
  lemma ColumnsTight(n: nat, cons: seq<Constraint>, i: nat)
    requires n >= 1 && Spans(n, cons) && i + 1 < n
    ensures |SortBySpan(cons)| == |cons|
    ensures var gap, xs := GapsAfter(n, cons, |cons|), ColumnsOf(n, cons);
            gap[i] <= xs[i + 1] - xs[i] < gap[i] + 1.0
    ensures GapsAfter(n, cons, 0)[i] == 0.0
  {
    hide Up;
    SpanOrder(cons);
    SortedSpans(n, cons);
    var sorted := SortBySpan(cons);
    assert sorted[..|cons|] == sorted;
    PositionsTight(GapsAfter(n, cons, |cons|), i);
  }
}
