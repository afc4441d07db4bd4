// The main path of a flow: the longest simple path from its start
// (`longest` in layoutSpine, ui/src/diagramLayout.ts).
module SpinePath {
  import opened Flow

  /** The nodes' ids, and every edge between two of them. */
  datatype Graph = Graph(nodes: set<string>, edges: seq<FlowEdge>) {
    predicate Valid() {
      forall e <- edges :: e.from in nodes && e.to in nodes
    }
  }

  /** Where the k-th edge out of a node leads. */
  function Next(g: Graph, id: string, k: nat): (to: string)
    requires k < |OutOf(g.edges, id)|
    ensures g.Valid() ==> to in g.nodes
  {
    var out := OutOf(g.edges, id);
    assert out[k] in out;
    var e := g.edges[out[k]];
    assert e in g.edges;
    e.to
  }

  lemma FewerLeft(nodes: set<string>, stack: set<string>, id: string)
    requires id in nodes && id !in stack
    ensures |nodes - (stack + {id})| < |nodes - stack|
  {
    assert nodes - stack == (nodes - (stack + {id})) + {id};
  }

  /** The longest path from id through no node of stack. */
  function LongestFrom(g: Graph, id: string, stack: set<string>): (path: seq<string>)
    requires g.Valid() && id in g.nodes && id !in stack
    ensures path != [] && path[0] == id
    decreases |g.nodes - stack|, 0
  {
    FewerLeft(g.nodes, stack, id);
    [id] + BestOn(g, id, stack + {id}, |OutOf(g.edges, id)|)
  }

  /** The best of the ways on over the first n edges out of id. */
  function BestOn(g: Graph, id: string, stack: set<string>, n: nat): seq<string>
    requires g.Valid() && n <= |OutOf(g.edges, id)|
    decreases |g.nodes - stack|, n + 1
  {
    if n == 0 then []
    else
      var best := BestOn(g, id, stack, n - 1);
      var to := Next(g, id, n - 1);
      if to in stack then best
      else
        var p := LongestFrom(g, to, stack);
        if |p| > |best| then p else best
  }

  /** The walk as it runs, its stack the nodes already on the way. */
  class Walk {
    const g: Graph
    var stack: set<string>

    constructor (g: Graph)
      ensures this.g == g && stack == {}
    {
      this.g := g;
      stack := {};
    }

    method Longest(id: string) returns (path: seq<string>)
      requires g.Valid() && id in g.nodes && id !in stack
      modifies this
      ensures stack == old(stack)
      ensures path == LongestFrom(g, id, stack)
      decreases |g.nodes - stack|
    {
      FewerLeft(g.nodes, stack, id);
      ghost var before := stack;
      stack := stack + {id};
      var best: seq<string> := [];
      var out := OutOf(g.edges, id);
      for k := 0 to |out|
        invariant stack == before + {id}
        invariant best == BestOn(g, id, stack, k)
      {
        var to := Next(g, id, k);
        if to in stack {
          continue;
        }
        var p := Longest(to);
        if |p| > |best| {
          best := p;
        }
      }
      stack := stack - {id};
      path := [id] + best;
    }
  }

  // ---- what the walk finds ----

  /** The first edge out of a that leads to b. */
  function Rank(g: Graph, a: string, b: string, n: nat): nat
    requires n <= |OutOf(g.edges, a)|
    ensures Rank(g, a, b, n) <= n
    ensures Rank(g, a, b, n) < n ==> Next(g, a, Rank(g, a, b, n)) == b
    ensures forall k :: 0 <= k < Rank(g, a, b, n) ==> Next(g, a, k) != b
  {
    if n == 0 then 0
    else
      var r := Rank(g, a, b, n - 1);
      if r < n - 1 then r else if Next(g, a, n - 1) == b then n - 1 else n
  }

  function EdgeRank(g: Graph, a: string, b: string): nat {
    Rank(g, a, b, |OutOf(g.edges, a)|)
  }

  predicate Joined(g: Graph, a: string, b: string) {
    EdgeRank(g, a, b) < |OutOf(g.edges, a)|
  }

  /** A path from id along edges, repeating no node and through none of stack. */
  predicate SimplePath(g: Graph, path: seq<string>, id: string, stack: set<string>) {
    && path != [] && path[0] == id && id !in stack
    && (|path| > 1 ==> Joined(g, id, path[1]) && SimplePath(g, path[1..], path[1], stack + {id}))
  }

  /** Of two paths, p goes where an edge written no later leads, at the first node
      where they part. */
  predicate Earlier(g: Graph, p: seq<string>, q: seq<string>) {
    |p| <= 1 || |q| <= 1
    || (if p[1] == q[1] then Earlier(g, p[1..], q[1..]) else EdgeRank(g, p[0], p[1]) < EdgeRank(g, p[0], q[1]))
  }

  /** p is no shorter than q, and of equals written first. */
  predicate Beats(g: Graph, p: seq<string>, q: seq<string>) {
    |q| <= |p| && (|q| == |p| ==> Earlier(g, p, q))
  }

  lemma JoinedBy(g: Graph, a: string, k: nat)
    requires k < |OutOf(g.edges, a)|
    ensures Joined(g, a, Next(g, a, k)) && EdgeRank(g, a, Next(g, a, k)) <= k
  {
    var r := EdgeRank(g, a, Next(g, a, k));
  }

  /** best beats q as a way on from id. */
  predicate BeatsOn(g: Graph, id: string, best: seq<string>, q: seq<string>) {
    && best != [] && |q| <= |best|
    && (|q| == |best| && q != [] ==>
        if best[0] == q[0] then Earlier(g, best, q) else EdgeRank(g, id, best[0]) < EdgeRank(g, id, q[0]))
  }

  /** A way on from id through one of its first n edges. */
  predicate WayOn(g: Graph, id: string, stack: set<string>, n: nat, q: seq<string>) {
    q != [] && EdgeRank(g, id, q[0]) < n && SimplePath(g, q, q[0], stack)
  }

  /** The best way on over the first n edges is one, and beats every other. */
  lemma {:induction false} BestOnBeats(g: Graph, id: string, stack: set<string>, n: nat)
    requires g.Valid() && n <= |OutOf(g.edges, id)|
    ensures var best := BestOn(g, id, stack, n); best != [] ==> WayOn(g, id, stack, n, best)
    ensures forall q :: WayOn(g, id, stack, n, q) ==> BeatsOn(g, id, BestOn(g, id, stack, n), q)
    decreases |g.nodes - stack|, n + 1
  {
    hide SimplePath, Earlier, EdgeRank, LongestFrom, BeatsOn, OutOf, Next;
    if n > 0 {
      var to := Next(g, id, n - 1);
      JoinedBy(g, id, n - 1);
      BestOnBeats(g, id, stack, n - 1);
      if to !in stack {
        LongestBeats(g, to, stack);
      }
      forall q | WayOn(g, id, stack, n, q) ensures BeatsOn(g, id, BestOn(g, id, stack, n), q) {
        BestOnBeatsOne(g, id, stack, n, q);
      }
    }
  }

  lemma BestOnBeatsOne(g: Graph, id: string, stack: set<string>, n: nat, q: seq<string>)
    requires g.Valid() && 0 < n <= |OutOf(g.edges, id)| && WayOn(g, id, stack, n, q)
    requires var before := BestOn(g, id, stack, n - 1);
             && (before != [] ==> WayOn(g, id, stack, n - 1, before))
             && (WayOn(g, id, stack, n - 1, q) ==> BeatsOn(g, id, before, q))
    requires var to := Next(g, id, n - 1);
             to !in stack ==> SimplePath(g, LongestFrom(g, to, stack), to, stack)
                              && (SimplePath(g, q, to, stack) ==> Beats(g, LongestFrom(g, to, stack), q))
    ensures BeatsOn(g, id, BestOn(g, id, stack, n), q)
  {
    hide Earlier, LongestFrom, SimplePath, EdgeRank, OutOf, Next;
    var before, best, to := BestOn(g, id, stack, n - 1), BestOn(g, id, stack, n), Next(g, id, n - 1);
    assert best == if to !in stack && |LongestFrom(g, to, stack)| > |before| then LongestFrom(g, to, stack) else before;
    hide BestOn;
    if EdgeRank(g, id, q[0]) == n - 1 {
      RankLeads(g, id, q[0]);
      PathAvoids(g, q, to, stack);
    } else {
      assert WayOn(g, id, stack, n - 1, q);
    }
  }

  lemma RankLeads(g: Graph, id: string, to: string)
    requires EdgeRank(g, id, to) < |OutOf(g.edges, id)|
    ensures Next(g, id, EdgeRank(g, id, to)) == to
  {
  }

  lemma PathAvoids(g: Graph, q: seq<string>, id: string, stack: set<string>)
    requires SimplePath(g, q, id, stack)
    ensures id !in stack
  {
  }

  /** The walk ends, on cycles too, with a simple path from the start that no other
      exceeds in length; ties go to the edge written first. */
  lemma {:induction false} LongestBeats(g: Graph, id: string, stack: set<string>)
    requires g.Valid() && id in g.nodes && id !in stack
    ensures SimplePath(g, LongestFrom(g, id, stack), id, stack)
    ensures forall q :: SimplePath(g, q, id, stack) ==> Beats(g, LongestFrom(g, id, stack), q)
    decreases |g.nodes - stack|, 0
  {
    FewerLeft(g.nodes, stack, id);
    var path := LongestFrom(g, id, stack);
    var seen, n := stack + {id}, |OutOf(g.edges, id)|;
    var best := BestOn(g, id, seen, n);
    BestOnBeats(g, id, seen, n);
    assert path[1..] == best;
    forall q | SimplePath(g, q, id, stack) ensures Beats(g, path, q) {
      if |q| > 1 {
        assert WayOn(g, id, seen, n, q[1..]);
      }
    }
  }

  lemma {:induction false} SimplePathVisits(g: Graph, path: seq<string>, id: string, stack: set<string>)
    requires SimplePath(g, path, id, stack)
    ensures forall i :: 0 <= i < |path| ==> path[i] !in stack
    ensures forall i, j :: 0 <= i < j < |path| ==> path[i] != path[j]
    ensures forall i :: 0 <= i < |path| - 1 ==> Joined(g, path[i], path[i + 1])
  {
    if |path| > 1 {
      SimplePathVisits(g, path[1..], path[1], stack + {id});
      assert forall i :: 1 <= i < |path| ==> path[i] == path[1..][i - 1];
    }
  }

  /** And whatever visits so is one. */
  lemma {:induction false} VisitsSimplePath(g: Graph, path: seq<string>, id: string, stack: set<string>)
    requires path != [] && path[0] == id
    requires forall i :: 0 <= i < |path| ==> path[i] !in stack
    requires forall i, j :: 0 <= i < j < |path| ==> path[i] != path[j]
    requires forall i :: 0 <= i < |path| - 1 ==> Joined(g, path[i], path[i + 1])
    ensures SimplePath(g, path, id, stack)
    decreases |path|
  {
    hide Joined;
    if |path| > 1 {
      var rest := path[1..];
      assert forall i :: 0 <= i < |rest| ==> rest[i] == path[i + 1];
      assert Joined(g, path[0], path[0 + 1]);
      forall i | 0 <= i < |rest| - 1 ensures Joined(g, rest[i], rest[i + 1]) {
        assert Joined(g, path[i + 1], path[i + 1 + 1]);
      }
      VisitsSimplePath(g, rest, path[1], stack + {id});
    }
  }

  /** An edge joins its ends. */
  lemma EdgeJoins(g: Graph, i: nat)
    requires i < |g.edges|
    ensures Joined(g, g.edges[i].from, g.edges[i].to)
  {
    var out := OutOf(g.edges, g.edges[i].from);
    var k :| 0 <= k < |out| && out[k] == i;
    JoinedBy(g, g.edges[i].from, k);
  }
}
