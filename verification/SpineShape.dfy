// What hangs off a flow's main path: each edge the next step down it, a lane
// beside it or part of a chain to its right (layoutSpine, ui/src/diagramLayout.ts).
module SpineShape {
  import opened Counting
  import opened Geometry
  import opened Flow
  import opened SpinePath

  /** A branch: its edges and the nodes they lead to, outward. */
  datatype Chain = Chain(edges: seq<nat>, nodes: seq<string>)

  datatype Shape = Shape(chains: map<string, Chain>, placed: set<string>, lanes: seq<nat>, next: map<string, nat>)

  function LastOf(c: Chain): string
    requires c.nodes != []
  {
    c.nodes[|c.nodes| - 1]
  }

  /** The chain walked outward to its end, or nothing when it meets a node already
      placed, one with two ways in or on, or the path again. */
  function WalkChain(g: Graph, spine: seq<string>, placed: set<string>, c: Chain): Option<(Chain, set<string>)>
    requires g.Valid() && c.nodes != [] && LastOf(c) in g.nodes
    decreases |g.nodes - placed|
  {
    var cur := LastOf(c);
    if cur in placed || |Into(g.edges, cur)| != 1 then None
    else
      var out := OutOf(g.edges, cur);
      FewerLeft(g.nodes, placed, cur);
      if out == [] then Some((c, placed + {cur}))
      else if |out| > 1 || Next(g, cur, 0) in spine then None
      else WalkChain(g, spine, placed + {cur}, Chain(c.edges + [out[0]], c.nodes + [Next(g, cur, 0)]))
  }

  /** One edge out of the path's k-th node, classified. */
  function Classify(g: Graph, spine: seq<string>, sh: Shape, k: nat, n: nat): Option<Shape>
    requires g.Valid() && k < |spine| && n < |OutOf(g.edges, spine[k])|
  {
    var id, i, to := spine[k], OutOf(g.edges, spine[k])[n], Next(g, spine[k], n);
    if to in spine then
      if k + 1 < |spine| && spine[k + 1] == to && id !in sh.next then Some(sh.(next := sh.next[id := i]))
      else Some(sh.(lanes := sh.lanes + [i]))
    else if id in sh.chains then None
    else
      var walked := WalkChain(g, spine, sh.placed, Chain([i], [to]));
      if walked.None? then None
      else Some(sh.(chains := sh.chains[id := walked.value.0], placed := walked.value.1))
  }

  /** The shape once every edge out of the first k nodes of the path, and the first n
      out of the next, is classified. */
  function ShapeAfter(g: Graph, spine: seq<string>, k: nat, n: nat): Option<Shape>
    requires g.Valid() && (if k < |spine| then n <= |OutOf(g.edges, spine[k])| else k == |spine| && n == 0)
    decreases k, n
  {
    if n > 0 then
      var before := ShapeAfter(g, spine, k, n - 1);
      if before.None? then None else Classify(g, spine, before.value, k, n - 1)
    else if k > 0 then ShapeAfter(g, spine, k - 1, |OutOf(g.edges, spine[k - 1])|)
    else Some(Shape(map[], Elements(spine), [], map[]))
  }

  /** The path's shape, when every node is on it or hangs from it. */
  function ShapeOf(g: Graph, spine: seq<string>): Option<Shape>
    requires g.Valid()
  {
    var sh := ShapeAfter(g, spine, |spine|, 0);
    if sh.None? || |sh.value.placed| != |g.nodes| then None else sh
  }

  /** The walk outward, as a loop. */
  method FollowChain(g: Graph, spine: seq<string>, placed: set<string>, c: Chain)
      returns (walked: Option<(Chain, set<string>)>)
    requires g.Valid() && c.nodes != [] && LastOf(c) in g.nodes
    ensures walked == WalkChain(g, spine, placed, c)
  {
    var chain, seen := c, placed;
    while true
      invariant chain.nodes != [] && LastOf(chain) in g.nodes
      invariant WalkChain(g, spine, seen, chain) == WalkChain(g, spine, placed, c)
      decreases |g.nodes - seen|
    {
      var cur := LastOf(chain);
      if cur in seen || |Into(g.edges, cur)| != 1 {
        return None;
      }
      FewerLeft(g.nodes, seen, cur);
      seen := seen + {cur};
      var out := OutOf(g.edges, cur);
      if out == [] {
        return Some((chain, seen));
      }
      var to := Next(g, cur, 0);
      if |out| > 1 || to in spine {
        return None;
      }
      chain := Chain(chain.edges + [out[0]], chain.nodes + [to]);
    }
  }

  lemma {:induction false} RefusedAfter(g: Graph, spine: seq<string>, k: nat, n: nat)
    requires g.Valid() && k < |spine| && n <= |OutOf(g.edges, spine[k])| && ShapeAfter(g, spine, k, n).None?
    ensures ShapeAfter(g, spine, |spine|, 0).None?
    decreases |spine| - k, |OutOf(g.edges, spine[k])| - n
  {
    if n < |OutOf(g.edges, spine[k])| {
      RefusedAfter(g, spine, k, n + 1);
    } else if k + 1 < |spine| {
      RefusedAfter(g, spine, k + 1, 0);
    }
  }

  /** Down the path, edge by edge. */
  method FindShape(g: Graph, spine: seq<string>) returns (shape: Option<Shape>)
    requires g.Valid()
    ensures shape == ShapeOf(g, spine)
  {
    var chains: map<string, Chain>, placed := map[], Elements(spine);
    var lanes: seq<nat>, next: map<string, nat> := [], map[];
    for k := 0 to |spine|
      invariant ShapeAfter(g, spine, k, 0) == Some(Shape(chains, placed, lanes, next))
    {
      var id := spine[k];
      var out := OutOf(g.edges, id);
      for n := 0 to |out|
        invariant ShapeAfter(g, spine, k, n) == Some(Shape(chains, placed, lanes, next))
      {
        var to := Next(g, id, n);
        if to in spine {
          if k + 1 < |spine| && spine[k + 1] == to && id !in next {
            next := next[id := out[n]];
          } else {
            lanes := lanes + [out[n]];
          }
          continue;
        }
        if id in chains {
          RefusedAfter(g, spine, k, n + 1);
          return None;
        }
        var walked := FollowChain(g, spine, placed, Chain([out[n]], [to]));
        if walked.None? {
          RefusedAfter(g, spine, k, n + 1);
          return None;
        }
        chains, placed := chains[id := walked.value.0], walked.value.1;
      }
    }
    if |placed| != |g.nodes| {
      return None;
    }
    return Some(Shape(chains, placed, lanes, next));
  }

  // ---- what a shape is ----

  /** Link k of a chain leads to its k-th node from the one before, the first from id. */
  predicate LinkAt(g: Graph, id: string, c: Chain, k: nat)
    requires k < |c.edges| == |c.nodes|
  {
    && c.edges[k] < |g.edges| && g.edges[c.edges[k]].to == c.nodes[k]
    && g.edges[c.edges[k]].from == (if k == 0 then id else c.nodes[k - 1])
  }

  /** A chain's edges lead from node to node, outward from id. */
  predicate Links(g: Graph, id: string, c: Chain) {
    |c.edges| == |c.nodes| > 0 && forall k :: 0 <= k < |c.edges| ==> LinkAt(g, id, c, k)
  }

  /** Nodes off the path, each but the last with one way on, the next link. */
  predicate Onward(g: Graph, spine: seq<string>, c: Chain) {
    && (forall k :: 0 <= k < |c.nodes| ==> c.nodes[k] !in spine)
    && (forall k :: 0 <= k < |c.nodes| - 1 ==> k + 1 < |c.edges| && OutOf(g.edges, c.nodes[k]) == [c.edges[k + 1]])
  }

  /** The nodes differ, and each has one way in. */
  predicate Tight(g: Graph, nodes: seq<string>) {
    && (forall k :: 0 <= k < |nodes| ==> |Into(g.edges, nodes[k])| == 1)
    && (forall j, k :: 0 <= j < k < |nodes| ==> nodes[j] != nodes[k])
  }

  predicate ChainOk(g: Graph, spine: seq<string>, id: string, c: Chain) {
    Links(g, id, c) && Onward(g, spine, c) && Tight(g, c.nodes) && OutOf(g.edges, LastOf(c)) == []
  }

  /** A chain still being walked: all but its last node placed. */
  predicate ChainSoFar(g: Graph, spine: seq<string>, id: string, c: Chain, placed: set<string>) {
    && Links(g, id, c) && Onward(g, spine, c) && Tight(g, c.nodes[..|c.nodes| - 1])
    && Elements(c.nodes[..|c.nodes| - 1]) <= placed
  }

  lemma LinksGrow(g: Graph, id: string, c: Chain)
    requires Links(g, id, c) && |OutOf(g.edges, LastOf(c))| == 1
    ensures Links(g, id, Chain(c.edges + [OutOf(g.edges, LastOf(c))[0]], c.nodes + [Next(g, LastOf(c), 0)]))
  {
    var out := OutOf(g.edges, LastOf(c));
    assert out[0] in out;
    var more := Chain(c.edges + [out[0]], c.nodes + [Next(g, LastOf(c), 0)]);
    forall k | 0 <= k < |more.edges| ensures LinkAt(g, id, more, k) {
      if k < |c.edges| {
        assert LinkAt(g, id, c, k);
      } else {
        assert more.nodes[k - 1] == LastOf(c) == g.edges[out[0]].from;
      }
    }
  }

  lemma OnwardGrows(g: Graph, spine: seq<string>, id: string, c: Chain)
    requires Links(g, id, c) && Onward(g, spine, c) && |OutOf(g.edges, LastOf(c))| == 1
             && Next(g, LastOf(c), 0) !in spine
    ensures Onward(g, spine, Chain(c.edges + [OutOf(g.edges, LastOf(c))[0]], c.nodes + [Next(g, LastOf(c), 0)]))
  {
    var out := OutOf(g.edges, LastOf(c));
    assert out == [out[0]];
    var more := Chain(c.edges + [out[0]], c.nodes + [Next(g, LastOf(c), 0)]);
    forall k | 0 <= k < |more.nodes| - 1 ensures OutOf(g.edges, more.nodes[k]) == [more.edges[k + 1]] {
      if k < |c.nodes| - 1 {
        assert OutOf(g.edges, c.nodes[k]) == [c.edges[k + 1]];
      }
    }
  }

  lemma TightGrows(g: Graph, nodes: seq<string>, n: string)
    requires Tight(g, nodes) && n !in nodes && |Into(g.edges, n)| == 1
    ensures Tight(g, nodes + [n])
  {
  }

  lemma ChainGrows(g: Graph, spine: seq<string>, id: string, placed: set<string>, c: Chain)
    requires g.Valid() && c.nodes != [] && ChainSoFar(g, spine, id, c, placed)
    requires var cur := LastOf(c);
             cur !in placed && |Into(g.edges, cur)| == 1 && |OutOf(g.edges, cur)| == 1 && Next(g, cur, 0) !in spine
    ensures ChainSoFar(g, spine, id, Chain(c.edges + [OutOf(g.edges, LastOf(c))[0]], c.nodes + [Next(g, LastOf(c), 0)]),
                       placed + {LastOf(c)})
  {
    hide Links, Onward, Tight;
    var init := c.nodes[..|c.nodes| - 1];
    LinksGrow(g, id, c);
    OnwardGrows(g, spine, id, c);
    TightGrows(g, init, LastOf(c));
    var more := c.nodes + [Next(g, LastOf(c), 0)];
    assert more[..|more| - 1] == c.nodes == init + [LastOf(c)];
  }

  lemma ChainEnds(g: Graph, spine: seq<string>, id: string, placed: set<string>, c: Chain)
    requires g.Valid() && c.nodes != [] && ChainSoFar(g, spine, id, c, placed)
    requires LastOf(c) !in placed && |Into(g.edges, LastOf(c))| == 1 && OutOf(g.edges, LastOf(c)) == []
    ensures ChainOk(g, spine, id, c) && placed + {LastOf(c)} == placed + Elements(c.nodes)
  {
    hide Links, Onward, Tight;
    var init := c.nodes[..|c.nodes| - 1];
    TightGrows(g, init, LastOf(c));
    assert c.nodes == init + [LastOf(c)];
  }

  /** A walked chain is one, made of nodes not placed before. */
  lemma {:induction false} WalkedChainOk(g: Graph, spine: seq<string>, id: string, placed: set<string>, c: Chain)
    requires g.Valid() && c.nodes != [] && LastOf(c) in g.nodes && ChainSoFar(g, spine, id, c, placed)
    requires WalkChain(g, spine, placed, c).Some?
    ensures var (done, seen) := WalkChain(g, spine, placed, c).value;
            && ChainOk(g, spine, id, done) && c.nodes <= done.nodes && c.edges <= done.edges
            && seen == placed + Elements(done.nodes) && seen <= placed + g.nodes
            && (forall k :: |c.nodes| - 1 <= k < |done.nodes| ==> done.nodes[k] !in placed)
    decreases |g.nodes - placed|
  {
    hide ChainOk, ChainSoFar, Into, OutOf, Next;
    var cur := LastOf(c);
    var out := OutOf(g.edges, cur);
    FewerLeft(g.nodes, placed, cur);
    if out == [] {
      ChainEnds(g, spine, id, placed, c);
    } else {
      var longer := Chain(c.edges + [out[0]], c.nodes + [Next(g, cur, 0)]);
      ChainGrows(g, spine, id, placed, c);
      WalkedChainOk(g, spine, id, placed + {cur}, longer);
      assert WalkChain(g, spine, placed, c) == WalkChain(g, spine, placed + {cur}, longer);
      WalkedOn(g, placed, c.nodes, longer.nodes, WalkChain(g, spine, placed, c).value.0.nodes, cur);
    }
  }

  /** The nodes of a chain walked on from one node further. */
  lemma WalkedOn(g: Graph, placed: set<string>, nodes: seq<string>, longer: seq<string>, done: seq<string>, cur: string)
    requires nodes != [] && cur == nodes[|nodes| - 1] && |longer| == |nodes| + 1 && nodes <= longer <= done
             && cur !in placed && cur in g.nodes
    requires forall k :: |longer| - 1 <= k < |done| ==> done[k] !in placed + {cur}
    ensures nodes <= done && forall k :: |nodes| - 1 <= k < |done| ==> done[k] !in placed
    ensures placed + {cur} + Elements(done) == placed + Elements(done)
  {
    assert done[|nodes| - 1] == longer[|nodes| - 1] == cur;
    assert cur in Elements(done);
  }

  // ---- every node placed once, every edge classified once ----

  /** Node n is the k-th of the chain that hangs from id. */
  predicate Holds(sh: Shape, id: string, k: int, n: string) {
    id in sh.chains && 0 <= k < |sh.chains[id].nodes| && sh.chains[id].nodes[k] == n
  }

  /** Every chain is one; the nodes placed are those of the path and of the chains,
      each in one place. */
  ghost predicate NodesOnce(g: Graph, spine: seq<string>, sh: Shape) {
    && (forall id <- sh.chains :: id in spine && ChainOk(g, spine, id, sh.chains[id]))
    && (forall id, k, n :: Holds(sh, id, k, n) ==> n in sh.placed)
    && (forall n <- sh.placed :: n in g.nodes && (n in spine || exists id, k :: Holds(sh, id, k, n)))
    && (forall n <- spine :: n in sh.placed)
    && (forall id, j, id', k, n :: Holds(sh, id, j, n) && Holds(sh, id', k, n) ==> id == id' && j == k)
  }

  predicate IsNext(g: Graph, sh: Shape, i: nat) {
    i < |g.edges| && g.edges[i].from in sh.next && sh.next[g.edges[i].from] == i
  }

  predicate IsLane(sh: Shape, i: nat) {
    i in sh.lanes
  }

  /** Edge i is the k-th of the chain that hangs from id. */
  predicate ChainEdge(sh: Shape, id: string, k: nat, i: nat) {
    id in sh.chains && k < |sh.chains[id].edges| && sh.chains[id].edges[k] == i
  }

  /** The edge leads to the next node of the path. */
  predicate StepsOn(g: Graph, spine: seq<string>, i: nat) {
    && i < |g.edges| && g.edges[i].from in spine
    && var p := Position(spine, g.edges[i].from); p + 1 < |spine| && spine[p + 1] == g.edges[i].to
  }

  /** The edge is among those out of the first k nodes of the path and the first n
      out of the next. */
  predicate Seen(g: Graph, spine: seq<string>, k: nat, n: nat, i: nat) {
    && i < |g.edges| && g.edges[i].from in spine
    && var p := Position(spine, g.edges[i].from);
       p < k || (p == k && n <= |OutOf(g.edges, g.edges[i].from)| && i in OutOf(g.edges, g.edges[i].from)[..n])
  }

  /** One lane: seen, between nodes of the path, and not the step on; a second edge
      to the next node when it leads there. */
  predicate LaneOk(g: Graph, spine: seq<string>, sh: Shape, i: nat) {
    && i < |g.edges| && !IsNext(g, sh, i) && g.edges[i].to in spine
    && (StepsOn(g, spine, i) ==> g.edges[i].from in sh.next)
  }

  predicate NextOk(g: Graph, spine: seq<string>, id: string, i: nat) {
    i < |g.edges| && g.edges[i].from == id && StepsOn(g, spine, i)
  }

  ghost predicate AllSeen(g: Graph, spine: seq<string>, sh: Shape, k: nat, n: nat) {
    && (forall i <- sh.lanes :: Seen(g, spine, k, n, i))
    && (forall id <- sh.next :: Seen(g, spine, k, n, sh.next[id]))
    && (forall id <- sh.chains :: sh.chains[id].edges != [] && Seen(g, spine, k, n, sh.chains[id].edges[0]))
  }

  ghost predicate AllClassed(g: Graph, spine: seq<string>, sh: Shape, k: nat, n: nat) {
    forall i: nat :: Seen(g, spine, k, n, i) ==>
      i < |g.edges| && (IsNext(g, sh, i) || IsLane(sh, i) || ChainEdge(sh, g.edges[i].from, 0, i))
  }

  predicate LanesAndSteps(g: Graph, spine: seq<string>, sh: Shape) {
    && (forall i <- sh.lanes :: LaneOk(g, spine, sh, i)) && Different(sh.lanes)
    && (forall id <- sh.next :: NextOk(g, spine, id, sh.next[id]))
  }

  /** Every edge seen is the next step, a lane or the start of a chain, and only one
      of them. */
  ghost predicate EdgesOnce(g: Graph, spine: seq<string>, sh: Shape, k: nat, n: nat) {
    AllSeen(g, spine, sh, k, n) && AllClassed(g, spine, sh, k, n) && LanesAndSteps(g, spine, sh)
  }

  predicate PathOk(g: Graph, spine: seq<string>) {
    g.Valid() && (forall id <- spine :: id in g.nodes) && forall i, j :: 0 <= i < j < |spine| ==> spine[i] != spine[j]
  }

  lemma SeenGrows(g: Graph, spine: seq<string>, k: nat, n: nat, i: nat)
    requires PathOk(g, spine) && k < |spine| && n < |OutOf(g.edges, spine[k])|
    ensures var e := OutOf(g.edges, spine[k])[n];
            && e < |g.edges| && g.edges[e].from == spine[k] && !Seen(g, spine, k, n, e)
            && (Seen(g, spine, k, n + 1, i) <==> Seen(g, spine, k, n, i) || i == e)
  {
    var out := OutOf(g.edges, spine[k]);
    assert out[n] in out;
    assert Position(spine, spine[k]) == k;
    assert out[..n + 1] == out[..n] + [out[n]];
    assert forall j :: 0 <= j < n ==> out[..n][j] == out[j] && out[j] != out[n];
  }

  lemma SeenWhole(g: Graph, spine: seq<string>, k: nat, i: nat)
    requires PathOk(g, spine) && k < |spine|
    ensures Seen(g, spine, k, |OutOf(g.edges, spine[k])|, i) <==> Seen(g, spine, k + 1, 0, i)
  {
    var out := OutOf(g.edges, spine[k]);
    assert out[..|out|] == out;
  }

  /** after classifies what sh did, and edge i. */
  lemma ClassedOneMore(g: Graph, spine: seq<string>, sh: Shape, after: Shape, k: nat, n: nat)
    requires PathOk(g, spine) && k < |spine| && n < |OutOf(g.edges, spine[k])| && AllClassed(g, spine, sh, k, n)
    requires forall j: nat :: IsNext(g, sh, j) ==> IsNext(g, after, j)
    requires forall j: nat :: IsLane(sh, j) ==> IsLane(after, j)
    requires forall id, j: nat :: ChainEdge(sh, id, 0, j) ==> ChainEdge(after, id, 0, j)
    requires var i := OutOf(g.edges, spine[k])[n];
             IsNext(g, after, i) || IsLane(after, i) || ChainEdge(after, spine[k], 0, i)
    ensures AllClassed(g, spine, after, k, n + 1)
  {
    hide Seen;
    var m := n + 1;
    forall j: nat | Seen(g, spine, k, m, j)
      ensures j < |g.edges| && (IsNext(g, after, j) || IsLane(after, j) || ChainEdge(after, g.edges[j].from, 0, j))
    {
      SeenGrows(g, spine, k, n, j);
      if Seen(g, spine, k, n, j) {
        assert j < |g.edges| && (IsNext(g, sh, j) || IsLane(sh, j) || ChainEdge(sh, g.edges[j].from, 0, j));
      }
    }
  }

  lemma SeenStays(g: Graph, spine: seq<string>, sh: Shape, k: nat, n: nat)
    requires PathOk(g, spine) && k < |spine| && n < |OutOf(g.edges, spine[k])| && AllSeen(g, spine, sh, k, n)
    ensures AllSeen(g, spine, sh, k, n + 1)
    ensures Seen(g, spine, k, n + 1, OutOf(g.edges, spine[k])[n]) && !Seen(g, spine, k, n, OutOf(g.edges, spine[k])[n])
  {
    hide Seen;
    var m := n + 1;
    forall j: nat ensures Seen(g, spine, k, n, j) ==> Seen(g, spine, k, m, j) {
      SeenGrows(g, spine, k, n, j);
    }
    SeenGrows(g, spine, k, n, OutOf(g.edges, spine[k])[n]);
  }

  lemma NextAdded(g: Graph, spine: seq<string>, sh: Shape, k: nat, n: nat, i: nat)
    requires PathOk(g, spine) && k < |spine| && n < |OutOf(g.edges, spine[k])| && i == OutOf(g.edges, spine[k])[n]
    requires EdgesOnce(g, spine, sh, k, n) && spine[k] !in sh.next && NextOk(g, spine, spine[k], i)
    ensures EdgesOnce(g, spine, sh.(next := sh.next[spine[k] := i]), k, n + 1)
  {
    hide Seen, StepsOn, Into, OutOf, AllClassed, LanesAndSteps;
    var after := sh.(next := sh.next[spine[k] := i]);
    SeenStays(g, spine, sh, k, n);
    assert i !in sh.lanes;
    assert AllClassed(g, spine, after, k, n + 1) by {
      hide AllSeen, LanesAndSteps, IsLane, ChainEdge;
      ClassedOneMore(g, spine, sh, after, k, n);
    }
    NextSteps(g, spine, sh, spine[k], i);
    assert AllSeen(g, spine, after, k, n + 1);
  }

  lemma NextSteps(g: Graph, spine: seq<string>, sh: Shape, id: string, i: nat)
    requires LanesAndSteps(g, spine, sh) && id !in sh.next && NextOk(g, spine, id, i) && i !in sh.lanes
    ensures LanesAndSteps(g, spine, sh.(next := sh.next[id := i]))
  {
    hide StepsOn;
    var after := sh.(next := sh.next[id := i]);
    forall j | j in sh.lanes ensures LaneOk(g, spine, after, j) {
      assert LaneOk(g, spine, sh, j);
    }
  }

  lemma LaneAdded(g: Graph, spine: seq<string>, sh: Shape, k: nat, n: nat, i: nat)
    requires PathOk(g, spine) && k < |spine| && n < |OutOf(g.edges, spine[k])| && i == OutOf(g.edges, spine[k])[n]
    requires EdgesOnce(g, spine, sh, k, n) && i < |g.edges| && g.edges[i].to in spine
    requires StepsOn(g, spine, i) ==> g.edges[i].from in sh.next
    ensures EdgesOnce(g, spine, sh.(lanes := sh.lanes + [i]), k, n + 1)
  {
    hide Seen, StepsOn;
    var after := sh.(lanes := sh.lanes + [i]);
    SeenStays(g, spine, sh, k, n);
    ClassedOneMore(g, spine, sh, after, k, n);
    assert i !in sh.lanes;
    assert forall j :: 0 <= j < |sh.lanes| ==> sh.lanes[j] in sh.lanes;
    forall j | j in after.lanes ensures LaneOk(g, spine, after, j) {
      assert j == i || LaneOk(g, spine, sh, j);
    }
  }

  lemma ChainAdded(g: Graph, spine: seq<string>, sh: Shape, k: nat, n: nat, i: nat, c: Chain, placed: set<string>)
    requires PathOk(g, spine) && k < |spine| && n < |OutOf(g.edges, spine[k])| && i == OutOf(g.edges, spine[k])[n]
    requires EdgesOnce(g, spine, sh, k, n) && spine[k] !in sh.chains && c.edges != [] && c.edges[0] == i
    ensures EdgesOnce(g, spine, sh.(chains := sh.chains[spine[k] := c], placed := placed), k, n + 1)
  {
    hide Seen, StepsOn, Into, OutOf, AllClassed, LanesAndSteps;
    var after := sh.(chains := sh.chains[spine[k] := c], placed := placed);
    SeenStays(g, spine, sh, k, n);
    assert AllClassed(g, spine, after, k, n + 1) by {
      hide AllSeen, LanesAndSteps, IsLane, IsNext;
      assert forall j: nat :: IsNext(g, sh, j) ==> IsNext(g, after, j) by { SameNext(g, sh, after); }
      assert forall j: nat :: IsLane(sh, j) ==> IsLane(after, j) by { SameNext(g, sh, after); }
      ClassedOneMore(g, spine, sh, after, k, n);
    }
    SameSteps(g, spine, sh, after);
    assert AllSeen(g, spine, after, k, n + 1);
  }

  lemma SameNext(g: Graph, sh: Shape, after: Shape)
    requires after.next == sh.next && after.lanes == sh.lanes
    ensures forall j: nat :: IsNext(g, sh, j) == IsNext(g, after, j)
    ensures forall j: nat :: IsLane(sh, j) == IsLane(after, j)
  {
  }

  lemma SameSteps(g: Graph, spine: seq<string>, sh: Shape, after: Shape)
    requires LanesAndSteps(g, spine, sh) && after.next == sh.next && after.lanes == sh.lanes
    ensures LanesAndSteps(g, spine, after)
  {
    hide StepsOn, IsNext;
    SameNext(g, sh, after);
    forall j | j in sh.lanes ensures LaneOk(g, spine, after, j) {
      assert LaneOk(g, spine, sh, j);
    }
  }

  lemma NodesAdded(g: Graph, spine: seq<string>, sh: Shape, id: string, c: Chain, placed: set<string>)
    requires PathOk(g, spine) && NodesOnce(g, spine, sh) && id in spine && id !in sh.chains && ChainOk(g, spine, id, c)
    requires placed == sh.placed + Elements(c.nodes) && placed <= sh.placed + g.nodes
    requires forall k :: 0 <= k < |c.nodes| ==> c.nodes[k] !in sh.placed
    ensures NodesOnce(g, spine, sh.(chains := sh.chains[id := c], placed := placed))
  {
    hide ChainOk;
    assert |c.nodes| > 0 && forall j, k :: 0 <= j < k < |c.nodes| ==> c.nodes[j] != c.nodes[k] by {
      ChainDistinct(g, spine, id, c);
    }
    var after := sh.(chains := sh.chains[id := c], placed := placed);
    forall d, k, n
      ensures Holds(after, d, k, n) <==> Holds(sh, d, k, n) || (d == id && 0 <= k < |c.nodes| && c.nodes[k] == n)
    {
    }
    forall n | n in placed ensures n in g.nodes && (n in spine || exists d, k :: Holds(after, d, k, n)) {
      if n in sh.placed {
        if n !in spine {
          var d, k :| Holds(sh, d, k, n);
          assert Holds(after, d, k, n);
        }
      } else {
        var k :| 0 <= k < |c.nodes| && c.nodes[k] == n;
        assert Holds(after, id, k, n);
      }
    }
    forall d, k, n | Holds(after, d, k, n) ensures n in placed {
      assert Holds(sh, d, k, n) || n in Elements(c.nodes);
    }
  }

  lemma ChainDistinct(g: Graph, spine: seq<string>, id: string, c: Chain)
    requires ChainOk(g, spine, id, c)
    ensures |c.nodes| > 0 && forall j, k :: 0 <= j < k < |c.nodes| ==> c.nodes[j] != c.nodes[k]
  {
    hide Onward;
  }

  lemma ClassifyKeeps(g: Graph, spine: seq<string>, sh: Shape, k: nat, n: nat)
    requires PathOk(g, spine) && k < |spine| && n < |OutOf(g.edges, spine[k])|
    requires NodesOnce(g, spine, sh) && EdgesOnce(g, spine, sh, k, n) && Classify(g, spine, sh, k, n).Some?
    ensures NodesOnce(g, spine, Classify(g, spine, sh, k, n).value)
    ensures EdgesOnce(g, spine, Classify(g, spine, sh, k, n).value, k, n + 1)
  {
    hide NodesOnce, EdgesOnce, ChainOk;
    var id, i, to := spine[k], OutOf(g.edges, spine[k])[n], Next(g, spine[k], n);
    SeenGrows(g, spine, k, n, i);
    var after := Classify(g, spine, sh, k, n).value;
    if to in spine {
      NodesStand(g, spine, sh, after);
      assert Position(spine, id) == k;
      if k + 1 < |spine| && spine[k + 1] == to && id !in sh.next {
        NextAdded(g, spine, sh, k, n, i);
      } else {
        LaneAdded(g, spine, sh, k, n, i);
      }
    } else {
      var c := Chain([i], [to]);
      assert ChainSoFar(g, spine, id, c, sh.placed);
      WalkedChainOk(g, spine, id, sh.placed, c);
      var (done, seen) := WalkChain(g, spine, sh.placed, c).value;
      assert done.edges[0] == c.edges[0];
      NodesAdded(g, spine, sh, id, done, seen);
      ChainAdded(g, spine, sh, k, n, i, done, seen);
    }
  }

  lemma NodesStand(g: Graph, spine: seq<string>, sh: Shape, after: Shape)
    requires NodesOnce(g, spine, sh) && after.chains == sh.chains && after.placed == sh.placed
    ensures NodesOnce(g, spine, after)
  {
    hide ChainOk;
    assert forall id, k, n :: Holds(sh, id, k, n) <==> Holds(after, id, k, n);
  }

  lemma {:induction false} ShapeHolds(g: Graph, spine: seq<string>, k: nat, n: nat)
    requires PathOk(g, spine) && (if k < |spine| then n <= |OutOf(g.edges, spine[k])| else k == |spine| && n == 0)
    requires ShapeAfter(g, spine, k, n).Some?
    ensures NodesOnce(g, spine, ShapeAfter(g, spine, k, n).value)
    ensures EdgesOnce(g, spine, ShapeAfter(g, spine, k, n).value, k, n)
    decreases k, n
  {
    hide Classify, NodesOnce, EdgesOnce;
    if n > 0 {
      ShapeHolds(g, spine, k, n - 1);
      ClassifyKeeps(g, spine, ShapeAfter(g, spine, k, n - 1).value, k, n - 1);
    } else if k > 0 {
      ShapeHolds(g, spine, k - 1, |OutOf(g.edges, spine[k - 1])|);
      NodeDone(g, spine, ShapeAfter(g, spine, k, 0).value, k - 1);
    } else {
      StartHolds(g, spine);
    }
  }

  lemma StartHolds(g: Graph, spine: seq<string>)
    requires PathOk(g, spine)
    ensures NodesOnce(g, spine, Shape(map[], Elements(spine), [], map[]))
    ensures EdgesOnce(g, spine, Shape(map[], Elements(spine), [], map[]), 0, 0)
  {
  }

  lemma NodeDone(g: Graph, spine: seq<string>, sh: Shape, k: nat)
    requires PathOk(g, spine) && k < |spine| && EdgesOnce(g, spine, sh, k, |OutOf(g.edges, spine[k])|)
    ensures EdgesOnce(g, spine, sh, k + 1, 0)
  {
    hide Seen, OutOf, LanesAndSteps;
    var n, m := |OutOf(g.edges, spine[k])|, k + 1;
    forall i: nat ensures Seen(g, spine, m, 0, i) <==> Seen(g, spine, k, n, i) {
      SeenWhole(g, spine, k, i);
    }
    assert AllSeen(g, spine, sh, k, n) && AllClassed(g, spine, sh, k, n);
    assert AllSeen(g, spine, sh, k + 1, 0);
    assert AllClassed(g, spine, sh, k + 1, 0);
  }

  // ---- the result ----

  lemma ShapeResult(g: Graph, spine: seq<string>)
    requires PathOk(g, spine) && ShapeOf(g, spine).Some?
    ensures NodesOnce(g, spine, ShapeOf(g, spine).value) && ShapeOf(g, spine).value.placed == g.nodes
    ensures EdgesOnce(g, spine, ShapeOf(g, spine).value, |spine|, 0)
  {
    hide ShapeAfter, EdgesOnce;
    ShapeHolds(g, spine, |spine|, 0);
    PlacedAll(ShapeOf(g, spine).value.placed, g.nodes);
  }

  lemma PlacedAll(placed: set<string>, nodes: set<string>)
    requires placed <= nodes && |placed| == |nodes|
    ensures placed == nodes
  {
    assert nodes == placed + (nodes - placed);
  }

  /** When the flow has this shape, every node is on the path or in exactly one
      place of one chain, never both. */
  lemma EveryNodeOnce(g: Graph, spine: seq<string>, n: string)
    requires PathOk(g, spine) && ShapeOf(g, spine).Some? && n in g.nodes
    ensures n in spine <==> !exists id, k :: Holds(ShapeOf(g, spine).value, id, k, n)
    ensures forall id, j, id', k ::
              Holds(ShapeOf(g, spine).value, id, j, n) && Holds(ShapeOf(g, spine).value, id', k, n) ==>
                id == id' && j == k
  {
    hide ShapeOf, EdgesOnce;
    ShapeResult(g, spine);
  }

  lemma ChainEdgeEnds(g: Graph, spine: seq<string>, sh: Shape, id: string, k: nat, i: nat)
    requires NodesOnce(g, spine, sh) && ChainEdge(sh, id, k, i)
    ensures i < |g.edges| && Holds(sh, id, k, g.edges[i].to) && g.edges[i].to !in spine
    ensures k == 0 ==> g.edges[i].from == id && id in spine
    ensures k > 0 ==> Holds(sh, id, k - 1, g.edges[i].from)
  {
    hide NodesOnce, Tight;
    ChainOf(g, spine, sh, id);
    var c := sh.chains[id];
    assert LinkAt(g, id, c, k) && c.nodes[k] !in spine;
  }

  lemma ChainOf(g: Graph, spine: seq<string>, sh: Shape, id: string)
    requires NodesOnce(g, spine, sh) && id in sh.chains
    ensures id in spine && ChainOk(g, spine, id, sh.chains[id])
  {
    hide ChainOk;
  }

  /** An edge out of a chain's node is the next link of the chain. */
  lemma LinkOf(g: Graph, spine: seq<string>, sh: Shape, id: string, k: nat, i: nat)
    requires NodesOnce(g, spine, sh) && i < |g.edges| && Holds(sh, id, k, g.edges[i].from)
    ensures ChainEdge(sh, id, k + 1, i)
  {
    var c := sh.chains[id];
    assert ChainOk(g, spine, id, c);
    assert i in OutOf(g.edges, c.nodes[k]);
    assert k < |c.nodes| - 1;
    assert OutOf(g.edges, c.nodes[k]) == [c.edges[k + 1]];
  }

  /** Every edge is the step to the next node of the path, a lane between two nodes
      of it, or a link of a chain. */
  lemma EveryEdgeClassed(g: Graph, spine: seq<string>, i: nat)
    requires PathOk(g, spine) && ShapeOf(g, spine).Some? && i < |g.edges|
    ensures var sh := ShapeOf(g, spine).value;
            IsNext(g, sh, i) || IsLane(sh, i) || exists id, k: nat :: ChainEdge(sh, id, k, i)
  {
    hide ShapeOf, ChainOk;
    ShapeResult(g, spine);
    var sh := ShapeOf(g, spine).value;
    var from := g.edges[i].from;
    assert g.edges[i] in g.edges;
    if from in spine {
      assert Seen(g, spine, |spine|, 0, i);
      assert !IsNext(g, sh, i) && !IsLane(sh, i) ==> ChainEdge(sh, from, 0, i);
    } else {
      var id, k :| Holds(sh, id, k, from);
      LinkOf(g, spine, sh, id, k, i);
    }
  }

  /** And it is only one of them: a lane is listed once, a link stands in one place
      of one chain. */
  lemma EveryEdgeOnce(g: Graph, spine: seq<string>, i: nat)
    requires PathOk(g, spine) && ShapeOf(g, spine).Some? && i < |g.edges|
    ensures var sh := ShapeOf(g, spine).value;
            && Different(sh.lanes) && !(IsNext(g, sh, i) && IsLane(sh, i))
            && (forall id, k: nat :: ChainEdge(sh, id, k, i) ==> !IsNext(g, sh, i) && !IsLane(sh, i))
            && (forall id, j: nat, id', k: nat :: ChainEdge(sh, id, j, i) && ChainEdge(sh, id', k, i) ==>
                id == id' && j == k)
  {
    hide ShapeOf, ChainOk, Seen;
    ShapeResult(g, spine);
    var sh := ShapeOf(g, spine).value;
    forall id, k: nat | ChainEdge(sh, id, k, i) ensures Holds(sh, id, k, g.edges[i].to) && g.edges[i].to !in spine {
      ChainEdgeEnds(g, spine, sh, id, k, i);
    }
    if IsNext(g, sh, i) {
      NextOnPath(g, spine, sh, i);
    }
  }

  lemma NextOnPath(g: Graph, spine: seq<string>, sh: Shape, i: nat)
    requires EdgesOnce(g, spine, sh, |spine|, 0) && i < |g.edges| && IsNext(g, sh, i)
    ensures g.edges[i].to in spine
  {
  }

  /** Every node of the path but the last has its step on to the next. */
  lemma EveryStepDrawn(g: Graph, spine: seq<string>, p: nat)
    requires PathOk(g, spine) && ShapeOf(g, spine).Some? && p + 1 < |spine| && Joined(g, spine[p], spine[p + 1])
    ensures spine[p] in ShapeOf(g, spine).value.next
    ensures var i := ShapeOf(g, spine).value.next[spine[p]];
            i < |g.edges| && g.edges[i].from == spine[p] && g.edges[i].to == spine[p + 1]
  {
    hide ShapeOf, NodesOnce;
    ShapeResult(g, spine);
    var sh := ShapeOf(g, spine).value;
    var out := OutOf(g.edges, spine[p]);
    var i := out[EdgeRank(g, spine[p], spine[p + 1])];
    assert i in out;
    assert Position(spine, spine[p]) == p;
    assert Seen(g, spine, |spine|, 0, i) && StepsOn(g, spine, i);
    assert spine[p] !in sh.chains || sh.chains[spine[p]].edges[0] != i by {
      if spine[p] in sh.chains {
        ChainStartOffPath(g, spine, sh, spine[p]);
      }
    }
  }

  lemma ChainStartOffPath(g: Graph, spine: seq<string>, sh: Shape, id: string)
    requires NodesOnce(g, spine, sh) && id in sh.chains
    ensures |sh.chains[id].edges| > 0 && sh.chains[id].edges[0] < |g.edges|
            && g.edges[sh.chains[id].edges[0]].to !in spine
  {
    hide Tight;
    ChainOf(g, spine, sh, id);
    assert LinkAt(g, id, sh.chains[id], 0);
  }

  /** Every node of a chain is joined to the one before it, the first to the node the chain
      hangs from. */
  lemma ChainJoined(g: Graph, spine: seq<string>, id: string, c: Chain)
    requires ChainOk(g, spine, id, c)
    ensures |c.nodes| > 0 && Joined(g, id, c.nodes[0])
    ensures forall k :: 0 <= k < |c.nodes| - 1 ==> Joined(g, c.nodes[k], c.nodes[k + 1])
  {
    hide Joined, Tight;
    assert LinkAt(g, id, c, 0);
    EdgeJoins(g, c.edges[0]);
    forall k | 0 <= k < |c.nodes| - 1 ensures Joined(g, c.nodes[k], c.nodes[k + 1]) {
      assert LinkAt(g, id, c, k + 1);
      EdgeJoins(g, c.edges[k + 1]);
    }
  }
}
