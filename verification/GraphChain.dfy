/** The order of a captured graph's nodes (benchmarks/ggml_vmm_bench.cc, GraphLaunches), found by following the edges
    from the one node nothing leads to. */
module GraphChain {
  import opened Collections
  import opened Results

  type Node = nat

  datatype Edge = Edge(from: Node, to: Node)

  /** What the driver reports: nodes each once, and edges between them. */
  ghost predicate ValidGraph(nodes: seq<Node>, edges: seq<Edge>) {
    Distinct(nodes) && forall e | e in edges :: e.from in nodes && e.to in nodes
  }

  // An edge from one node of an order to the next.
  ghost predicate Consecutive(order: seq<Node>, e: Edge) {
    exists k :: 0 <= k < |order| - 1 && order[k] == e.from && order[k + 1] == e.to
  }

  /** The graph is one path, of two nodes or more, through all its nodes in this order. */
  ghost predicate IsChain(nodes: seq<Node>, edges: seq<Edge>, order: seq<Node>) {
    && 2 <= |order| == |nodes| && Distinct(order) && (forall n :: n in order <==> n in nodes)
    && Distinct(edges) && (forall e | e in edges :: Consecutive(order, e))
    && (forall k | 0 <= k < |order| - 1 :: Edge(order[k], order[k + 1]) in edges)
  }

  // ------------------------------------------------------------------------------ the tables

  /** How many edges lead to a node. */
  function Count(edges: seq<Edge>, n: Node): nat {
    if edges == [] then 0 else Count(edges[..|edges| - 1], n) + if edges[|edges| - 1].to == n then 1 else 0
  }

  // The nodes each node leads to, for edges that do not branch.
  ghost predicate IsNext(edges: seq<Edge>, next: map<Node, Node>) {
    && (forall e | e in edges :: e.from in next && next[e.from] == e.to)
    && (forall n | n in next :: Edge(n, next[n]) in edges)
  }

  ghost predicate IsIncoming(edges: seq<Edge>, incoming: map<Node, nat>) {
    forall n :: (n in incoming <==> 0 < Count(edges, n)) && (n in incoming ==> incoming[n] == Count(edges, n))
  }

  // No two edges leave one node.
  ghost predicate Branchless(edges: seq<Edge>) {
    forall i, j | 0 <= i < j < |edges| :: edges[i].from != edges[j].from
  }

  lemma {:induction false} CountedOnce(edges: seq<Edge>, i: nat, n: Node)
    requires i < |edges| && edges[i].to == n
    ensures 1 <= Count(edges, n)
  {
    if i < |edges| - 1 { CountedOnce(edges[..|edges| - 1], i, n); }
  }

  lemma {:induction false} CountedTwice(edges: seq<Edge>, i: nat, j: nat, n: Node)
    requires i < j < |edges| && edges[i].to == n && edges[j].to == n
    ensures 2 <= Count(edges, n)
  {
    if j < |edges| - 1 { CountedTwice(edges[..|edges| - 1], i, j, n); } else { CountedOnce(edges[..j], i, n); }
  }

  lemma {:induction false} CountedAt(edges: seq<Edge>, n: Node) returns (i: nat)
    requires 1 <= Count(edges, n)
    ensures i < |edges| && edges[i].to == n
  {
    if edges[|edges| - 1].to == n { i := |edges| - 1; } else { i := CountedAt(edges[..|edges| - 1], n); }
  }

  lemma {:induction false} CountedTwiceAt(edges: seq<Edge>, n: Node) returns (i: nat, j: nat)
    requires 2 <= Count(edges, n)
    ensures i < j < |edges| && edges[i].to == n && edges[j].to == n
  {
    var last := |edges| - 1;
    if edges[last].to == n {
      i := CountedAt(edges[..last], n);
      j := last;
    } else {
      i, j := CountedTwiceAt(edges[..last], n);
    }
  }

  lemma IncomingMore(edges: seq<Edge>, e: nat, incoming: map<Node, nat>)
    requires e < |edges| && IsIncoming(edges[..e], incoming)
    ensures var to := edges[e].to;
            IsIncoming(edges[..e + 1], incoming[to := 1 + if to in incoming then incoming[to] else 0])
  {
    assert edges[..e + 1][..e] == edges[..e];
  }

  lemma NextMore(edges: seq<Edge>, e: nat, next: map<Node, Node>)
    requires e < |edges| && IsNext(edges[..e], next) && Branchless(edges[..e])
    ensures if edges[e].from in next then !Branchless(edges)
            else IsNext(edges[..e + 1], next[edges[e].from := edges[e].to]) && Branchless(edges[..e + 1])
  {
    var edge := edges[e];
    if edge.from in next {
      var other := Edge(edge.from, next[edge.from]);
      assert other in edges[..e];
      var i :| 0 <= i < e && edges[..e][i] == other;
      assert edges[i].from == edges[e].from;
    } else {
      assert edges[..e + 1] == edges[..e] + [edge];
      forall i | 0 <= i < e ensures edges[i].from != edge.from { assert edges[..e][i] in edges[..e]; }
    }
  }

  /** The tables of the edges; refused exactly when the graph branches. */
  method Tables(edges: seq<Edge>) returns (r: Result<(map<Node, nat>, map<Node, Node>)>)
    ensures r.Ok? <==> Branchless(edges)
    ensures r.Ok? ==> IsIncoming(edges, r.value.0) && IsNext(edges, r.value.1)
  {
    var incoming: map<Node, nat>, next: map<Node, Node> := map[], map[];
    assert IsIncoming(edges[..0], incoming) && IsNext(edges[..0], next) && Branchless(edges[..0]);
    hide IsIncoming, IsNext, Branchless;
    for e := 0 to |edges|
      invariant IsIncoming(edges[..e], incoming) && IsNext(edges[..e], next) && Branchless(edges[..e])
    {
      var edge := edges[e];
      IncomingMore(edges, e, incoming);
      NextMore(edges, e, next);
      incoming := incoming[edge.to := 1 + if edge.to in incoming then incoming[edge.to] else 0];
      if edge.from in next { return Err("the graph branches"); }
      next := next[edge.from := edge.to];
    }
    assert edges[..|edges|] == edges;
    return Ok((incoming, next));
  }

  // ------------------------------------------------------------------------------ the root

  /** The one node no edge leads to, if any; refused when there are more. */
  method Root(nodes: seq<Node>, incoming: map<Node, nat>) returns (r: Result<Option<Node>>)
    requires Distinct(nodes)
    ensures r.Err? <==> exists i, j :: 0 <= i < j < |nodes| && nodes[i] !in incoming && nodes[j] !in incoming
    ensures r.Ok? && r.value.Some? ==> r.value.value in nodes && r.value.value !in incoming
    ensures r.Ok? && r.value.None? ==> forall n | n in nodes :: n in incoming
  {
    var at: Option<Node> := None;
    for i := 0 to |nodes|
      invariant at.Some? ==> at.value in nodes[..i] && at.value !in incoming
      invariant forall j | 0 <= j < i && nodes[j] !in incoming :: at == Some(nodes[j])
    {
      if nodes[i] !in incoming {
        if at.Some? {
          var j :| 0 <= j < i && nodes[j] == at.value;
          return Err("the graph has more than one root");
        }
        at := Some(nodes[i]);
      }
    }
    return Ok(at);
  }

  // ------------------------------------------------------------------------------ the walk

  /** The nodes accepted so far: each the next of the one before, each after the first with one edge leading to it. */
  ghost predicate Walked(nodes: seq<Node>, edges: seq<Edge>, next: map<Node, Node>, root: Option<Node>, order: seq<Node>) {
    && Distinct(order)
    && (forall k | 0 <= k < |order| :: order[k] in nodes)
    && (order != [] ==> root == Some(order[0]))
    && (forall k | 0 < k < |order| :: Count(edges, order[k]) == 1)
    && (forall k | 0 <= k < |order| - 1 :: order[k] in next && next[order[k]] == order[k + 1])
  }

  // The node the walk is at: the root, or the next of the last node accepted, if there is one.
  ghost predicate IsAt(next: map<Node, Node>, root: Option<Node>, order: seq<Node>, at: Option<Node>) {
    if order == [] then at == root
    else var last := order[|order| - 1];
         if last in next then at == Some(next[last]) else at == None
  }

  /** Why the walk ends on every graph, cycles and all: a node it accepts it has not accepted before. The root has no
      edge to it, and any other would have two. */
  lemma NeverTwice(nodes: seq<Node>, edges: seq<Edge>, next: map<Node, Node>, root: Option<Node>, order: seq<Node>, n: Node)
    requires IsNext(edges, next) && Walked(nodes, edges, next, root, order) && IsAt(next, root, order, Some(n))
    requires root.Some? ==> Count(edges, root.value) == 0
    requires order != [] ==> Count(edges, n) == 1
    ensures n !in order
  {
    if order != [] && n in order {
      var i :| 0 <= i < |order| && order[i] == n;
      var last := order[|order| - 1];
      if 0 < i {
        var p := order[i - 1];
        assert Edge(p, n) in edges && Edge(last, n) in edges;
        var a :| 0 <= a < |edges| && edges[a] == Edge(p, n);
        var b :| 0 <= b < |edges| && edges[b] == Edge(last, n);
        assert p != last;
        if a < b { CountedTwice(edges, a, b, n); } else { CountedTwice(edges, b, a, n); }
      }
    }
  }

  lemma {:induction false} DistinctCardinality(s: seq<Node>, all: set<Node>)
    requires Distinct(s) && forall i | 0 <= i < |s| :: s[i] in all
    ensures |s| <= |all|
  {
    if s != [] {
      var n := |s| - 1;
      DistinctCardinality(s[..n], all - {s[n]});
    }
  }

  lemma {:induction false} MembersAtMost(s: seq<Node>)
    ensures |Members(s)| <= |s|
  {
    if s != [] {
      var n := |s| - 1;
      MembersAtMost(s[..n]);
      assert Members(s) == Members(s[..n]) + {s[n]};
    }
  }

  lemma NoLonger(s: seq<Node>, nodes: seq<Node>)
    requires Distinct(s) && forall i | 0 <= i < |s| :: s[i] in nodes
    ensures |s| <= |nodes|
  {
    DistinctCardinality(s, Members(nodes));
    MembersAtMost(nodes);
  }

  // One more node accepted.
  lemma WalkedMore(nodes: seq<Node>, edges: seq<Edge>, next: map<Node, Node>, root: Option<Node>, order: seq<Node>, n: Node)
    requires IsNext(edges, next) && Walked(nodes, edges, next, root, order) && IsAt(next, root, order, Some(n))
    requires root.Some? ==> Count(edges, root.value) == 0
    requires n in nodes && Count(edges, n) <= 1
    ensures Walked(nodes, edges, next, root, order + [n]) && |order| < |nodes|
    ensures IsAt(next, root, order + [n], if n in next then Some(next[n]) else None)
  {
    Arrived(edges, next, order, n);
    NeverTwice(nodes, edges, next, root, order, n);
    NoLonger(order + [n], nodes);
  }

  /** Walks from the root until a node leads nowhere; refused at a node with more than one dependency. */
  method Walk(nodes: seq<Node>, edges: seq<Edge>, incoming: map<Node, nat>, next: map<Node, Node>, root: Option<Node>)
    returns (r: Result<seq<Node>>)
    requires ValidGraph(nodes, edges) && IsIncoming(edges, incoming) && IsNext(edges, next)
    requires root.Some? ==> root.value in nodes && root.value !in incoming
    ensures r.Err? ==> exists n :: 2 <= Count(edges, n)
    ensures r.Ok? ==> Walked(nodes, edges, next, root, r.value) && IsAt(next, root, r.value, None)
  {
    var order: seq<Node>, at := [], root;
    hide Walked, IsAt, Distinct;
    StartWalked(nodes, edges, next, root);
    while at.Some?
      invariant Walked(nodes, edges, next, root, order) && IsAt(next, root, order, at)
      invariant at.Some? ==> at.value in nodes
      decreases |nodes| - |order| + if at.Some? then 1 else 0
    {
      var n := at.value;
      if n in incoming && incoming[n] != 1 { return Err("a node has more than one dependency"); }
      WalkedMore(nodes, edges, next, root, order, n);
      order := order + [n];
      at := if n in next then Some(next[n]) else None;
      if n in next { assert Edge(n, next[n]) in edges; }
    }
    return Ok(order);
  }

  lemma StartWalked(nodes: seq<Node>, edges: seq<Edge>, next: map<Node, Node>, root: Option<Node>)
    ensures Walked(nodes, edges, next, root, []) && IsAt(next, root, [], root)
  {
  }

  // A node the walk reached by an edge has one.
  lemma Arrived(edges: seq<Edge>, next: map<Node, Node>, order: seq<Node>, n: Node)
    requires IsNext(edges, next)
    ensures order != [] && order[|order| - 1] in next && next[order[|order| - 1]] == n ==> 1 <= Count(edges, n)
  {
    if order != [] && order[|order| - 1] in next && next[order[|order| - 1]] == n {
      var e := Edge(order[|order| - 1], n);
      assert e in edges;
      var i :| 0 <= i < |edges| && edges[i] == e;
      CountedOnce(edges, i, n);
    }
  }

  // ------------------------------------------------------------------------------ the chain

  // In a chain no node has two edges to it, the first has none and every other has one.
  lemma ChainCounts(nodes: seq<Node>, edges: seq<Edge>, chain: seq<Node>, n: Node)
    requires IsChain(nodes, edges, chain)
    ensures Count(edges, n) <= 1
    ensures n == chain[0] ==> Count(edges, n) == 0
    ensures n in nodes && n != chain[0] ==> Count(edges, n) == 1
  {
    if 2 <= Count(edges, n) {
      var i, j := CountedTwiceAt(edges, n);
      var a := StepOf(edges, chain, i);
      var b := StepOf(edges, chain, j);
      assert false;
    }
    if n == chain[0] && 1 <= Count(edges, n) {
      var i := CountedAt(edges, n);
      var a := StepOf(edges, chain, i);
      assert false;
    }
    if n in nodes && n != chain[0] {
      assert n in chain;
      var k :| 0 <= k < |chain| && chain[k] == n;
      assert Edge(chain[k - 1], chain[k - 1 + 1]) in edges;
      var i :| 0 <= i < |edges| && edges[i] == Edge(chain[k - 1], chain[k]);
      CountedOnce(edges, i, n);
    }
  }

  // Where in a chain an edge is.
  lemma StepOf(edges: seq<Edge>, chain: seq<Node>, i: nat) returns (k: nat)
    requires i < |edges| && forall e | e in edges :: Consecutive(chain, e)
    ensures k < |chain| - 1 && chain[k] == edges[i].from && chain[k + 1] == edges[i].to
  {
    assert Consecutive(chain, edges[i]);
    k :| 0 <= k < |chain| - 1 && chain[k] == edges[i].from && chain[k + 1] == edges[i].to;
  }

  lemma ChainBranchless(nodes: seq<Node>, edges: seq<Edge>, chain: seq<Node>)
    requires IsChain(nodes, edges, chain)
    ensures Branchless(edges)
  {
    forall i, j | 0 <= i < j < |edges| ensures edges[i].from != edges[j].from {
      var a := StepOf(edges, chain, i);
      var b := StepOf(edges, chain, j);
      assert edges[i] != edges[j];
    }
  }

  // A walk as long as there are nodes covers them.
  lemma WalkCovers(nodes: seq<Node>, edges: seq<Edge>, next: map<Node, Node>, root: Option<Node>, order: seq<Node>, n: Node)
    requires Walked(nodes, edges, next, root, order) && |order| == |nodes|
    ensures n in order <==> n in nodes
  {
    if n in nodes && n !in order { NoLonger(order + [n], nodes); }
    if n in order { var i :| 0 <= i < |order| && order[i] == n; }
  }

  // The edge from a node of the walk leads to the node after it.
  lemma WalkStep(nodes: seq<Node>, edges: seq<Edge>, next: map<Node, Node>, root: Option<Node>, order: seq<Node>, e: Edge)
    requires IsNext(edges, next) && Walked(nodes, edges, next, root, order) && IsAt(next, root, order, None)
    requires e in edges && e.from in order
    ensures Consecutive(order, e)
  {
    hide Distinct;
    var k :| 0 <= k < |order| && order[k] == e.from;
    assert e.from in next && next[e.from] == e.to;
    assert k < |order| - 1 && order[k + 1] == e.to;
  }

  /** A walk that covers every node is a chain. */
  lemma WalkIsChain(nodes: seq<Node>, edges: seq<Edge>, next: map<Node, Node>, root: Option<Node>, order: seq<Node>)
    requires ValidGraph(nodes, edges) && Branchless(edges) && IsNext(edges, next)
    requires Walked(nodes, edges, next, root, order) && IsAt(next, root, order, None)
    requires 2 <= |order| == |nodes|
    ensures IsChain(nodes, edges, order)
  {
    forall n ensures n in order <==> n in nodes { WalkCovers(nodes, edges, next, root, order, n); }
    forall e | e in edges ensures Consecutive(order, e) { WalkStep(nodes, edges, next, root, order, e); }
    WalkEdges(nodes, edges, next, root, order);
  }

  lemma WalkEdges(nodes: seq<Node>, edges: seq<Edge>, next: map<Node, Node>, root: Option<Node>, order: seq<Node>)
    requires Branchless(edges) && IsNext(edges, next) && Walked(nodes, edges, next, root, order)
    ensures Distinct(order) && Distinct(edges)
    ensures forall k | 0 <= k < |order| - 1 :: Edge(order[k], order[k + 1]) in edges
  {
    forall k | 0 <= k < |order| - 1 ensures Edge(order[k], order[k + 1]) in edges {
      assert order[k] in next && next[order[k]] == order[k + 1];
    }
  }

  // Along a chain the walk follows the chain.
  lemma {:induction false} WalkFollows(nodes: seq<Node>, edges: seq<Edge>, next: map<Node, Node>, root: Option<Node>,
                                       order: seq<Node>, chain: seq<Node>, k: nat)
    requires IsChain(nodes, edges, chain) && IsNext(edges, next) && Walked(nodes, edges, next, root, order)
    requires root == Some(chain[0]) && k < |order|
    ensures k < |chain| && order[k] == chain[k]
  {
    if 0 < k {
      WalkFollows(nodes, edges, next, root, order, chain, k - 1);
      var e := Edge(order[k - 1], order[k]);
      assert order[k - 1] in next && next[order[k - 1]] == order[k - 1 + 1];
      assert Edge(order[k - 1], next[order[k - 1]]) in edges;
      var i :| 0 <= i < |edges| && edges[i] == e;
      var j := StepOf(edges, chain, i);
    }
  }

  /** Where there is a chain the walk covers it. */
  lemma ChainIsWalked(nodes: seq<Node>, edges: seq<Edge>, next: map<Node, Node>, root: Option<Node>, order: seq<Node>,
                      chain: seq<Node>)
    requires IsChain(nodes, edges, chain) && IsNext(edges, next)
    requires Walked(nodes, edges, next, root, order) && IsAt(next, root, order, None)
    requires root == Some(chain[0])
    ensures order == chain
  {
    forall k | 0 <= k < |chain| - 1 ensures chain[k] in next {
      var e := Edge(chain[k], chain[k + 1]);
      assert e in edges;
    }
    forall k | 0 <= k < |order| ensures k < |chain| && order[k] == chain[k] {
      WalkFollows(nodes, edges, next, root, order, chain, k);
    }
  }

  /** The graph's order, given if and only if the graph is one path of two nodes or more through all its nodes. The
      walk ends on every finite graph. */
  method GraphOrder(nodes: seq<Node>, edges: seq<Edge>) returns (r: Result<seq<Node>>)
    requires ValidGraph(nodes, edges)
    ensures r.Ok? ==> IsChain(nodes, edges, r.value)
    ensures r.Err? ==> forall chain :: !IsChain(nodes, edges, chain)
  {
    var tables := Tables(edges);
    if tables.Err? {
      forall chain ensures !IsChain(nodes, edges, chain) {
        if IsChain(nodes, edges, chain) { ChainBranchless(nodes, edges, chain); }
      }
      return Err(tables.error);
    }
    var (incoming, next) := tables.value;
    forall chain | IsChain(nodes, edges, chain)
      ensures forall n | n in nodes :: n in incoming <==> n != chain[0]
      ensures forall n :: Count(edges, n) < 2
      ensures chain[0] in nodes
    {
      forall n { ChainCounts(nodes, edges, chain, n); }
      assert chain[0] in chain;
    }
    var root := Root(nodes, incoming);
    if root.Err? { return Err(root.error); }
    var order := Walk(nodes, edges, incoming, next, root.value);
    if order.Err? { return Err(order.error); }
    forall chain | IsChain(nodes, edges, chain) ensures order.value == chain {
      ChainIsWalked(nodes, edges, next, root.value, order.value, chain);
    }
    if |order.value| != |nodes| || |order.value| < 2 {
      return Err("the graph is not one chain of work between two events");
    }
    WalkIsChain(nodes, edges, next, root.value, order.value);
    return order;
  }

  // ------------------------------------------------------------------------- the only order

  /** An order of the nodes in which every edge leads forward. */
  ghost predicate Topological(nodes: seq<Node>, edges: seq<Edge>, order: seq<Node>) {
    && Distinct(order) && |order| == |nodes| && (forall n :: n in order <==> n in nodes)
    && forall e, i, j | e in edges && 0 <= i < |order| && 0 <= j < |order| && order[i] == e.from && order[j] == e.to :: i < j
  }

  lemma {:induction false} NoEarlier(nodes: seq<Node>, edges: seq<Edge>, chain: seq<Node>, order: seq<Node>, k: nat, p: nat)
    requires IsChain(nodes, edges, chain) && Topological(nodes, edges, order)
    requires k < |chain| && p < |order| && order[p] == chain[k]
    ensures k <= p
  {
    if 0 < k {
      assert chain[k - 1] in chain;
      var q :| 0 <= q < |order| && order[q] == chain[k - 1];
      NoEarlier(nodes, edges, chain, order, k - 1, q);
      assert Edge(chain[k - 1], chain[k - 1 + 1]) in edges;
      assert q < p;
    }
  }

  lemma {:induction false} NoLater(nodes: seq<Node>, edges: seq<Edge>, chain: seq<Node>, order: seq<Node>, k: nat, p: nat)
    requires IsChain(nodes, edges, chain) && Topological(nodes, edges, order)
    requires k < |chain| && p < |order| && order[p] == chain[k]
    ensures p <= k
    decreases |chain| - k
  {
    if k < |chain| - 1 {
      assert chain[k + 1] in chain;
      var q :| 0 <= q < |order| && order[q] == chain[k + 1];
      NoLater(nodes, edges, chain, order, k + 1, q);
      assert Edge(chain[k], chain[k + 1]) in edges;
      assert p < q;
    }
  }

  /** A chain's order is the only one in which every edge leads forward. */
  lemma OnlyOrder(nodes: seq<Node>, edges: seq<Edge>, chain: seq<Node>, order: seq<Node>)
    requires IsChain(nodes, edges, chain) && Topological(nodes, edges, order)
    ensures order == chain
  {
    forall k | 0 <= k < |chain| ensures order[k] == chain[k] {
      assert chain[k] in chain;
      var p :| 0 <= p < |order| && order[p] == chain[k];
      NoEarlier(nodes, edges, chain, order, k, p);
      NoLater(nodes, edges, chain, order, k, p);
    }
  }
}
