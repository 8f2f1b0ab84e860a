/**
  TaskDAG::HasCycle (src/TaskDAG.cpp:99-126): Kahn's worklist over the built graph.
  `out[u]` is node u's edge list, one entry per AddDependency call, so an edge may occur
  several times; `left` is each node's dependencies_left.
 */
module DagCycle {

  type Graph = seq<seq<nat>>

  predicate WellFormed(out: Graph) {
    forall u, k | 0 <= u < |out| && 0 <= k < |out[u]| :: out[u][k] < |out|
  }

  function Count(xs: seq<nat>, x: nat): nat {
    if xs == [] then 0 else (if xs[0] == x then 1 else 0) + Count(xs[1..], x)
  }

  // Edges into v from the nodes below k that are not in `done`, with multiplicity.
  function Incoming(out: Graph, done: set<nat>, v: nat, k: nat): nat
    requires k <= |out|
  {
    if k == 0 then 0
    else Incoming(out, done, v, k - 1) + if k - 1 in done then 0 else Count(out[k - 1], v)
  }

  predicate Edge(out: Graph, u: nat, v: nat) {
    u < |out| && v in out[u]
  }

  // A directed cycle: a closed walk of at least one edge.
  ghost predicate IsCycle(out: Graph, p: seq<nat>) {
    |p| >= 2 && p[0] == p[|p| - 1] && forall i | 0 <= i < |p| - 1 :: Edge(out, p[i], p[i + 1])
  }

  ghost predicate Cyclic(out: Graph) {
    exists p :: IsCycle(out, p)
  }

  // ---------- counting edges ----------

  lemma {:induction false} CountPositive(xs: seq<nat>, x: nat)
    ensures Count(xs, x) > 0 <==> x in xs
  {
    if xs != [] { CountPositive(xs[1..], x); }
  }

  lemma {:induction false} IncomingOfDone(out: Graph, done: set<nat>, u: nat, v: nat, k: nat)
    requires k <= |out| && u < |out| && u !in done
    ensures Incoming(out, done + {u}, v, k) == Incoming(out, done, v, k) - if u < k then Count(out[u], v) else 0
  {
    if k > 0 { IncomingOfDone(out, done, u, v, k - 1); }
  }

  // A positive count has a witness: an unfinished predecessor.
  lemma {:induction false} IncomingWitness(out: Graph, done: set<nat>, v: nat, k: nat) returns (u: nat)
    requires k <= |out| && Incoming(out, done, v, k) > 0
    ensures u < k && u !in done && Edge(out, u, v)
  {
    if k - 1 !in done && Count(out[k - 1], v) > 0 {
      u := k - 1;
      CountPositive(out[u], v);
    } else {
      u := IncomingWitness(out, done, v, k - 1);
    }
  }

  lemma {:induction false} IncomingZero(out: Graph, done: set<nat>, v: nat, k: nat, u: nat)
    requires u < k <= |out| && u !in done && Incoming(out, done, v, k) == 0
    ensures !Edge(out, u, v)
  {
    CountPositive(out[k - 1], v);
    if u < k - 1 { IncomingZero(out, done, v, k - 1, u); }
  }

  // ---------- acyclic: the order of processing is topological ----------

  // Every edge into a processed node comes from a node processed before it.
  ghost predicate Topological(out: Graph, order: seq<nat>) {
    forall j, u | 0 <= j < |order| && Edge(out, u, order[j]) :: u in order[..j]
  }

  ghost predicate Distinct(xs: seq<nat>) {
    forall i, j | 0 <= i < j < |xs| :: xs[i] != xs[j]
  }

  ghost function Position(order: seq<nat>, v: nat): (k: nat)
    requires v in order
    ensures k < |order| && order[k] == v
  {
    var k :| 0 <= k < |order| && order[k] == v; k
  }

  lemma {:induction false} WalkDescends(out: Graph, order: seq<nat>, p: seq<nat>, i: nat)
    requires Distinct(order) && Topological(out, order) && i + 1 < |p|
    requires forall k | 0 <= k < |p| - 1 :: Edge(out, p[k], p[k + 1])
    requires p[|p| - 1] in order
    ensures p[i] in order && Position(order, p[i]) < Position(order, p[|p| - 1])
    decreases |p| - i
  {
    if i + 2 < |p| { WalkDescends(out, order, p, i + 1); }
    assert p[i + 1] in order;
    var j := Position(order, p[i + 1]);
    assert Edge(out, p[i], order[j]);
    assert p[i] in order[..j];
    var k :| 0 <= k < j && order[k] == p[i];
    assert Position(order, p[i]) == k;
  }

  lemma TopologicalIsAcyclic(out: Graph, order: seq<nat>)
    requires WellFormed(out) && Distinct(order) && Topological(out, order)
    requires forall v: nat | v < |out| :: v in order
    ensures !Cyclic(out)
  {
    forall p | IsCycle(out, p) ensures false {
      assert Edge(out, p[|p| - 2], p[|p| - 1]);
      assert p[|p| - 1] in order;
      WalkDescends(out, order, p, 0);
    }
  }

  // ---------- cyclic: unfinished nodes have unfinished predecessors ----------

  ghost predicate Stuck(out: Graph, done: set<nat>) {
    forall v | 0 <= v < |out| && v !in done :: Incoming(out, done, v, |out|) > 0
  }

  // A walk of any length that stays among the unfinished nodes, built backwards.
  lemma {:induction false} LongWalk(out: Graph, done: set<nat>, v: nat, n: nat) returns (p: seq<nat>)
    requires Stuck(out, done) && v < |out| && v !in done
    ensures |p| == n + 1
    ensures forall i | 0 <= i < |p| :: p[i] < |out|
    ensures forall i | 0 <= i < |p| - 1 :: Edge(out, p[i], p[i + 1])
    ensures p[0] !in done
  {
    if n == 0 { p := [v]; }
    else {
      var q := LongWalk(out, done, v, n - 1);
      var u := IncomingWitness(out, done, q[0], |out|);
      p := [u] + q;
    }
  }

  lemma {:induction false} DistinctBelow(xs: seq<nat>, n: nat)
    requires Distinct(xs) && forall x | x in xs :: x < n
    ensures |xs| <= n
  {
    assert |xs| > 0 ==> xs[0] in xs;
    if n == 0 {
    } else if n - 1 in xs {
      var k :| 0 <= k < |xs| && xs[k] == n - 1;
      var ys := xs[..k] + xs[k + 1..];
      forall i | 0 <= i < |ys| ensures ys[i] == xs[if i < k then i else i + 1] {}
      forall x | x in ys ensures x < n - 1 { assert x in xs && x != n - 1; }
      DistinctBelow(ys, n - 1);
    } else {
      DistinctBelow(xs, n - 1);
    }
  }

  lemma StuckIsCyclic(out: Graph, done: set<nat>, v: nat)
    requires Stuck(out, done) && v < |out| && v !in done
    ensures Cyclic(out)
  {
    var p := LongWalk(out, done, v, |out|);
    if Distinct(p) { DistinctBelow(p, |out|); }
    var i, j :| 0 <= i < j < |p| && p[i] == p[j];
    var c := p[i..j + 1];
    forall k | 0 <= k < |c| - 1 ensures Edge(out, c[k], c[k + 1]) {
      assert c[k] == p[i + k] && c[k + 1] == p[i + k + 1];
    }
    assert IsCycle(out, c);
  }

  // ---------- the algorithm ----------

  // The worklist holds exactly the unprocessed nodes that nothing unprocessed points to.
  ghost predicate ReadyOk(indeg: seq<int>, done: set<nat>, ready: seq<nat>) {
    && Distinct(ready)
    && forall v: nat :: v in ready <==> v < |indeg| && v !in done && indeg[v] == 0
  }

  ghost predicate OrderOk(out: Graph, order: seq<nat>, done: set<nat>) {
    && Distinct(order) && Topological(out, order)
    && forall v: nat :: v in done <==> v in order
  }

  lemma {:induction false} OrderSize(order: seq<nat>, n: nat)
    requires Distinct(order) && (forall v | v in order :: v < n) && |order| == n
    ensures forall v: nat | v < n :: v in order
  {
    forall v: nat | v < n ensures v in order {
      if v !in order {
        DistinctBelow(order + [v], n);
      }
    }
  }

  lemma OrderExtends(out: Graph, order: seq<nat>, done: set<nat>, v: nat)
    requires OrderOk(out, order, done) && v < |out| && v !in done && Incoming(out, done, v, |out|) == 0
    ensures OrderOk(out, order + [v], done + {v})
  {
    forall u | Edge(out, u, v) ensures u in order {
      if u !in done { IncomingZero(out, done, v, |out|, u); }
    }
    var longer := order + [v];
    forall j, u | 0 <= j < |longer| && Edge(out, u, longer[j]) ensures u in longer[..j] {
      if j < |order| { assert longer[..j] == order[..j]; } else { assert longer[..j] == order; }
    }
  }

  // HasCycle's inner loop: the edges out of a processed node no longer count.
  method Release(out: Graph, nd: nat, indeg0: seq<int>, ready0: seq<nat>, ghost done: set<nat>)
    returns (indeg: seq<int>, ready: seq<nat>)
    requires WellFormed(out) && nd < |out| == |indeg0| && ReadyOk(indeg0, done, ready0)
    requires forall v | v in done :: v < |out| && indeg0[v] == 0
    requires forall v | 0 <= v < |out| :: indeg0[v] == Incoming(out, done, v, |out|) + Count(out[nd], v)
    ensures |indeg| == |out| && ReadyOk(indeg, done, ready) && forall v | v in done :: indeg[v] == 0
    ensures forall v | 0 <= v < |out| :: indeg[v] == Incoming(out, done, v, |out|)
  {
    var n := |out|;
    indeg, ready := indeg0, ready0;
    assert out[nd][0..] == out[nd];
    for k := 0 to |out[nd]|
      invariant |indeg| == n && ReadyOk(indeg, done, ready) && forall v | v in done :: indeg[v] == 0
      invariant forall v | 0 <= v < n :: indeg[v] == Incoming(out, done, v, n) + Count(out[nd][k..], v)
    {
      var dep := out[nd][k];
      assert out[nd][k..][1..] == out[nd][k + 1..] && out[nd][k..][0] == dep;
      indeg := indeg[dep := indeg[dep] - 1];
      if indeg[dep] == 0 { ready := ready + [dep]; }
    }
  }

  /** HasCycle answers true exactly when the graph has a directed cycle. */
  method HasCycle(out: Graph, left: seq<nat>) returns (cyclic: bool)
    requires WellFormed(out) && |left| == |out|
    requires forall v | 0 <= v < |out| :: left[v] == Incoming(out, {}, v, |out|)
    ensures cyclic <==> Cyclic(out)
  {
    var n := |out|;
    var indeg: seq<int> := left;
    var ready: seq<nat> := [];
    var i := 0;
    while i < n
      invariant 0 <= i <= n && |indeg| == n
      invariant Distinct(ready)
      invariant forall v: nat :: v in ready <==> v < i && indeg[v] == 0
    {
      if indeg[i] == 0 { ready := ready + [i]; }
      i := i + 1;
    }

    var processed := 0;
    ghost var done: set<nat> := {};
    ghost var order: seq<nat> := [];
    while ready != []
      invariant |indeg| == n && ReadyOk(indeg, done, ready) && OrderOk(out, order, done)
      invariant processed == |order|
      invariant forall v | v in done :: v < n && indeg[v] == 0
      invariant forall v | 0 <= v < n :: indeg[v] == Incoming(out, done, v, n)
      decreases n - |order|
    {
      var nd := ready[|ready| - 1];
      assert nd in ready;
      ghost var before := done;
      OrderExtends(out, order, done, nd);
      ready := ready[..|ready| - 1];
      processed := processed + 1;
      order := order + [nd];
      done := done + {nd};
      assert |order| <= n by { DistinctBelow(order, n); }
      forall v | 0 <= v < n ensures indeg[v] == Incoming(out, done, v, n) + Count(out[nd], v) {
        IncomingOfDone(out, before, nd, v, n);
      }
      indeg, ready := Release(out, nd, indeg, ready, done);
    }
    cyclic := processed != n;
    if cyclic {
      UnfinishedNode(order, n);
      ghost var v: nat :| v < n && v !in order;
      StuckIsCyclic(out, done, v);
    } else {
      OrderSize(order, n);
      TopologicalIsAcyclic(out, order);
    }
  }

  lemma UnfinishedNode(order: seq<nat>, n: nat)
    requires Distinct(order) && (forall v | v in order :: v < n) && |order| != n
    ensures exists v: nat :: v < n && v !in order
  {
    if forall v: nat | v < n :: v in order {
      CoverSize(order, n);
      DistinctBelow(order, n);
    }
  }

  lemma {:induction false} CoverSize(xs: seq<nat>, n: nat)
    requires forall v: nat | v < n :: v in xs
    ensures |xs| >= n
  {
    if n > 0 {
      assert n - 1 in xs;
      var k :| 0 <= k < |xs| && xs[k] == n - 1;
      var ys := xs[..k] + xs[k + 1..];
      forall v: nat | v < n - 1 ensures v in ys {
        assert v in xs;
        var i :| 0 <= i < |xs| && xs[i] == v;
        assert ys[if i < k then i else i - 1] == v;
      }
      CoverSize(ys, n - 1);
    }
  }
}
