/** The second half of FindPath (qln/routing.go:333-446): reweighting, a search by
    increasing distance with a lazy heap, and reading the route off the predecessors. */
module Routing {
  import opened Wrappers
  import ChannelState
  import opened Graphs
  import opened BellmanFord
  import opened RouteTables

  // ---------------------------------------------------------------- the heap

  /** Some entry at least as near as every other; what remains is in any order. */
  method Pop(heap: seq<NodeWithDist>) returns (top: NodeWithDist, rest: seq<NodeWithDist>)
    requires |heap| > 0
    ensures multiset(heap) == multiset(rest) + multiset{top} && |rest| == |heap| - 1
    ensures forall x <- heap :: top.dist <= x.dist
  {
    var at := 0;
    for i := 1 to |heap|
      invariant 0 <= at < i && forall k :: 0 <= k < i ==> heap[at].dist <= heap[k].dist
    {
      if heap[i].dist < heap[at].dist {
        at := i;
      }
    }
    top, rest := heap[at], heap[..at] + heap[at + 1..];
    assert heap == heap[..at] + [heap[at]] + heap[at + 1..];
  }

  lemma PopKeeps(heap: seq<NodeWithDist>, top: NodeWithDist, rest: seq<NodeWithDist>)
    requires multiset(heap) == multiset(rest) + multiset{top}
    ensures top in heap && forall x <- rest :: x in heap
    ensures forall x <- heap :: x == top || x in rest
  {
    forall x | x in rest ensures x in heap { assert x in multiset(heap); }
    assert top in multiset(heap);
    forall x | x in heap ensures x == top || x in rest { assert x in multiset(rest) + multiset{top}; }
  }

  // -------------------------------------------------------------- the search

  /** The entry's amount is what is left of the amount after some walk to its vertex. */
  ghost predicate Arrives(edges: seq<Edge>, origin: nat, amount: int, x: NodeWithDist) {
    exists q :: IsWalk(edges, q, origin, x.node) && AmountAfter(q, amount) == x.amt
  }

  /** The edge can take what some walk to its start leaves of the amount. */
  ghost predicate Carries(edges: seq<Edge>, fees: seq<Option<int>>, origin: nat, amount: int, e: Edge) {
    exists q :: IsWalk(edges, q, origin, e.u) && Usable(fees, e, AmountAfter(q, amount))
  }

  /** v's predecessor leads to it by an edge that carries. */
  ghost predicate PredCarries(edges: seq<Edge>, fees: seq<Option<int>>, origin: nat, amount: int, t: Tables, v: nat)
    requires Known(t, v) && v < |t.pred|
  {
    Known(t, t.pred[v]) &&
    exists e :: e in edges && e.u == t.pred[v] && e.v == v && Dist(t, e.u) + e.w <= Dist(t, v)
             && Carries(edges, fees, origin, amount, e)
  }

  /** Every vertex that has been reached was reached by an edge that carries, and every
      entry of the heap has an amount that arrives, even one that is out of date. */
  ghost predicate Carried(edges: seq<Edge>, fees: seq<Option<int>>, origin: nat, amount: int, t: Tables,
                          heap: seq<NodeWithDist>)
  {
    && (forall x <- heap :: Known(t, x.node) && Arrives(edges, origin, amount, x))
    && forall v: nat :: v < |t.pred| && Known(t, v) && v != origin ==> PredCarries(edges, fees, origin, amount, t, v)
  }

  predicate EdgeDone(t: Tables, e: Edge) {
    Known(t, e.u) ==> Known(t, e.v) && Dist(t, e.v) <= Dist(t, e.u) + e.w
  }

  predicate VertexDone(edges: seq<Edge>, t: Tables, u: nat) {
    forall e <- edges :: e.u == u ==> EdgeDone(t, e)
  }

  /** Entries of the heap are out of date only if they are farther than what is known by
      now; each amount is what its walk leaves; and every vertex but skip has its current
      entry in the heap or has had its edges relaxed. */
  ghost predicate Lazy(edges: seq<Edge>, amount: int, t: Tables, heap: seq<NodeWithDist>, skip: int) {
    && (forall x <- heap :: Known(t, x.node) && (x.dist > Dist(t, x.node) || x == t.best[x.node].value))
    && (forall v: nat :: Known(t, v) && v < |t.walk| ==> t.best[v].value.amt == AmountAfter(t.walk[v], amount))
    && forall u: nat :: u != skip && Known(t, u) ==> t.best[u].value in heap || VertexDone(edges, t, u)
  }

  /** The entry is what is known of its vertex, or nothing is left to do there. */
  ghost predicate Current(edges: seq<Edge>, t: Tables, x: NodeWithDist) {
    Known(t, x.node) && (x == t.best[x.node].value || VertexDone(edges, t, x.node))
  }

  /** Each vertex but the origin was reached from its predecessor along the last edge of its
      walk, which can take what the walk leaves before it. */
  ghost predicate Straight(fees: seq<Option<int>>, origin: nat, amount: int, t: Tables) {
    forall v: nat :: Known(t, v) && v != origin && v < |t.walk| && v < |t.pred| ==> LastFits(fees, amount, t, v)
  }

  ghost predicate LastFits(fees: seq<Option<int>>, amount: int, t: Tables, v: nat)
    requires v < |t.walk| && v < |t.pred|
  {
    var p := t.walk[v];
    p != [] &&
    var e := p[|p| - 1];
    && t.pred[v] == e.u && Known(t, e.u) && e.u < |t.walk| && p[..|p| - 1] == t.walk[e.u]
    && Usable(fees, e, AmountAfter(t.walk[e.u], amount))
  }

  /** The heap is beyond the front, and all predecessors are within it. */
  ghost predicate Fronted(origin: nat, t: Tables, heap: seq<NodeWithDist>, front: real) {
    && (forall x <- heap :: front <= x.dist)
    && forall v: nat :: Known(t, v) && v != origin && v < |t.pred| ==> Known(t, t.pred[v]) && Dist(t, t.pred[v]) <= front
  }

  /** What holds as long as no edge that would have bettered a distance has been left out. */
  ghost predicate Clean(edges: seq<Edge>, fees: seq<Option<int>>, origin: nat, amount: int, t: Tables,
                        heap: seq<NodeWithDist>, skip: int, front: real)
  {
    Lazy(edges, amount, t, heap, skip) && Straight(fees, origin, amount, t) && Fronted(origin, t, heap, front)
  }

  /** The least entry is current. */
  lemma PopClean(edges: seq<Edge>, fees: seq<Option<int>>, n: nat, origin: nat, amount: int, t: Tables,
                 heap: seq<NodeWithDist>, front: real, top: NodeWithDist, rest: seq<NodeWithDist>)
    requires Clean(edges, fees, origin, amount, t, heap, -1, front) && TablesOk(edges, n, origin, t)
    requires multiset(heap) == multiset(rest) + multiset{top} && forall x <- heap :: top.dist <= x.dist
    ensures Clean(edges, fees, origin, amount, t, rest, top.node, top.dist) && Current(edges, t, top)
  {
    hide AmountAfter, VertexDone, WalkOk, PredOk, Straight;
    PopKeeps(heap, top, rest);
    forall u: nat | u != top.node && Known(t, u) ensures t.best[u].value in rest || VertexDone(edges, t, u) {
      assert VertexOk(edges, origin, t, u);
    }
  }

  /** A current entry that would better a distance has the distance of its vertex, and the
      amount that the vertex's walk leaves. */
  lemma CurrentBest(edges: seq<Edge>, amount: int, t: Tables, heap: seq<NodeWithDist>, x: NodeWithDist, e: Edge)
    requires Lazy(edges, amount, t, heap, x.node) && Current(edges, t, x) && |t.walk| == |t.best|
    requires e in edges && e.u == x.node && e.v < |t.best| && Better(t, e)
    ensures x == t.best[e.u].value && x.amt == AmountAfter(t.walk[e.u], amount)
  {
    hide AmountAfter;
    assert !EdgeDone(t, e);
  }

  /** Its walk repeats no vertex, so the edge is usable if all such walks are. */
  lemma CurrentUsable(edges: seq<Edge>, fees: seq<Option<int>>, n: nat, origin: nat, amount: int, t: Tables,
                      heap: seq<NodeWithDist>, x: NodeWithDist, e: Edge)
    requires TablesOk(edges, n, origin, t) && NonNegative(edges) && Unhindered(edges, fees, origin, amount)
    requires Lazy(edges, amount, t, heap, x.node) && Current(edges, t, x)
    requires e in edges && e.u == x.node && e.v < n && Known(t, e.u) && Better(t, e)
    ensures Usable(fees, e, x.amt)
  {
    hide IsWalk, Weight, PredOk, Usable, AmountAfter, Simple, Lazy, Current;
    CurrentBest(edges, amount, t, heap, x, e);
    assert VertexOk(edges, origin, t, e.u);
    NewOnWalk(edges, n, origin, t, e);
    SimpleStep(t.walk[e.u], origin, e);
  }

  lemma TakenLazy(edges: seq<Edge>, n: nat, origin: nat, amount: int, t: Tables, heap: seq<NodeWithDist>, e: Edge,
                  x: NodeWithDist)
    requires TablesOk(edges, n, origin, t) && Lazy(edges, amount, t, heap, e.u)
    requires Known(t, e.u) && e.v < n && Better(t, e) && e.u != e.v
    requires x == NodeWithDist(Dist(t, e.u) + e.w, e.v, NextAmt(e, AmountAfter(t.walk[e.u], amount)))
    ensures Lazy(edges, amount, Taken(t, e, x.amt), heap + [x], e.u)
  {
    hide NextAmt, VertexDone, VertexOk;
    var t' := Taken(t, e, x.amt);
    assert t'.best[e.v].value == x && (t.walk[e.u] + [e])[..|t.walk[e.u]|] == t.walk[e.u];
    forall u: nat | u != e.u && Known(t', u) ensures t'.best[u].value in heap + [x] || VertexDone(edges, t', u) {
      if u != e.v && t.best[u].value !in heap { EdgesStayDone(edges, t, e, x.amt, u); }
    }
  }

  /** No vertex has been reached from the end of an edge that is taken, for the end is
      beyond the front. */
  lemma TakenStraight(fees: seq<Option<int>>, origin: nat, amount: int, t: Tables, heap: seq<NodeWithDist>, e: Edge, amt: int)
    requires |t.best| == |t.pred| == |t.walk| == |t.time| && Known(t, e.u) && e.v < |t.best| && Better(t, e) && e.u != e.v
    requires Straight(fees, origin, amount, t) && Fronted(origin, t, heap, Dist(t, e.u)) && e.w >= 0.0
    requires Usable(fees, e, AmountAfter(t.walk[e.u], amount))
    ensures Straight(fees, origin, amount, Taken(t, e, amt))
  {
    hide Usable, AmountAfter;
    var t' := Taken(t, e, amt);
    forall v: nat | Known(t', v) && v != origin ensures LastFits(fees, amount, t', v) {
      if v == e.v {
        assert t'.walk[v][..|t'.walk[v]| - 1] == t.walk[e.u];
      } else {
        assert LastFits(fees, amount, t, v);
        assert t.pred[v] != e.v;
      }
    }
  }

  lemma TakenFronted(origin: nat, t: Tables, heap: seq<NodeWithDist>, e: Edge, x: NodeWithDist)
    requires |t.best| == |t.pred| == |t.walk| == |t.time| && Known(t, e.u) && e.v < |t.best| && Better(t, e) && e.u != e.v
    requires Fronted(origin, t, heap, Dist(t, e.u)) && e.w >= 0.0 && x.dist == Dist(t, e.u) + e.w
    ensures Fronted(origin, Taken(t, e, x.amt), heap + [x], Dist(t, e.u))
  {}

  lemma TakenClean(edges: seq<Edge>, fees: seq<Option<int>>, n: nat, origin: nat, amount: int, t: Tables,
                   heap: seq<NodeWithDist>, e: Edge, x: NodeWithDist)
    requires TablesOk(edges, n, origin, t) && Known(t, e.u) && e.v < n && Better(t, e) && e.u != e.v && e.w >= 0.0
    requires Clean(edges, fees, origin, amount, t, heap, e.u, Dist(t, e.u))
    requires Usable(fees, e, AmountAfter(t.walk[e.u], amount))
    requires x == NodeWithDist(Dist(t, e.u) + e.w, e.v, NextAmt(e, AmountAfter(t.walk[e.u], amount)))
    ensures Clean(edges, fees, origin, amount, Taken(t, e, x.amt), heap + [x], e.u, Dist(t, e.u))
  {
    hide NextAmt, VertexOk, Lazy, Straight, Fronted, Usable, AmountAfter;
    TakenLazy(edges, n, origin, amount, t, heap, e, x);
    TakenStraight(fees, origin, amount, t, heap, e, x.amt);
    TakenFronted(origin, t, heap, e, x);
  }

  lemma ArrivesNext(edges: seq<Edge>, origin: nat, amount: int, x: NodeWithDist, e: Edge, dist: real)
    requires Arrives(edges, origin, amount, x) && e in edges && e.u == x.node
    ensures Arrives(edges, origin, amount, NodeWithDist(dist, e.v, NextAmt(e, x.amt)))
  {
    hide IsWalk, NextAmt;
    var q :| IsWalk(edges, q, origin, x.node) && AmountAfter(q, amount) == x.amt;
    WalkStep(edges, q, origin, e);
    assert (q + [e])[..|q|] == q;
  }

  /** Whatever entry an edge is taken from, current or not. */
  lemma TakenCarried(edges: seq<Edge>, fees: seq<Option<int>>, n: nat, origin: nat, amount: int, t: Tables,
                     heap: seq<NodeWithDist>, from: NodeWithDist, e: Edge, x: NodeWithDist)
    requires |t.best| == |t.pred| == |t.walk| == |t.time| && Known(t, e.u) && e.v < |t.best| && Better(t, e) && e.u != e.v
    requires Carried(edges, fees, origin, amount, t, heap) && Arrives(edges, origin, amount, from)
    requires e in edges && e.u == from.node && Usable(fees, e, from.amt) && e.w >= 0.0
    requires x == NodeWithDist(Dist(t, e.u) + e.w, e.v, NextAmt(e, from.amt))
    ensures Carried(edges, fees, origin, amount, Taken(t, e, x.amt), heap + [x])
  {
    hide Usable, NextAmt, Arrives, IsWalk, AmountAfter, Carries;
    var t' := Taken(t, e, x.amt);
    ArrivesNext(edges, origin, amount, from, e, x.dist);
    ArrivesCarries(edges, fees, origin, amount, from, e);
    forall v: nat | v < |t'.pred| && Known(t', v) && v != origin ensures PredCarries(edges, fees, origin, amount, t', v) {
      if v != e.v { PredStaysCarried(edges, fees, origin, amount, t, e, x.amt, v); }
    }
  }

  lemma ArrivesCarries(edges: seq<Edge>, fees: seq<Option<int>>, origin: nat, amount: int, x: NodeWithDist, e: Edge)
    requires Arrives(edges, origin, amount, x) && e.u == x.node && Usable(fees, e, x.amt)
    ensures Carries(edges, fees, origin, amount, e)
  {}

  lemma PredStaysCarried(edges: seq<Edge>, fees: seq<Option<int>>, origin: nat, amount: int, t: Tables, e: Edge, amt: int,
                         v: nat)
    requires |t.best| == |t.pred| == |t.walk| == |t.time| && Known(t, e.u) && e.v < |t.best| && Better(t, e)
    requires v < |t.pred| && Known(t, v) && v != e.v && PredCarries(edges, fees, origin, amount, t, v)
    ensures PredCarries(edges, fees, origin, amount, Taken(t, e, amt), v)
  {
    hide Carries;
  }

  lemma EdgesStayDone(edges: seq<Edge>, t: Tables, e: Edge, amt: int, u: nat)
    requires |t.best| == |t.pred| == |t.walk| == |t.time| && Known(t, e.u) && e.v < |t.best| && Better(t, e)
    requires u != e.v && VertexDone(edges, t, u)
    ensures VertexDone(edges, Taken(t, e, amt), u)
  {}

  /** The vertex that was skipped is done once all its edges are. */
  lemma AllDone(edges: seq<Edge>, out: seq<Edge>, t: Tables, u: nat)
    requires forall e :: e in edges && e.u == u ==> e in out
    requires forall k :: 0 <= k < |out| ==> EdgeDone(t, out[k])
    ensures forall amount, heap :: Lazy(edges, amount, t, heap, u) ==> Lazy(edges, amount, t, heap, -1)
  {
    hide AmountAfter, Known, EdgeDone;
    assert VertexDone(edges, t, u);
    hide VertexDone;
  }

  /** Relax every usable edge out of the vertex just taken from the heap.  excluded says
      whether an edge that would have bettered a distance has been left out so far. */
  method Explore(n: nat, edges: seq<Edge>, out: seq<Edge>, fees: seq<Option<int>>, origin: nat, ghost amount: int,
                 from: NodeWithDist, best0: seq<Option<NodeWithDist>>, pred0: seq<int>,
                 heap0: seq<NodeWithDist>, ghost t0: Tables, ghost excluded0: bool)
    returns (best: seq<Option<NodeWithDist>>, pred: seq<int>, heap: seq<NodeWithDist>, ghost t: Tables, ghost excluded: bool)
    requires Within(edges, n) && NonNegative(edges) && RatesOk(edges) && |fees| == n
    requires TablesOk(edges, n, origin, t0) && t0.best == best0 && t0.pred == pred0
    requires Carried(edges, fees, origin, amount, t0, heap0) && Known(t0, from.node) && Arrives(edges, origin, amount, from)
    requires forall e :: e in out <==> e in edges && e.u == from.node
    requires !excluded0 ==> Clean(edges, fees, origin, amount, t0, heap0, from.node, from.dist) && Current(edges, t0, from)
    ensures TablesOk(edges, n, origin, t) && t.best == best && t.pred == pred
    ensures Carried(edges, fees, origin, amount, t, heap)
    ensures !excluded ==> Clean(edges, fees, origin, amount, t, heap, -1, from.dist)
    ensures Unhindered(edges, fees, origin, amount) && !excluded0 ==> !excluded
    ensures (t == t0 && heap == heap0) || Ranks(Weights(edges, n), t.best) < Ranks(Weights(edges, n), t0.best)
  {
    hide IsWalk, Weight, Weights, Unhindered, Usable, NextAmt, VertexOk, Lazy, Ranks, VertexDone, AmountAfter, Carried,
         Arrives, Straight, Fronted, Current;
    best, pred, heap, t, excluded := best0, pred0, heap0, t0, excluded0;
    if fees[from.node].None? {
      if k: nat :| k < |out| && Better(t, out[k]) {
        if !excluded0 { UnknownHinders(edges, fees, n, origin, amount, t, heap, from, out[k]); }
        excluded := true;
      } else {
        AllDone(edges, out, t, from.node);
      }
      return;
    }
    var fee := fees[from.node].value;
    for j := 0 to |out|
      invariant TablesOk(edges, n, origin, t) && t.best == best && t.pred == pred
      invariant Carried(edges, fees, origin, amount, t, heap) && Known(t, from.node)
      invariant !excluded ==> Clean(edges, fees, origin, amount, t, heap, from.node, from.dist) && Current(edges, t, from)
      invariant !excluded ==> forall k :: 0 <= k < j ==> EdgeDone(t, out[k])
      invariant Unhindered(edges, fees, origin, amount) && !excluded0 ==> !excluded
      invariant (t == t0 && heap == heap0) || Ranks(Weights(edges, n), t.best) < Ranks(Weights(edges, n), t0.best)
    {
      var e := out[j];
      assert e in edges && e.u == from.node && e.v < n;
      var amtRqd := from.amt;
      if !excluded && Better(t, e) { MayExclude(edges, fees, n, origin, amount, t, heap, from, e); }
      if amtRqd < ChannelState.MIN_OUTPUT + fee {
        excluded := excluded || Better(t, e);
        continue;
      }
      if amtRqd > e.capacity {
        excluded := excluded || Better(t, e);
        continue;
      }
      var nextAmt := NextAmt(e, amtRqd);
      var alt := best[from.node].value.dist + e.w;
      if best[e.v].Some? && alt >= best[e.v].value.dist {
        continue;
      }
      var entry := NodeWithDist(alt, e.v, nextAmt);
      UsableIs(fees, e, amtRqd);
      NewOnWalk(edges, n, origin, t, e);
      TakenOk(edges, n, origin, t, e, nextAmt);
      TakenDescends(edges, n, origin, t, e, nextAmt);
      TakenCarried(edges, fees, n, origin, amount, t, heap, from, e, entry);
      if !excluded {
        TakenClean(edges, fees, n, origin, amount, t, heap, e, entry);
        TakenKeepsDone(t, out, j, e, nextAmt);
        StaysCurrent(edges, t, from, e, nextAmt);
      }
      t := Taken(t, e, nextAmt);
      best := best[e.v := Some(entry)];
      pred := pred[e.v := e.u];
      heap := heap + [entry];
    }
    if !excluded { AllDone(edges, out, t, from.node); }
  }

  /** The checks of the amount are those that make an edge usable. */
  lemma UsableIs(fees: seq<Option<int>>, e: Edge, amt: int)
    ensures Usable(fees, e, amt) <==>
      (e.u < |fees| && fees[e.u].Some? && amt >= ChannelState.MIN_OUTPUT + fees[e.u].value && amt <= e.capacity)
  {}

  /** What is known of an edge about to better a distance: its entry is the best, and it is
      usable unless some simple walk is hindered. */
  lemma MayExclude(edges: seq<Edge>, fees: seq<Option<int>>, n: nat, origin: nat, amount: int, t: Tables,
                   heap: seq<NodeWithDist>, x: NodeWithDist, e: Edge)
    requires TablesOk(edges, n, origin, t) && NonNegative(edges)
    requires Lazy(edges, amount, t, heap, x.node) && Current(edges, t, x)
    requires e in edges && e.u == x.node && e.v < n && Known(t, e.u) && Better(t, e)
    ensures x == t.best[e.u].value && x.amt == AmountAfter(t.walk[e.u], amount)
    ensures Unhindered(edges, fees, origin, amount) ==>
      e.u < |fees| && fees[e.u].Some? && x.amt >= ChannelState.MIN_OUTPUT + fees[e.u].value && x.amt <= e.capacity
  {
    hide Unhindered, Lazy, Current, TablesOk, AmountAfter;
    SameSizes(edges, n, origin, t);
    CurrentBest(edges, amount, t, heap, x, e);
    if Unhindered(edges, fees, origin, amount) { CurrentUsable(edges, fees, n, origin, amount, t, heap, x, e); }
  }

  lemma SameSizes(edges: seq<Edge>, n: nat, origin: nat, t: Tables)
    requires TablesOk(edges, n, origin, t)
    ensures |t.best| == |t.pred| == |t.walk| == |t.time| == n
  {}

  lemma StaysCurrent(edges: seq<Edge>, t: Tables, x: NodeWithDist, e: Edge, amt: int)
    requires |t.best| == |t.pred| == |t.walk| == |t.time| && Known(t, e.u) && e.v < |t.best| && e.u < |t.walk|
    requires e.u == x.node != e.v && x == t.best[e.u].value
    ensures Current(edges, Taken(t, e, amt), x)
  {}

  lemma UnknownHinders(edges: seq<Edge>, fees: seq<Option<int>>, n: nat, origin: nat, amount: int, t: Tables,
                       heap: seq<NodeWithDist>, x: NodeWithDist, e: Edge)
    requires TablesOk(edges, n, origin, t) && NonNegative(edges) && e in edges && e.u == x.node && e.v < n
    requires Lazy(edges, amount, t, heap, x.node) && Current(edges, t, x)
    requires Known(t, e.u) && Better(t, e) && x.node < |fees| && fees[x.node].None?
    ensures !Unhindered(edges, fees, origin, amount)
  {
    hide Unhindered, Lazy, Current, TablesOk;
    if Unhindered(edges, fees, origin, amount) {
      CurrentUsable(edges, fees, n, origin, amount, t, heap, x, e);
    }
  }

  lemma TakenKeepsDone(t: Tables, out: seq<Edge>, j: nat, e: Edge, amt: int)
    requires |t.best| == |t.pred| == |t.walk| == |t.time| && Known(t, e.u) && e.v < |t.best| && Better(t, e) && e.u != e.v
    requires j < |out| && out[j] == e
    requires forall k :: 0 <= k < j ==> EdgeDone(t, out[k]) && out[k].u == e.u
    ensures forall k :: 0 <= k < j + 1 ==> EdgeDone(Taken(t, e, amt), out[k])
  {}

  /** The edges out of each vertex, in the order they are listed. */
  method GroupEdges(n: nat, edges: seq<Edge>) returns (out: seq<seq<Edge>>)
    requires Within(edges, n)
    ensures |out| == n && forall u, e :: 0 <= u < n ==> (e in out[u] <==> e in edges && e.u == u)
  {
    out := seq(n, _ => []);
    for j := 0 to |edges|
      invariant |out| == n && forall u, e :: 0 <= u < n ==> (e in out[u] <==> e in edges[..j] && e.u == u)
    {
      var e := edges[j];
      assert e in edges && edges[..j + 1] == edges[..j] + [e];
      out := out[e.u := out[e.u] + [e]];
    }
    assert edges[..|edges|] == edges;
  }

  ghost function StartTables(n: nat, origin: nat, amount: int): Tables
    requires origin < n
  {
    Tables(seq(n, v => if v == origin then Some(NodeWithDist(0.0, origin, amount)) else None),
           seq(n, _ => -1), seq(n, _ => []), seq(n, _ => 0), 0)
  }

  lemma StartOk(edges: seq<Edge>, fees: seq<Option<int>>, n: nat, origin: nat, amount: int)
    requires origin < n
    ensures var t := StartTables(n, origin, amount); var heap := [NodeWithDist(0.0, origin, amount)];
      && TablesOk(edges, n, origin, t) && Carried(edges, fees, origin, amount, t, heap)
      && Clean(edges, fees, origin, amount, t, heap, -1, 0.0)
  {
    var heap := [NodeWithDist(0.0, origin, amount)];
    assert heap[0] in heap;
    assert IsWalk(edges, [], origin, origin) && AmountAfter([], amount) == amount;
  }

  lemma NothingPending(edges: seq<Edge>, amount: int, t: Tables)
    requires Lazy(edges, amount, t, [], -1)
    ensures forall e <- edges :: EdgeDone(t, e)
  {
    hide AmountAfter;
  }

  /** The tables a finished search leaves: every distance is the weight of a simple walk,
      predecessors lead back to the origin, and each of their edges can take what some walk
      to its start leaves. */
  ghost predicate Searched(edges: seq<Edge>, fees: seq<Option<int>>, n: nat, origin: nat, amount: int,
                           best: seq<Option<NodeWithDist>>, pred: seq<int>, t: Tables)
  {
    TablesOk(edges, n, origin, t) && t.best == best && t.pred == pred && Carried(edges, fees, origin, amount, t, [])
  }

  /** No edge could still improve a distance. */
  ghost predicate Relaxed(edges: seq<Edge>, best: seq<Option<NodeWithDist>>) {
    forall t: Tables :: t.best == best ==> forall e <- edges :: EdgeDone(t, e)
  }

  lemma AllRelaxed(edges: seq<Edge>, t: Tables)
    requires forall e <- edges :: EdgeDone(t, e)
    ensures Relaxed(edges, t.best)
  {}

  /** Search by increasing distance until the heap is empty.  Entries of the heap may be
      out of date; every update uses up one of finitely many distances, so it ends. */
  method Search(n: nat, edges: seq<Edge>, fees: seq<Option<int>>, origin: nat, amount: int)
    returns (best: seq<Option<NodeWithDist>>, pred: seq<int>, ghost excluded: bool)
    requires Within(edges, n) && NonNegative(edges) && RatesOk(edges) && |fees| == n && origin < n
    ensures exists t :: Searched(edges, fees, n, origin, amount, best, pred, t)
    ensures !excluded ==> Relaxed(edges, best)
    ensures !excluded ==>
      exists t :: Searched(edges, fees, n, origin, amount, best, pred, t) && Straight(fees, origin, amount, t)
    ensures Unhindered(edges, fees, origin, amount) ==> !excluded
  {
    hide IsWalk, Weights, Unhindered, VertexOk, Lazy, Current, Ranks, EdgeDone, Relaxed, Carries, Arrives, Straight, Fronted,
         PredCarries;
    StartOk(edges, fees, n, origin, amount);
    ghost var t := StartTables(n, origin, amount);
    ghost var front := 0.0;
    best := seq(n, v => if v == origin then Some(NodeWithDist(0.0, origin, amount)) else None);
    pred := seq(n, _ => -1);
    excluded := false;
    var out := GroupEdges(n, edges);
    var heap := [NodeWithDist(0.0, origin, amount)];
    while |heap| > 0
      invariant TablesOk(edges, n, origin, t) && t.best == best && t.pred == pred
      invariant Carried(edges, fees, origin, amount, t, heap)
      invariant !excluded ==> Clean(edges, fees, origin, amount, t, heap, -1, front)
      invariant Unhindered(edges, fees, origin, amount) ==> !excluded
      decreases Ranks(Weights(edges, n), t.best), |heap|
    {
      var top, rest := Pop(heap);
      PopKeeps(heap, top, rest);
      if !excluded { PopClean(edges, fees, n, origin, amount, t, heap, front, top, rest); }
      front := top.dist;
      best, pred, heap, t, excluded :=
        Explore(n, edges, out[top.node], fees, origin, amount, top, best, pred, rest, t, excluded);
    }
    assert heap == [];
    if !excluded {
      NothingPending(edges, amount, t);
      AllRelaxed(edges, t);
    }
    assert Searched(edges, fees, n, origin, amount, best, pred, t);
  }

  /** When every edge has been relaxed the distances are the least weights of walks. */
  lemma {:induction false} Nearest(edges: seq<Edge>, n: nat, origin: nat, t: Tables, p: seq<Edge>, b: nat)
    requires TablesOk(edges, n, origin, t) && (forall e <- edges :: EdgeDone(t, e)) && IsWalk(edges, p, origin, b)
    ensures Known(t, b) && Dist(t, b) <= Weight(p)
    decreases |p|
  {
    hide VertexOk;
    if p != [] {
      var m := |p| - 1;
      Nearest(edges, n, origin, t, p[..m], p[m].u);
      assert EdgeDone(t, p[m]);
    }
  }

  // --------------------------------------------------------------- the route

  /** The vertices of a walk from a. */
  function Vertices(p: seq<Edge>, a: nat): seq<nat> {
    seq(|p| + 1, k requires 0 <= k <= |p| => At(p, a, k))
  }

  /** Vertices that come before v in the order of distance and time. */
  ghost function Before(t: Tables, v: nat): set<nat>
    requires |t.best| == |t.time| && Known(t, v)
  {
    set u: nat | u < |t.best| && Known(t, u) && (Dist(t, u) < Dist(t, v) || (Dist(t, u) == Dist(t, v) && t.time[u] < t.time[v]))
  }

  /** From v to its predecessor. */
  lemma StepBack(edges: seq<Edge>, n: nat, origin: nat, t: Tables, v: nat) returns (e: Edge)
    requires TablesOk(edges, n, origin, t) && Known(t, v) && v != origin
    ensures t.pred[v] == e.u && e.v == v && e in edges && Known(t, e.u) && Dist(t, e.u) + e.w <= Dist(t, v)
    ensures Before(t, e.u) < Before(t, v)
  {
    hide WalkOk;
    assert VertexOk(edges, origin, t, v);
    e :| e in edges && e.u == t.pred[v] && e.v == v && Dist(t, e.u) + e.w <= Dist(t, v);
    assert e.u in Before(t, v) && e.u !in Before(t, e.u);
  }

  /** From the origin to v each vertex is the predecessor of the next. */
  predicate Chain(pred: seq<int>, origin: nat, v: nat, ids: seq<nat>) {
    && ids != [] && ids[0] == origin && ids[|ids| - 1] == v
    && forall k :: 0 < k < |ids| ==> ids[k] < |pred| && pred[ids[k]] == ids[k - 1]
  }

  /** Follow the predecessors back from the target: the chain comes to an end, at the origin. */
  method ReadRoute(edges: seq<Edge>, n: nat, origin: nat, target: nat, pred: seq<int>, ghost t: Tables)
    returns (ids: seq<nat>)
    requires TablesOk(edges, n, origin, t) && t.pred == pred && Known(t, target) && target != origin
    ensures Chain(pred, origin, target, ids)
  {
    hide VertexOk, Before;
    var e := StepBack(edges, n, origin, t, target);
    ids := [pred[target], target];
    while pred[ids[0]] != -1
      invariant |ids| > 0 && ids[|ids| - 1] == target && Known(t, ids[0])
      invariant forall k :: 0 < k < |ids| ==> ids[k] < |pred| && pred[ids[k]] == ids[k - 1]
      decreases Before(t, ids[0])
    {
      var f := StepBack(edges, n, origin, t, ids[0]);
      ids := [pred[ids[0]]] + ids;
    }
    if ids[0] != origin {
      var f := StepBack(edges, n, origin, t, ids[0]);
      assert false;
    }
  }

  lemma ChainBack(pred: seq<int>, origin: nat, v: nat, ids: seq<nat>)
    requires Chain(pred, origin, v, ids) && |ids| != 1
    ensures |ids| > 1
    ensures v < |pred| && pred[v] == ids[|ids| - 2] && Chain(pred, origin, ids[|ids| - 2], ids[..|ids| - 1])
  {}

  lemma VerticesStep(p: seq<Edge>, a: nat, e: Edge)
    ensures Vertices(p + [e], a) == Vertices(p, a) + [e.v]
  {}

  /** A chain of predecessors is the vertices of a walk that weighs no more than the distance
      of its end, and each edge of which carries. */
  lemma {:induction false} ChainRoute(edges: seq<Edge>, fees: seq<Option<int>>, n: nat, origin: nat, amount: int, t: Tables,
                                      v: nat, ids: seq<nat>) returns (p: seq<Edge>)
    requires TablesOk(edges, n, origin, t) && Carried(edges, fees, origin, amount, t, []) && Known(t, v)
    requires Chain(t.pred, origin, v, ids)
    ensures IsRoute(edges, p, origin, v, ids) && Weight(p) <= Dist(t, v)
    ensures forall e <- p :: Carries(edges, fees, origin, amount, e)
    decreases |ids|
  {
    hide IsWalk, Weight, VertexOk, Vertices, Carries, Chain;
    if |ids| == 1 {
      p := [];
      OneVertex(edges, t.pred, origin, v, ids);
    } else {
      ChainBack(t.pred, origin, v, ids);
      assert t.pred[origin] == -1;
      assert PredCarries(edges, fees, origin, amount, t, v);
      var e :| e in edges && e.u == t.pred[v] && e.v == v && Dist(t, e.u) + e.w <= Dist(t, v)
            && Carries(edges, fees, origin, amount, e);
      var q := ChainRoute(edges, fees, n, origin, amount, t, e.u, ids[..|ids| - 1]);
      p := q + [e];
      WalkStep(edges, q, origin, e);
      VerticesStep(q, origin, e);
      ChainEnd(t.pred, origin, v, ids);
    }
  }

  lemma OneVertex(edges: seq<Edge>, pred: seq<int>, origin: nat, v: nat, ids: seq<nat>)
    requires Chain(pred, origin, v, ids) && |ids| == 1
    ensures v == origin && ids == [v] && IsWalk(edges, [], v, v) && Weight([]) == 0.0 && Vertices([], v) == [v]
  {}

  lemma ChainEnd(pred: seq<int>, origin: nat, v: nat, ids: seq<nat>)
    requires Chain(pred, origin, v, ids)
    ensures ids == ids[..|ids| - 1] + [v]
  {}

  /** Every edge of the walk can take what the walk itself leaves before it. */
  ghost predicate Delivers(fees: seq<Option<int>>, p: seq<Edge>, amount: int) {
    forall k :: 0 <= k < |p| ==> Usable(fees, p[k], AmountAfter(p[..k], amount))
  }

  lemma DeliversStep(fees: seq<Option<int>>, p: seq<Edge>, amount: int, e: Edge)
    requires Delivers(fees, p, amount) && Usable(fees, e, AmountAfter(p, amount))
    ensures Delivers(fees, p + [e], amount)
  {
    hide Usable, AmountAfter;
    forall k | 0 <= k < |p + [e]| ensures Usable(fees, (p + [e])[k], AmountAfter((p + [e])[..k], amount)) {
      assert (p + [e])[..k] == p[..k];
      if k == |p| { assert p[..k] == p; }
    }
  }

  /** When no edge was left out, the chain is the walk behind the distance, and delivers. */
  lemma {:induction false} StraightRoute(edges: seq<Edge>, fees: seq<Option<int>>, n: nat, origin: nat, amount: int, t: Tables,
                                         v: nat, ids: seq<nat>)
    requires TablesOk(edges, n, origin, t) && Straight(fees, origin, amount, t) && Known(t, v)
    requires Chain(t.pred, origin, v, ids)
    ensures Vertices(t.walk[v], origin) == ids && Delivers(fees, t.walk[v], amount)
    decreases |ids|
  {
    hide IsWalk, Weight, VertexOk, Vertices, Chain, Usable, AmountAfter, Delivers;
    if |ids| == 1 {
      OneVertex(edges, t.pred, origin, v, ids);
      OriginWalk(edges, n, origin, t);
      DeliversNothing(fees, amount);
    } else {
      ChainBack(t.pred, origin, v, ids);
      assert t.pred[origin] == -1;
      assert LastFits(fees, amount, t, v);
      var p := t.walk[v];
      var e := p[|p| - 1];
      StraightRoute(edges, fees, n, origin, amount, t, e.u, ids[..|ids| - 1]);
      assert p == t.walk[e.u] + [e];
      DeliversStep(fees, t.walk[e.u], amount, e);
      VerticesStep(t.walk[e.u], origin, e);
      ChainEnd(t.pred, origin, v, ids);
      LastVertex(edges, n, origin, t, v);
    }
  }

  lemma DeliversNothing(fees: seq<Option<int>>, amount: int)
    ensures Delivers(fees, [], amount)
  {}

  lemma OriginWalk(edges: seq<Edge>, n: nat, origin: nat, t: Tables)
    requires TablesOk(edges, n, origin, t)
    ensures t.walk[origin] == []
  {
    hide Weight, PredOk;
    assert VertexOk(edges, origin, t, origin);
    var p := t.walk[origin];
    WalkEnd(edges, p, origin, origin);
    assert At(p, origin, 0) == origin;
  }

  lemma LastVertex(edges: seq<Edge>, n: nat, origin: nat, t: Tables, v: nat)
    requires TablesOk(edges, n, origin, t) && Known(t, v) && t.walk[v] != []
    ensures t.walk[v][|t.walk[v]| - 1].v == v
  {
    hide Weight, PredOk;
    assert VertexOk(edges, origin, t, v);
  }

  // ---------------------------------------------------------------- FindPath

  datatype PathResult = NegativeWeightCycle | NoRoute | Route(ids: seq<nat>)

  /** A listed walk from the origin to the target that visits these vertices. */
  ghost predicate IsRoute(edges: seq<Edge>, p: seq<Edge>, origin: nat, target: nat, ids: seq<nat>) {
    IsWalk(edges, p, origin, target) && Vertices(p, origin) == ids
  }

  /** Among all walks from the origin to the target none weighs less. */
  ghost predicate Lightest(edges: seq<Edge>, p: seq<Edge>, origin: nat, target: nat) {
    forall q :: IsWalk(edges, q, origin, target) ==> Weight(p) <= Weight(q)
  }

  lemma SameVertices(p: seq<Edge>, d: seq<real>, a: nat)
    requires forall e <- p :: e.u < |d| && e.v < |d|
    ensures Vertices(ReweightAll(p, d), a) == Vertices(p, a)
  {}

  lemma {:induction false} SameAmount(p: seq<Edge>, d: seq<real>, amount: int)
    requires forall e <- p :: e.u < |d| && e.v < |d|
    ensures AmountAfter(ReweightAll(p, d), amount) == AmountAfter(p, amount)
    decreases |p|
  {
    if p != [] {
      var m := |p| - 1;
      SameAmount(p[..m], d, amount);
      assert ReweightAll(p, d)[..m] == ReweightAll(p[..m], d);
    }
  }

  lemma SameSimple(p: seq<Edge>, d: seq<real>, a: nat)
    requires forall e <- p :: e.u < |d| && e.v < |d|
    ensures Simple(ReweightAll(p, d), a) <==> Simple(p, a)
  {
    assert forall k :: 0 <= k <= |p| ==> At(ReweightAll(p, d), a, k) == At(p, a, k);
  }

  /** Reweighting excludes no further edges. */
  lemma StaysUnhindered(edges: seq<Edge>, d: seq<real>, fees: seq<Option<int>>, origin: nat, amount: int)
    requires Within(edges, |d|) && origin < |d| && Unhindered(edges, fees, origin, amount)
    ensures Unhindered(ReweightAll(edges, d), fees, origin, amount)
  {
    hide IsWalk, AmountAfter, Simple;
    var r := ReweightAll(edges, d);
    forall q, f | f in r && IsWalk(r, q, origin, f.u) && Simple(q + [f], origin) ensures Usable(fees, f, AmountAfter(q, amount)) {
      var k :| 0 <= k < |r| && r[k] == f;
      var p := OriginalWalk(edges, d, q, origin, f.u);
      SameAmount(p, d, amount);
      SameSimple(p + [edges[k]], d, origin);
      assert ReweightAll(p + [edges[k]], d) == q + [f];
      assert edges[k] in edges && Usable(fees, edges[k], AmountAfter(p, amount));
    }
  }

  lemma ReweightedWithin(edges: seq<Edge>, d: seq<real>)
    requires Within(edges, |d|)
    ensures Within(ReweightAll(edges, d), |d|) && (RatesOk(edges) ==> RatesOk(ReweightAll(edges, d)))
  {}

  /** What carries in the reweighted graph carries in the original. */
  lemma CarriesBack(edges: seq<Edge>, d: seq<real>, fees: seq<Option<int>>, origin: nat, amount: int, e: Edge)
    requires Within(edges, |d|) && origin < |d| && e.u < |d| && e.v < |d|
    requires Carries(ReweightAll(edges, d), fees, origin, amount, Reweighted(e, d))
    ensures Carries(edges, fees, origin, amount, e)
  {
    hide IsWalk, AmountAfter;
    var q :| IsWalk(ReweightAll(edges, d), q, origin, e.u) && Usable(fees, Reweighted(e, d), AmountAfter(q, amount));
    var p := OriginalWalk(edges, d, q, origin, e.u);
    SameAmount(p, d, amount);
    assert Usable(fees, e, AmountAfter(p, amount));
  }

  /** Reweighting does not change what a walk delivers. */
  lemma DeliversBack(fees: seq<Option<int>>, p: seq<Edge>, d: seq<real>, amount: int)
    requires (forall e <- p :: e.u < |d| && e.v < |d|) && Delivers(fees, ReweightAll(p, d), amount)
    ensures Delivers(fees, p, amount)
  {
    hide AmountAfter;
    forall k | 0 <= k < |p| ensures Usable(fees, p[k], AmountAfter(p[..k], amount)) {
      SameAmount(p[..k], d, amount);
      assert ReweightAll(p, d)[..k] == ReweightAll(p[..k], d);
      assert Usable(fees, ReweightAll(p, d)[k], AmountAfter(ReweightAll(p, d)[..k], amount));
    }
  }

  /** A route of the reweighted graph is one of the original, and what it carries it carries
      there. */
  lemma RouteBack(edges: seq<Edge>, d: seq<real>, fees: seq<Option<int>>, q: seq<Edge>, origin: nat, target: nat, amount: int)
    returns (p: seq<Edge>)
    requires Within(edges, |d|) && origin < |d| && IsWalk(ReweightAll(edges, d), q, origin, target)
    requires forall e <- q :: Carries(ReweightAll(edges, d), fees, origin, amount, e)
    ensures (forall e <- p :: e.u < |d| && e.v < |d|) && ReweightAll(p, d) == q
    ensures IsRoute(edges, p, origin, target, Vertices(q, origin))
    ensures forall e <- p :: Carries(edges, fees, origin, amount, e)
  {
    hide IsWalk, Carries, Vertices;
    p := OriginalWalk(edges, d, q, origin, target);
    SameVertices(p, d, origin);
    forall e | e in p ensures Carries(edges, fees, origin, amount, e) {
      var k :| 0 <= k < |p| && p[k] == e;
      assert ReweightAll(p, d)[k] == Reweighted(e, d) && ReweightAll(p, d)[k] in q;
      CarriesBack(edges, d, fees, origin, amount, e);
    }
  }

  /** The lightest walk of the reweighted graph is the lightest of the original. */
  lemma LightestBack(edges: seq<Edge>, d: seq<real>, t: Tables, q: seq<Edge>, origin: nat, target: nat) returns (p: seq<Edge>)
    requires Within(edges, |d|) && origin < |d| && TablesOk(ReweightAll(edges, d), |d|, origin, t)
    requires IsWalk(ReweightAll(edges, d), q, origin, target) && Known(t, target) && Weight(q) <= Dist(t, target)
    requires forall e <- ReweightAll(edges, d) :: EdgeDone(t, e)
    ensures (forall e <- p :: e.u < |d| && e.v < |d|) && ReweightAll(p, d) == q
    ensures IsRoute(edges, p, origin, target, Vertices(q, origin)) && Lightest(edges, p, origin, target)
  {
    hide IsWalk, Weight, VertexOk, EdgeDone, Vertices;
    p := OriginalWalk(edges, d, q, origin, target);
    SameVertices(p, d, origin);
    ReweightedWalk(edges, d, p, origin, target);
    forall x | IsWalk(edges, x, origin, target) ensures Weight(p) <= Weight(x) {
      ReweightedWalk(edges, d, x, origin, target);
      Nearest(ReweightAll(edges, d), |d|, origin, t, ReweightAll(x, d), target);
    }
  }

  /** What the search of the reweighted graph found, when it left nothing out. */
  lemma CleanRoute(edges: seq<Edge>, d: seq<real>, fees: seq<Option<int>>, t: Tables, origin: nat, target: nat, amount: int,
                   ids: seq<nat>) returns (p: seq<Edge>)
    requires Within(edges, |d|) && origin < |d| && TablesOk(ReweightAll(edges, d), |d|, origin, t)
    requires Straight(fees, origin, amount, t) && (forall e <- ReweightAll(edges, d) :: EdgeDone(t, e))
    requires Known(t, target) && Chain(t.pred, origin, target, ids)
    ensures IsRoute(edges, p, origin, target, ids) && Lightest(edges, p, origin, target) && Delivers(fees, p, amount)
  {
    hide IsWalk, Weight, EdgeDone, Vertices, Straight, Chain, Delivers, Lightest, PredOk;
    var r := ReweightAll(edges, d);
    assert VertexOk(r, origin, t, target);
    StraightRoute(r, fees, |d|, origin, amount, t, target, ids);
    p := LightestBack(edges, d, t, t.walk[target], origin, target);
    DeliversBack(fees, p, d, amount);
  }

  /** If no edge changes the amount, each edge of a route that carries can take all of it. */
  lemma {:induction false} SameAlong(edges: seq<Edge>, q: seq<Edge>, a: nat, b: nat, amount: int)
    requires IsWalk(edges, q, a, b) && forall e <- edges :: NextAmt(e, amount) == amount
    ensures AmountAfter(q, amount) == amount
    decreases |q|
  {
    hide NextAmt;
    if q != [] { SameAlong(edges, q[..|q| - 1], a, q[|q| - 1].u, amount); }
  }

  lemma CarriesWhole(edges: seq<Edge>, fees: seq<Option<int>>, origin: nat, amount: int, e: Edge)
    requires Carries(edges, fees, origin, amount, e) && forall x <- edges :: NextAmt(x, amount) == amount
    ensures e.u < |fees| && fees[e.u].Some? && ChannelState.MIN_OUTPUT + fees[e.u].value <= amount <= e.capacity
  {
    hide IsWalk, NextAmt, AmountAfter;
    var q :| IsWalk(edges, q, origin, e.u) && Usable(fees, e, AmountAfter(q, amount));
    SameAlong(edges, q, origin, e.u, amount);
  }

  /** Without an entry for the target there is no walk to it, if no edge was excluded. */
  lemma NoWalk(edges: seq<Edge>, d: seq<real>, t: Tables, origin: nat, target: nat)
    requires Within(edges, |d|) && origin < |d| && TablesOk(ReweightAll(edges, d), |d|, origin, t)
    requires (forall e <- ReweightAll(edges, d) :: EdgeDone(t, e)) && !Known(t, target)
    ensures !exists p :: IsWalk(edges, p, origin, target)
  {
    hide IsWalk, Weight, VertexOk, EdgeDone;
    forall p | IsWalk(edges, p, origin, target) ensures false {
      ReweightedWalk(edges, d, p, origin, target);
      Nearest(ReweightAll(edges, d), |d|, origin, t, ReweightAll(p, d), target);
    }
  }

  /** Vertices and edges come from the channel map; fees tells which coins are known.
      Origin and target differ, because only the target is a terminus.  excluded says
      whether the search has left out an edge, for its amount, capacity or coin, that would
      have bettered a distance. */
  method FindPath(n: nat, edges: seq<Edge>, fees: seq<Option<int>>, origin: nat, target: nat, amount: int)
    returns (r: PathResult, ghost excluded: bool)
    requires Within(edges, n) && RatesOk(edges) && |fees| == n && origin < n && target < n && origin != target
    ensures r == NegativeWeightCycle <==> NegativeCycle(edges)
    ensures r.Route? ==>
      exists p :: (IsRoute(edges, p, origin, target, r.ids) && forall e <- p :: Carries(edges, fees, origin, amount, e))
    ensures !excluded && r.Route? ==>
      exists p :: (IsRoute(edges, p, origin, target, r.ids) && Lightest(edges, p, origin, target) && Delivers(fees, p, amount))
    ensures !excluded && r == NoRoute ==> !exists p :: IsWalk(edges, p, origin, target)
    ensures Unhindered(edges, fees, origin, amount) ==> !excluded
  {
    hide IsWalk, NegativeCycle, Feasible, Unhindered, TablesOk, EdgeDone, IsRoute, Lightest, Vertices, Carried, Carries,
         Straight, Relaxed, Chain, Delivers;
    excluded := false;
    var potential := FindPotential(n, edges);
    if potential.None? {
      r := NegativeWeightCycle;
      return;
    }
    var d := potential.value;
    var reweighted := ReweightAll(edges, d);
    ReweightedWithin(edges, d);
    ReweightedNonNegative(edges, d);
    if Unhindered(edges, fees, origin, amount) { StaysUnhindered(edges, d, fees, origin, amount); }
    var best, pred;
    best, pred, excluded := Search(n, reweighted, fees, origin, amount);
    ghost var t :| Searched(reweighted, fees, n, origin, amount, best, pred, t)
                && (!excluded ==> Straight(fees, origin, amount, t));
    TableSize(reweighted, n, origin, t);
    if !excluded { RelaxedMeans(reweighted, t); }
    if best[target].None? {
      if !excluded { NoWalk(edges, d, t, origin, target); }
      r := NoRoute;
      return;
    }
    var ids := ReadRoute(reweighted, n, origin, target, pred, t);
    ghost var q := ChainRoute(reweighted, fees, n, origin, amount, t, target, ids);
    RouteWalk(reweighted, q, origin, target, ids);
    ghost var p := RouteBack(edges, d, fees, q, origin, target, amount);
    if !excluded { ghost var straight := CleanRoute(edges, d, fees, t, origin, target, amount, ids); }
    r := Route(ids);
  }

  lemma RelaxedMeans(edges: seq<Edge>, t: Tables)
    requires Relaxed(edges, t.best)
    ensures forall e <- edges :: EdgeDone(t, e)
  {}

  lemma RouteWalk(edges: seq<Edge>, p: seq<Edge>, origin: nat, target: nat, ids: seq<nat>)
    requires IsRoute(edges, p, origin, target, ids)
    ensures IsWalk(edges, p, origin, target) && Vertices(p, origin) == ids
  {}

  lemma TableSize(edges: seq<Edge>, n: nat, origin: nat, t: Tables)
    requires TablesOk(edges, n, origin, t)
    ensures |t.best| == n
  {}

  // ------------------------------------------------- entries out of date

  /** Three edges taken in this order, by distance, leave an entry for vertex 1 that is out
      of date: its amount still fits the last edge, but what the walk behind the distance of
      vertex 1 leaves does not.  The search takes the edge, and the route then found cannot
      deliver. */
  lemma StaleEntry()
    ensures var fees := seq(4, _ => Some(1000));
      var amount := 200000;
      var a, b := Edge(3.0, 0, 1, 1, false, 1000000), Edge(1.0, 0, 2, 1, false, 1000000);
      var e, last := Edge(1.0, 2, 1, 2, false, 1000000), Edge(0.0, 1, 3, 1, false, 300000);
      var t := Taken(Taken(Taken(StartTables(4, 0, amount), a, amount), b, amount), e, 2 * amount);
      var stale := NodeWithDist(3.0, 1, amount);
      && Arrives([a, b, e, last], 0, amount, stale) && stale.dist > Dist(t, 1)
      && Better(t, last) && Usable(fees, last, stale.amt)
      && !Usable(fees, last, AmountAfter(t.walk[1], amount))
  {
    var a, b := Edge(3.0, 0, 1, 1, false, 1000000), Edge(1.0, 0, 2, 1, false, 1000000);
    var e, last := Edge(1.0, 2, 1, 2, false, 1000000), Edge(0.0, 1, 3, 1, false, 300000);
    var edges := [a, b, e, last];
    assert IsWalk(edges, [], 0, 0);
    WalkStep(edges, [], 0, a);
    assert [] + [a] == [a] && [a][..0] == [] && AmountAfter([a], 200000) == 200000;
    var t := Taken(Taken(StartTables(4, 0, 200000), a, 200000), b, 200000);
    assert t.walk[2] == [b] && [b][..0] == [] && [b, e][..1] == [b];
    assert AmountAfter([b], 200000) == 200000;
    assert Taken(t, e, 400000).walk[1] == [b, e];
  }
}
