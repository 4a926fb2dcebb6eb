/** Amounts along a route, and the tables of the search for one (qln/routing.go:342-424). */
module RouteTables {
  import opened Wrappers
  import ChannelState
  import Numbers
  import opened Graphs

  /** An entry of the heap, and of the table of best known distances. */
  datatype NodeWithDist = NodeWithDist(dist: real, node: nat, amt: int)

  /** Integers are 64 bits wide and division truncates toward zero. */
  function Wrap64(x: int): int {
    var low := x % 0x1_0000_0000_0000_0000;
    if low >= 0x8000_0000_0000_0000 then low - 0x1_0000_0000_0000_0000 else low
  }

  function Quotient(a: int, b: int): int
    requires b != 0
  {
    if a >= 0 then a / b else -((-a) / b)
  }

  predicate RatesOk(edges: seq<Edge>) {
    forall e <- edges :: e.reciprocal ==> e.rate != 0
  }

  /** The amount that has to arrive at the end of an edge when amt arrives at its start. */
  function NextAmt(e: Edge, amt: int): int {
    if !e.reciprocal then Wrap64(amt * e.rate)
    else if e.rate == 0 then 0
    else Wrap64(Quotient(amt, e.rate))
  }

  /** 64 bits keep a number up to a multiple of 2^64, and keep it whole when it fits. */
  lemma WrapExact(x: int)
    ensures -0x8000_0000_0000_0000 <= Wrap64(x) < 0x8000_0000_0000_0000
    ensures exists k :: x == Wrap64(x) + k * 0x1_0000_0000_0000_0000
    ensures -0x8000_0000_0000_0000 <= x < 0x8000_0000_0000_0000 ==> Wrap64(x) == x
  {
    var q := x / 0x1_0000_0000_0000_0000;
    assert x == q * 0x1_0000_0000_0000_0000 + x % 0x1_0000_0000_0000_0000;
    assert x == Wrap64(x) + (if Wrap64(x) < 0 then q + 1 else q) * 0x1_0000_0000_0000_0000;
  }

  /** An exchange into coins of less worth is undone by the one back, at the same rate. */
  lemma ThereAndBack(e: Edge, f: Edge, amt: int)
    requires !e.reciprocal && f.reciprocal && e.rate == f.rate > 0 && amt >= 0
    requires amt * e.rate < 0x8000_0000_0000_0000
    ensures NextAmt(e, amt) == amt * e.rate && NextAmt(f, NextAmt(e, amt)) == amt
  {
    hide Wrap64;
    var x := amt * e.rate;
    Product(amt, e.rate);
    WrapExact(x);
    Floored(x, e.rate, amt);
    WrapExact(amt);
  }

  /** The other way round less than one coin of the greater worth is lost. */
  lemma BackAndThere(e: Edge, f: Edge, amt: int)
    requires !e.reciprocal && f.reciprocal && e.rate == f.rate > 0 && 0 <= amt < 0x8000_0000_0000_0000
    ensures 0 <= amt - NextAmt(e, NextAmt(f, amt)) < e.rate
  {
    hide Wrap64;
    var q := amt / f.rate;
    assert amt == q * f.rate + amt % f.rate;
    Product(q, f.rate);
    WrapExact(q);
    WrapExact(q * f.rate);
  }

  lemma Product(a: int, b: int)
    requires a >= 0 && b > 0
    ensures a <= a * b
  {}

  lemma Floored(x: nat, b: nat, q: nat)
    requires b > 0 && x == q * b
    ensures x / b == q
  {
    Numbers.DivUnique(x, b, q);
  }

  /** Division rounds toward zero. */
  lemma QuotientFloors(a: nat, b: nat)
    requires b > 0
    ensures Quotient(a, b) * b <= a < Quotient(a, b) * b + b
  {
    Numbers.DivBounds(a, b);
  }

  lemma QuotientOdd(a: int, b: int)
    requires b != 0
    ensures Quotient(-a, b) == -Quotient(a, b)
  {
    if a == 0 { assert 0 / b == 0; }
  }

  /** May an amount be sent along this edge?  fees holds a thousand bytes' fee for the
      coin of each vertex, or None when the coin is unknown. */
  predicate Usable(fees: seq<Option<int>>, e: Edge, amt: int) {
    e.u < |fees| && fees[e.u].Some? && amt >= ChannelState.MIN_OUTPUT + fees[e.u].value && amt <= e.capacity
  }

  function AmountAfter(p: seq<Edge>, amount: int): int {
    if p == [] then amount else NextAmt(p[|p| - 1], AmountAfter(p[..|p| - 1], amount))
  }

  /** p visits no vertex twice. */
  ghost predicate Simple(p: seq<Edge>, a: nat) {
    forall i, j :: 0 <= i < j <= |p| ==> At(p, a, i) != At(p, a, j)
  }

  /** The amount can be sent along every walk that visits no vertex twice: it stays large
      enough, it fits the capacity of each edge, and each coin is known. */
  ghost predicate Unhindered(edges: seq<Edge>, fees: seq<Option<int>>, origin: nat, amount: int) {
    forall p, e :: e in edges && IsWalk(edges, p, origin, e.u) && Simple(p + [e], origin)
      ==> Usable(fees, e, AmountAfter(p, amount))
  }

  // ------------------------------------------------------------ the tables

  /** The search's tables, with the walk behind each distance and the time it was set. */
  datatype Tables = Tables(best: seq<Option<NodeWithDist>>, pred: seq<int>,
                           walk: seq<seq<Edge>>, time: seq<nat>, now: nat)

  /** The distance of v, once it has one. */
  predicate Known(t: Tables, v: int) {
    0 <= v < |t.best| && t.best[v].Some?
  }

  function Dist(t: Tables, v: nat): real
    requires Known(t, v)
  {
    t.best[v].value.dist
  }

  ghost predicate Sized(t: Tables, n: nat) {
    |t.best| == |t.pred| == |t.walk| == |t.time| == n
  }

  /** The walk behind v's distance visits no vertex twice, and each vertex on it is now
      known to be at least as near as the walk says. */
  ghost predicate WalkOk(edges: seq<Edge>, origin: nat, t: Tables, v: nat, p: seq<Edge>) {
    && IsWalk(edges, p, origin, v)
    && (forall k :: 0 <= k <= |p| ==> Known(t, At(p, origin, k)) && Dist(t, At(p, origin, k)) <= Weight(p[..k]))
    && Simple(p, origin)
  }

  /** v's predecessor leads to it by a listed edge, and comes before it: it is nearer, or
      as near and set earlier. */
  ghost predicate PredOk(edges: seq<Edge>, t: Tables, v: nat)
    requires Known(t, v) && v < |t.pred| && v < |t.time|
  {
    var u := t.pred[v];
    && Known(t, u) && u < |t.time| && t.time[v] <= t.now
    && (exists e :: e in edges && e.u == u && e.v == v && Dist(t, u) + e.w <= Dist(t, v))
    && (Dist(t, u) < Dist(t, v) || (Dist(t, u) == Dist(t, v) && t.time[u] < t.time[v]))
  }

  ghost predicate VertexOk(edges: seq<Edge>, origin: nat, t: Tables, v: nat)
    requires v < |t.best| && v < |t.pred| && v < |t.walk| && v < |t.time|
  {
    t.best[v].Some? ==>
      && t.best[v].value.node == v
      && WalkOk(edges, origin, t, v, t.walk[v]) && Weight(t.walk[v]) == Dist(t, v)
      && t.time[v] <= t.now
      && (v != origin ==> PredOk(edges, t, v))
  }

  ghost predicate TablesOk(edges: seq<Edge>, n: nat, origin: nat, t: Tables) {
    && Sized(t, n) && origin < n
    && Known(t, origin) && Dist(t, origin) == 0.0 && t.pred[origin] == -1
    && forall v :: 0 <= v < n ==> VertexOk(edges, origin, t, v)
  }

  predicate NonNegative(edges: seq<Edge>) {
    forall e <- edges :: e.w >= 0.0
  }

  /** Would the search take this edge to a better distance? */
  predicate Better(t: Tables, e: Edge)
    requires Known(t, e.u) && e.v < |t.best|
  {
    t.best[e.v].None? || Dist(t, e.u) + e.w < Dist(t, e.v)
  }

  /** The tables after taking an edge. */
  function Taken(t: Tables, e: Edge, amt: int): Tables
    requires Known(t, e.u) && e.v < |t.best| == |t.pred| == |t.walk| == |t.time| && e.u < |t.walk|
  {
    Tables(t.best[e.v := Some(NodeWithDist(Dist(t, e.u) + e.w, e.v, amt))], t.pred[e.v := e.u],
           t.walk[e.v := t.walk[e.u] + [e]], t.time[e.v := t.now + 1], t.now + 1)
  }

  lemma {:induction false} NonNegativeWeight(edges: seq<Edge>, p: seq<Edge>, a: nat, b: nat)
    requires IsWalk(edges, p, a, b) && NonNegative(edges)
    ensures Weight(p) >= 0.0
    decreases |p|
  {
    if p != [] { NonNegativeWeight(edges, p[..|p| - 1], a, p[|p| - 1].u); }
  }

  lemma PrefixWeight(edges: seq<Edge>, p: seq<Edge>, a: nat, b: nat, k: nat)
    requires IsWalk(edges, p, a, b) && NonNegative(edges) && k <= |p|
    ensures Weight(p[..k]) <= Weight(p)
  {
    WalkSplit(edges, p, a, b, k);
    NonNegativeWeight(edges, p[k..], At(p, a, k), b);
  }

  /** An edge that is taken leads to a vertex that is not on the walk to its start. */
  lemma NewOnWalk(edges: seq<Edge>, n: nat, origin: nat, t: Tables, e: Edge)
    requires TablesOk(edges, n, origin, t) && NonNegative(edges) && e in edges && Known(t, e.u) && e.v < n && Better(t, e)
    ensures forall k :: 0 <= k <= |t.walk[e.u]| ==> At(t.walk[e.u], origin, k) != e.v
    ensures e.v != origin && e.v != e.u
  {
    hide IsWalk, Weight, PredOk;
    var p := t.walk[e.u];
    assert VertexOk(edges, origin, t, e.u);
    forall k | 0 <= k <= |p| ensures At(p, origin, k) != e.v {
      PrefixWeight(edges, p, origin, e.u, k);
    }
    assert At(p, origin, 0) == origin;
    WalkEnd(edges, p, origin, e.u);
  }

  lemma WalkEnd(edges: seq<Edge>, p: seq<Edge>, a: nat, b: nat)
    requires IsWalk(edges, p, a, b)
    ensures At(p, a, |p|) == b
  {}

  ghost predicate NoFarther(t: Tables, t': Tables) {
    |t.best| == |t'.best| && forall v :: Known(t, v) ==> Known(t', v) && Dist(t', v) <= Dist(t, v)
  }

  lemma WalkStaysOk(edges: seq<Edge>, origin: nat, t: Tables, t': Tables, v: nat, p: seq<Edge>)
    requires WalkOk(edges, origin, t, v, p) && NoFarther(t, t')
    ensures WalkOk(edges, origin, t', v, p)
  {
    hide IsWalk, Weight, At;
  }

  lemma WalkExtendsOk(edges: seq<Edge>, origin: nat, t: Tables, p: seq<Edge>, e: Edge)
    requires WalkOk(edges, origin, t, e.u, p) && e in edges && Known(t, e.v) && Dist(t, e.v) <= Weight(p) + e.w
    requires forall k :: 0 <= k <= |p| ==> At(p, origin, k) != e.v
    ensures WalkOk(edges, origin, t, e.v, p + [e]) && Weight(p + [e]) == Weight(p) + e.w
  {
    hide IsWalk, Weight, Simple;
    var q := p + [e];
    WalkStep(edges, p, origin, e);
    SimpleStep(p, origin, e);
    forall k | 0 <= k <= |q| ensures Known(t, At(q, origin, k)) && Dist(t, At(q, origin, k)) <= Weight(q[..k]) {
      if k <= |p| {
        assert q[..k] == p[..k] && At(q, origin, k) == At(p, origin, k);
      } else {
        assert q[..k] == q;
      }
    }
  }

  lemma SimpleStep(p: seq<Edge>, a: nat, e: Edge)
    requires Simple(p, a) && forall k :: 0 <= k <= |p| ==> At(p, a, k) != e.v
    ensures Simple(p + [e], a)
  {
    var q := p + [e];
    forall i, j | 0 <= i < j <= |q| ensures At(q, a, i) != At(q, a, j) {
      assert At(q, a, i) == At(p, a, i);
      if j <= |p| { assert At(q, a, j) == At(p, a, j); }
    }
  }

  /** Taking a better edge keeps the tables in order. */
  lemma TakenOk(edges: seq<Edge>, n: nat, origin: nat, t: Tables, e: Edge, amt: int)
    requires TablesOk(edges, n, origin, t) && NonNegative(edges) && e in edges && Known(t, e.u) && e.v < n && Better(t, e)
    ensures TablesOk(edges, n, origin, Taken(t, e, amt))
  {
    hide IsWalk, Weight, WalkOk, PredOk;
    var t' := Taken(t, e, amt);
    NewOnWalk(edges, n, origin, t, e);
    assert NoFarther(t, t');
    forall v | 0 <= v < n ensures VertexOk(edges, origin, t', v) {
      assert VertexOk(edges, origin, t, v);
      if v == e.v {
        assert VertexOk(edges, origin, t, e.u);
        WalkStaysOk(edges, origin, t, t', e.u, t.walk[e.u]);
        WalkExtendsOk(edges, origin, t', t.walk[e.u], e);
        TakenPred(edges, t, e, amt);
      } else if t.best[v].Some? {
        WalkStaysOk(edges, origin, t, t', v, t.walk[v]);
        if v != origin { PredStays(edges, t, e, amt, v); }
      }
    }
  }

  lemma TakenPred(edges: seq<Edge>, t: Tables, e: Edge, amt: int)
    requires |t.best| == |t.pred| == |t.walk| == |t.time| && Known(t, e.u) && e.v < |t.best| && e in edges && e.u != e.v
    requires e.w >= 0.0 && t.time[e.u] <= t.now
    ensures PredOk(edges, Taken(t, e, amt), e.v)
  {}

  lemma PredStays(edges: seq<Edge>, t: Tables, e: Edge, amt: int, v: nat)
    requires |t.best| == |t.pred| == |t.walk| == |t.time| && Known(t, e.u) && e.v < |t.best| && Better(t, e)
    requires Known(t, v) && v != e.v && PredOk(edges, t, v)
    ensures PredOk(edges, Taken(t, e, amt), v)
  {}

  // ---------------------------------------------------------- termination

  ghost function Extended(edges: seq<Edge>, ws: set<real>): set<real> {
    set e, x | e in edges && x in ws :: x + e.w
  }

  /** The weights of all lists of at most k edges. */
  ghost function Weights(edges: seq<Edge>, k: nat): set<real> {
    if k == 0 then {0.0}
    else Weights(edges, k - 1) + Extended(edges, Weights(edges, k - 1))
  }

  lemma ExtendedHas(edges: seq<Edge>, ws: set<real>, e: Edge, x: real)
    requires e in edges && x in ws
    ensures x + e.w in Extended(edges, ws)
  {}

  lemma {:induction false} WeightListed(edges: seq<Edge>, p: seq<Edge>, a: nat, b: nat, k: nat)
    requires IsWalk(edges, p, a, b) && |p| <= k
    ensures Weight(p) in Weights(edges, k)
    decreases k
  {
    hide Extended;
    if k > 0 {
      if p == [] {
        WeightListed(edges, p, a, b, k - 1);
      } else {
        var m := |p| - 1;
        WeightListed(edges, p[..m], a, p[m].u, k - 1);
        ExtendedHas(edges, Weights(edges, k - 1), p[m], Weight(p[..m]));
      }
    }
  }

  /** How many of the possible weights are less than this distance. */
  ghost function Rank(all: set<real>, b: Option<NodeWithDist>): nat {
    if b.None? then |all| else |set y | y in all && y < b.value.dist|
  }

  ghost function Ranks(all: set<real>, best: seq<Option<NodeWithDist>>): nat {
    if best == [] then 0 else Ranks(all, best[..|best| - 1]) + Rank(all, best[|best| - 1])
  }

  lemma {:induction false} RanksDrop(all: set<real>, best: seq<Option<NodeWithDist>>, v: nat, b: Option<NodeWithDist>)
    requires v < |best| && Rank(all, b) < Rank(all, best[v])
    ensures Ranks(all, best[v := b]) < Ranks(all, best)
    decreases |best|
  {
    hide Rank;
    var m := |best| - 1;
    var best' := best[v := b];
    if v < m {
      RanksDrop(all, best[..m], v, b);
      assert best'[..m] == best[..m][v := b];
    } else {
      assert best'[..m] == best[..m];
    }
  }

  lemma RankDrops(all: set<real>, x: real, b: Option<NodeWithDist>, b': NodeWithDist)
    requires b'.dist == x && x in all && (b.None? || x < b.value.dist)
    ensures Rank(all, Some(b')) < Rank(all, b)
  {
    var low := set y | y in all && y < x;
    var high := if b.None? then all else set y | y in all && y < b.value.dist;
    assert low <= high && x in high && x !in low;
    SubsetSize(low, high, x);
  }

  lemma SubsetSize(low: set<real>, high: set<real>, x: real)
    requires low <= high && x in high && x !in low
    ensures |low| < |high|
  {
    assert high == low + (high - low);
    assert x in high - low;
  }

  /** A vertex's walk is shorter than the number of vertices. */
  lemma ShortWalk(edges: seq<Edge>, n: nat, origin: nat, t: Tables, v: nat)
    requires TablesOk(edges, n, origin, t) && Known(t, v) && Within(edges, n)
    ensures |t.walk[v]| < n && IsWalk(edges, t.walk[v], origin, v)
  {
    hide IsWalk, Weight, PredOk;
    assert VertexOk(edges, origin, t, v);
    var p := t.walk[v];
    WalkEnds(edges, p, origin, v, n);
    Distinct(seq(|p| + 1, k requires 0 <= k <= |p| => At(p, origin, k)), n);
  }

  /** Each edge that is taken uses up one of finitely many distances. */
  lemma TakenDescends(edges: seq<Edge>, n: nat, origin: nat, t: Tables, e: Edge, amt: int)
    requires TablesOk(edges, n, origin, t) && NonNegative(edges) && Within(edges, n)
    requires e in edges && Known(t, e.u) && Better(t, e)
    ensures Ranks(Weights(edges, n), Taken(t, e, amt).best) < Ranks(Weights(edges, n), t.best)
  {
    hide IsWalk, Weight, WalkOk, PredOk, Weights;
    ShortWalk(edges, n, origin, t, e.u);
    assert VertexOk(edges, origin, t, e.u);
    var p := t.walk[e.u];
    WalkStep(edges, p, origin, e);
    WeightListed(edges, p + [e], origin, e.v, n);
    var b := NodeWithDist(Dist(t, e.u) + e.w, e.v, amt);
    RankDrops(Weights(edges, n), b.dist, t.best[e.v], b);
    RanksDrop(Weights(edges, n), t.best, e.v, Some(b));
  }
}
