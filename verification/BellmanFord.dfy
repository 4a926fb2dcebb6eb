/** The first half of FindPath (qln/routing.go:277-331): relaxation from a dummy
    vertex that has an edge of weight zero to every other. */
module BellmanFord {
  import opened Wrappers
  import opened Graphs

  /** The given edges, then one from the dummy vertex n to every vertex. */
  function WithDummy(n: nat, edges: seq<Edge>): seq<Edge> {
    edges + seq(n, i requires 0 <= i < n => Edge(0.0, n, i, 0, false, 0))
  }

  /** A tentative distance; None is the starting value, larger than any other. */
  type Tentative = Option<real>

  /** Would this edge improve the distance of its end? */
  predicate Improves(d: seq<Tentative>, e: Edge)
    requires e.u < |d| && e.v < |d|
  {
    d[e.u].Some? && (d[e.v].None? || d[e.u].value + e.w < d[e.v].value)
  }

  // ------------------------------------------------------------ invariants

  /** Every finite distance is the weight of a walk from the dummy vertex. */
  ghost predicate Attained(all: seq<Edge>, n: nat, d: seq<Tentative>) {
    forall v :: 0 <= v < |d| && d[v].Some? ==> exists p :: IsWalk(all, p, n, v) && Weight(p) == d[v].value
  }

  /** The distance of b is at most the weight of p. */
  predicate NoMoreThan(d: seq<Tentative>, b: nat, p: seq<Edge>)
    requires b < |d|
  {
    d[b].Some? && d[b].value <= Weight(p)
  }

  /** After k rounds no walk of at most k edges is shorter. */
  ghost predicate Covered(all: seq<Edge>, n: nat, d: seq<Tentative>, k: nat) {
    forall p, b: nat :: IsWalk(all, p, n, b) && |p| <= k && b < |d| ==> NoMoreThan(d, b, p)
  }

  /** The first j edges have been relaxed in round k. */
  ghost predicate PartCovered(all: seq<Edge>, n: nat, d: seq<Tentative>, k: nat, j: nat)
    requires j <= |all|
  {
    forall p, b: nat :: IsWalk(all, p, n, b) && 0 < |p| <= k + 1 && b < |d| && p[|p| - 1] in all[..j] ==> NoMoreThan(d, b, p)
  }

  predicate Lower(d: seq<Tentative>, d': seq<Tentative>) {
    && |d| == |d'|
    && forall v :: 0 <= v < |d| && d[v].Some? ==> d'[v].Some? && d'[v].value <= d[v].value
  }

  lemma CoveredLower(all: seq<Edge>, n: nat, d: seq<Tentative>, d': seq<Tentative>, k: nat, j: nat)
    requires j <= |all| && Lower(d, d')
    ensures Covered(all, n, d, k) ==> Covered(all, n, d', k)
    ensures PartCovered(all, n, d, k, j) ==> PartCovered(all, n, d', k, j)
  {}

  /** Distances after relaxing one edge. */
  function Relaxed(d: seq<Tentative>, e: Edge): (r: seq<Tentative>)
    requires e.u < |d| && e.v < |d|
    ensures |r| == |d|
  {
    if Improves(d, e) then d[e.v := Some(d[e.u].value + e.w)] else d
  }

  lemma RelaxedLower(d: seq<Tentative>, e: Edge)
    requires e.u < |d| && e.v < |d|
    ensures Lower(d, Relaxed(d, e))
    ensures d[e.u].Some? ==> Relaxed(d, e)[e.v].Some? && Relaxed(d, e)[e.v].value <= d[e.u].value + e.w
  {}

  lemma EdgeRelaxed(all: seq<Edge>, n: nat, d: seq<Tentative>, k: nat, j: nat)
    requires j < |all| && Covered(all, n, d, k) && PartCovered(all, n, d, k, j) && Within(all, |d|)
    ensures PartCovered(all, n, Relaxed(d, all[j]), k, j + 1) && Covered(all, n, Relaxed(d, all[j]), k)
  {}

  lemma RoundDone(all: seq<Edge>, n: nat, d: seq<Tentative>, k: nat)
    requires PartCovered(all, n, d, k, |all|) && Covered(all, n, d, k)
    ensures Covered(all, n, d, k + 1)
  {}

  lemma AttainedStep(all: seq<Edge>, n: nat, d: seq<Tentative>, e: Edge)
    requires Attained(all, n, d) && e in all && e.u < |d| && e.v < |d|
    ensures Attained(all, n, Relaxed(d, e))
  {
    hide IsWalk, Weight;
    var d' := Relaxed(d, e);
    forall v | 0 <= v < |d'| && d'[v].Some? ensures exists p :: IsWalk(all, p, n, v) && Weight(p) == d'[v].value {
      if v == e.v && Improves(d, e) {
        var p :| IsWalk(all, p, n, e.u) && Weight(p) == d[e.u].value;
        WalkStep(all, p, n, e);
      } else {
        assert d'[v] == d[v];
      }
    }
  }

  lemma StartCovered(all: seq<Edge>, n: nat, d: seq<Tentative>)
    requires |d| == n + 1 && d[n] == Some(0.0) && forall v :: 0 <= v < n ==> d[v].None?
    ensures Attained(all, n, d) && Covered(all, n, d, 0)
  {
    forall v | 0 <= v < |d| && d[v].Some? ensures exists p :: IsWalk(all, p, n, v) && Weight(p) == d[v].value {
      assert IsWalk(all, [], n, v) && Weight([]) == 0.0;
    }
  }

  lemma NothingRelaxed(all: seq<Edge>, n: nat, d: seq<Tentative>, k: nat)
    ensures PartCovered(all, n, d, k, 0)
  {}

  lemma WithinDummy(n: nat, edges: seq<Edge>)
    requires Within(edges, n)
    ensures Within(WithDummy(n, edges), n + 1)
  {}

  // ------------------------------------------------------ negative cycles

  /** A walk that starts at a real vertex never meets the dummy. */
  lemma {:induction false} NoDummy(n: nat, edges: seq<Edge>, p: seq<Edge>, a: nat, b: nat)
    requires Within(edges, n) && IsWalk(WithDummy(n, edges), p, a, b) && a < n
    ensures b < n && IsWalk(edges, p, a, b)
    decreases |p|
  {
    if p != [] { NoDummy(n, edges, p[..|p| - 1], a, p[|p| - 1].u); }
  }

  lemma {:induction false} MoreEdges(n: nat, edges: seq<Edge>, p: seq<Edge>, a: nat, b: nat)
    requires IsWalk(edges, p, a, b)
    ensures IsWalk(WithDummy(n, edges), p, a, b)
    decreases |p|
  {
    if p != [] { MoreEdges(n, edges, p[..|p| - 1], a, p[|p| - 1].u); }
  }

  lemma SameCycles(n: nat, edges: seq<Edge>)
    requires Within(edges, n)
    ensures NegativeCycle(edges) <==> NegativeCycle(WithDummy(n, edges))
  {
    hide Weight;
    var all := WithDummy(n, edges);
    WithinDummy(n, edges);
    if NegativeCycle(edges) {
      var p, a :| IsWalk(edges, p, a, a) && Weight(p) < 0.0;
      MoreEdges(n, edges, p, a, a);
    }
    if NegativeCycle(all) {
      var p, a :| IsWalk(all, p, a, a) && Weight(p) < 0.0;
      EmptyWeighsNothing(p);
      var last := p[|p| - 1];
      assert last in all && last.v == a;
      NoDummy(n, edges, p, a, a);
    }
  }

  lemma EmptyWeighsNothing(p: seq<Edge>)
    ensures p == [] ==> Weight(p) == 0.0
  {}

  /** Without negative cycles there is nothing left to relax after all rounds. */
  lemma NoneImproves(n: nat, all: seq<Edge>, d: seq<Tentative>, e: Edge)
    requires |d| == n + 1 && Within(all, n + 1) && Attained(all, n, d) && Covered(all, n, d, n + 1)
    requires e in all && !NegativeCycle(all)
    ensures !Improves(d, e)
  {
    hide IsWalk, Weight;
    if d[e.u].Some? {
      var p :| IsWalk(all, p, n, e.u) && Weight(p) == d[e.u].value;
      WalkStep(all, p, n, e);
      var q := Shorten(all, p + [e], n, e.v, n + 1);
      assert NoMoreThan(d, e.v, q);
    }
  }

  /** The finished distances, without the dummy vertex. */
  function Potential(d: seq<Tentative>): (r: seq<real>)
    requires |d| > 0 && forall x <- d :: x.Some?
    ensures |r| == |d| - 1
  {
    seq(|d| - 1, i requires 0 <= i < |d| - 1 => d[i].value)
  }

  /** With nothing left to relax, every vertex has been reached and the distances
      are a potential of the graph. */
  lemma SettledFeasible(n: nat, edges: seq<Edge>, d: seq<Tentative>)
    requires Within(edges, n) && |d| == n + 1 && Covered(WithDummy(n, edges), n, d, 0)
    requires Settled(WithDummy(n, edges), d)
    ensures forall x <- d :: x.Some?
    ensures Feasible(edges, Potential(d))
  {
    var all := WithDummy(n, edges);
    assert IsWalk(all, [], n, n);
    assert NoMoreThan(d, n, []);
    forall v | 0 <= v < n ensures d[v].Some? {
      var e := Edge(0.0, n, v, 0, false, 0);
      assert all[|edges| + v] == e;
      assert !Improves(d, e);
    }
    forall e | e in edges ensures e.u < n && e.v < n && Potential(d)[e.u] + e.w >= Potential(d)[e.v] {
      assert e in all && !Improves(d, e);
    }
  }

  // ---------------------------------------------------------------- methods

  /** Nothing is left to relax. */
  ghost predicate Settled(all: seq<Edge>, d: seq<Tentative>) {
    Within(all, |d|) && forall e <- all :: !Improves(d, e)
  }

  /** Distances from the dummy vertex, by rounds of relaxation with an early end. */
  method Relax(n: nat, edges: seq<Edge>) returns (d: seq<Tentative>)
    requires Within(edges, n)
    ensures |d| == n + 1
    ensures var all := WithDummy(n, edges);
      && Within(all, n + 1) && Attained(all, n, d) && Covered(all, n, d, 0)
      && (Settled(all, d) || Covered(all, n, d, n + 1))
  {
    hide IsWalk, Weight, Attained, Covered, PartCovered, Lower;
    var all := WithDummy(n, edges);
    WithinDummy(n, edges);
    d := seq(n, _ => None) + [Some(0.0)];
    StartCovered(all, n, d);
    for i := 0 to n + 1
      invariant |d| == n + 1 && Attained(all, n, d) && Covered(all, n, d, i) && Covered(all, n, d, 0)
    {
      var relaxed := false;
      ghost var start := d;
      NothingRelaxed(all, n, d, i);
      for j := 0 to |all|
        invariant |d| == n + 1 && Attained(all, n, d) && Covered(all, n, d, i) && Covered(all, n, d, 0)
        invariant PartCovered(all, n, d, i, j)
        invariant !relaxed ==> d == start && forall k :: 0 <= k < j ==> !Improves(d, all[k])
      {
        var e := all[j];
        assert e in all;
        AttainedStep(all, n, d, e);
        EdgeRelaxed(all, n, d, i, j);
        RelaxedLower(d, e);
        CoveredLower(all, n, d, Relaxed(d, e), 0, 0);
        if Improves(d, e) {
          d := d[e.v := Some(d[e.u].value + e.w)];
          relaxed := true;
        }
      }
      RoundDone(all, n, d, i);
      if !relaxed {
        return;
      }
    }
  }

  /** Relaxation followed by the check: a negative cycle is reported exactly when
      the channel graph has one, and otherwise the distances are a potential. */
  method FindPotential(n: nat, edges: seq<Edge>) returns (d: Option<seq<real>>)
    requires Within(edges, n)
    ensures d.None? <==> NegativeCycle(edges)
    ensures d.Some? ==> |d.value| == n && Feasible(edges, d.value)
  {
    hide IsWalk, Weight, Attained, Covered, NegativeCycle, Feasible;
    var all := WithDummy(n, edges);
    var t := Relax(n, edges);
    SameCycles(n, edges);
    for j := 0 to |all|
      invariant forall k :: 0 <= k < j ==> !Improves(t, all[k])
    {
      if Improves(t, all[j]) {
        assert all[j] in all;
        if !NegativeCycle(all) { NoneImproves(n, all, t, all[j]); }
        return None;
      }
    }
    SettledFeasible(n, edges, t);
    FeasibleMeansNone(edges, Potential(t));
    d := Some(Potential(t));
  }
}
