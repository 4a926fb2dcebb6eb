/** Weighted directed graphs given by a list of edges: walks, cycles, potentials. */
module Graphs {

  /** An edge of the channel graph: its weight, its ends, and what it does to an amount. */
  datatype Edge = Edge(w: real, u: nat, v: nat, rate: int, reciprocal: bool, capacity: int)

  /** p leads from a to b along listed edges. */
  ghost predicate IsWalk(edges: seq<Edge>, p: seq<Edge>, a: nat, b: nat) {
    if p == [] then a == b
    else
      var last := p[|p| - 1];
      last in edges && last.v == b && IsWalk(edges, p[..|p| - 1], a, last.u)
  }

  function Weight(p: seq<Edge>): real {
    if p == [] then 0.0 else Weight(p[..|p| - 1]) + p[|p| - 1].w
  }

  /** The vertex reached after k edges. */
  function At(p: seq<Edge>, a: nat, k: nat): nat
    requires k <= |p|
  {
    if k == 0 then a else p[k - 1].v
  }

  ghost predicate NegativeCycle(edges: seq<Edge>) {
    exists p, a :: IsWalk(edges, p, a, a) && Weight(p) < 0.0
  }

  /** All edges run between the first n vertices. */
  predicate Within(edges: seq<Edge>, n: nat) {
    forall e <- edges :: e.u < n && e.v < n
  }

  // ------------------------------------------------- taking walks apart

  lemma {:induction false} WalkSplit(edges: seq<Edge>, p: seq<Edge>, a: nat, b: nat, k: nat)
    requires IsWalk(edges, p, a, b) && k <= |p|
    ensures IsWalk(edges, p[..k], a, At(p, a, k)) && IsWalk(edges, p[k..], At(p, a, k), b)
    ensures Weight(p) == Weight(p[..k]) + Weight(p[k..])
    decreases |p|
  {
    if k == |p| {
      assert p[..k] == p && p[k..] == [];
    } else {
      var m := |p| - 1;
      WalkSplit(edges, p[..m], a, p[m].u, k);
      assert p[..m][..k] == p[..k] && p[k..][..|p[k..]| - 1] == p[..m][k..];
    }
  }

  lemma {:induction false} WalkJoin(edges: seq<Edge>, p: seq<Edge>, q: seq<Edge>, a: nat, b: nat, c: nat)
    requires IsWalk(edges, p, a, b) && IsWalk(edges, q, b, c)
    ensures IsWalk(edges, p + q, a, c) && Weight(p + q) == Weight(p) + Weight(q)
    decreases |q|
  {
    if q == [] {
      assert p + q == p;
    } else {
      var m := |q| - 1;
      WalkJoin(edges, p, q[..m], a, b, q[m].u);
      assert (p + q)[..|p + q| - 1] == p + q[..m];
    }
  }

  lemma WalkStep(edges: seq<Edge>, p: seq<Edge>, a: nat, e: Edge)
    requires IsWalk(edges, p, a, e.u) && e in edges
    ensures IsWalk(edges, p + [e], a, e.v) && Weight(p + [e]) == Weight(p) + e.w
  {
    assert (p + [e])[..|p|] == p;
  }

  lemma {:induction false} WalkEnds(edges: seq<Edge>, p: seq<Edge>, a: nat, b: nat, n: nat)
    requires IsWalk(edges, p, a, b) && Within(edges, n) && a < n
    ensures b < n && forall k :: 0 <= k <= |p| ==> At(p, a, k) < n
    ensures At(p, a, |p|) == b
    decreases |p|
  {
    if p != [] {
      var m := |p| - 1;
      WalkEnds(edges, p[..m], a, p[m].u, n);
      forall k | 0 <= k <= |p| ensures At(p, a, k) < n {
        if k < |p| { assert At(p, a, k) == At(p[..m], a, k); }
      }
    }
  }

  // ------------------------------------------------------------ pigeonhole

  /** Distinct numbers below n are at most n. */
  lemma {:induction false} Distinct(xs: seq<nat>, n: nat)
    requires forall i :: 0 <= i < |xs| ==> xs[i] < n
    requires forall i, j :: 0 <= i < j < |xs| ==> xs[i] != xs[j]
    ensures |xs| <= n
    decreases n
  {
    if xs != [] {
      assert xs[0] < n;
      if k :| 0 <= k < |xs| && xs[k] == n - 1 {
        var rest := xs[..k] + xs[k + 1..];
        forall i | 0 <= i < |rest| ensures rest[i] < n - 1 {
          assert rest[i] == xs[if i < k then i else i + 1];
        }
        Distinct(rest, n - 1);
      } else {
        Distinct(xs, n - 1);
      }
    }
  }

  /** A walk with at least as many edges as there are vertices visits one twice. */
  lemma Revisits(edges: seq<Edge>, p: seq<Edge>, a: nat, b: nat, n: nat) returns (i: nat, j: nat)
    requires IsWalk(edges, p, a, b) && Within(edges, n) && a < n && |p| >= n
    ensures i < j <= |p| && At(p, a, i) == At(p, a, j)
  {
    WalkEnds(edges, p, a, b, n);
    var xs := seq(|p| + 1, k requires 0 <= k <= |p| => At(p, a, k));
    if forall i, j :: 0 <= i < j < |xs| ==> xs[i] != xs[j] {
      Distinct(xs, n);
    }
    i, j :| 0 <= i < j < |xs| && xs[i] == xs[j];
  }

  /** Without negative cycles every walk can be cut short at no cost. */
  lemma {:induction false} Shorten(edges: seq<Edge>, p: seq<Edge>, a: nat, b: nat, n: nat) returns (q: seq<Edge>)
    requires IsWalk(edges, p, a, b) && Within(edges, n) && a < n && !NegativeCycle(edges)
    ensures IsWalk(edges, q, a, b) && |q| < n && Weight(q) <= Weight(p)
    decreases |p|
  {
    if |p| < n {
      q := p;
    } else {
      var i, j := Revisits(edges, p, a, b, n);
      var x := At(p, a, i);
      WalkSplit(edges, p, a, b, j);
      WalkSplit(edges, p[..j], a, x, i);
      assert p[..j][..i] == p[..i] && At(p[..j], a, i) == x;
      assert Weight(p[..j][i..]) >= 0.0;
      WalkJoin(edges, p[..i], p[j..], a, x, b);
      q := Shorten(edges, p[..i] + p[j..], a, b, n);
    }
  }

  // ------------------------------------------------------------ potentials

  /** No edge can be relaxed: the distances form a potential. */
  ghost predicate Feasible(edges: seq<Edge>, d: seq<real>) {
    forall e <- edges :: e.u < |d| && e.v < |d| && d[e.u] + e.w >= d[e.v]
  }

  lemma {:induction false} PotentialBound(edges: seq<Edge>, d: seq<real>, p: seq<Edge>, a: nat, b: nat)
    requires Feasible(edges, d) && IsWalk(edges, p, a, b) && a < |d|
    ensures b < |d| && d[a] + Weight(p) >= d[b]
    decreases |p|
  {
    if p != [] { PotentialBound(edges, d, p[..|p| - 1], a, p[|p| - 1].u); }
  }

  /** A potential rules out negative cycles. */
  lemma FeasibleMeansNone(edges: seq<Edge>, d: seq<real>)
    requires Feasible(edges, d)
    ensures !NegativeCycle(edges)
  {
    forall p, a | IsWalk(edges, p, a, a) ensures Weight(p) >= 0.0 {
      if p != [] {
        FirstVertex(edges, p, a, a);
        PotentialBound(edges, d, p, a, a);
      }
    }
  }

  lemma {:induction false} FirstVertex(edges: seq<Edge>, p: seq<Edge>, a: nat, b: nat)
    requires IsWalk(edges, p, a, b) && p != []
    ensures p[0] in edges && p[0].u == a
    decreases |p|
  {
    if |p| > 1 { FirstVertex(edges, p[..|p| - 1], a, p[|p| - 1].u); }
  }

  // ---------------------------------------------------------- reweighting

  function Reweighted(e: Edge, d: seq<real>): Edge
    requires e.u < |d| && e.v < |d|
  {
    e.(w := e.w + (d[e.u] - d[e.v]))
  }

  function ReweightAll(p: seq<Edge>, d: seq<real>): (r: seq<Edge>)
    requires forall e <- p :: e.u < |d| && e.v < |d|
    ensures |r| == |p|
  {
    seq(|p|, i requires 0 <= i < |p| => Reweighted(p[i], d))
  }

  /** Every walk keeps its place, and its weight changes by a term of its ends only. */
  lemma {:induction false} ReweightedWalk(edges: seq<Edge>, d: seq<real>, p: seq<Edge>, a: nat, b: nat)
    requires Within(edges, |d|) && IsWalk(edges, p, a, b) && a < |d|
    ensures b < |d| && forall e <- p :: e.u < |d| && e.v < |d|
    ensures IsWalk(ReweightAll(edges, d), ReweightAll(p, d), a, b)
    ensures Weight(ReweightAll(p, d)) == Weight(p) + d[a] - d[b]
    decreases |p|
  {
    if p != [] {
      var m := |p| - 1;
      ReweightedWalk(edges, d, p[..m], a, p[m].u);
      var k :| 0 <= k < |edges| && edges[k] == p[m];
      assert ReweightAll(edges, d)[k] == Reweighted(p[m], d);
      assert p == p[..m] + [p[m]];
      assert ReweightAll(p, d)[..m] == ReweightAll(p[..m], d);
    }
  }

  /** Every walk of the reweighted graph comes from one of the original. */
  lemma {:induction false} OriginalWalk(edges: seq<Edge>, d: seq<real>, q: seq<Edge>, a: nat, b: nat) returns (p: seq<Edge>)
    requires Within(edges, |d|) && IsWalk(ReweightAll(edges, d), q, a, b) && a < |d|
    ensures IsWalk(edges, p, a, b) && (forall e <- p :: e.u < |d| && e.v < |d|) && ReweightAll(p, d) == q
    decreases |q|
  {
    if q == [] {
      p := [];
    } else {
      var m := |q| - 1;
      var p0 := OriginalWalk(edges, d, q[..m], a, q[m].u);
      var k :| 0 <= k < |edges| && ReweightAll(edges, d)[k] == q[m];
      p := p0 + [edges[k]];
      WalkStep(edges, p0, a, edges[k]);
      assert q == q[..m] + [q[m]];
    }
  }

  lemma ReweightedNonNegative(edges: seq<Edge>, d: seq<real>)
    requires Feasible(edges, d)
    ensures forall e <- ReweightAll(edges, d) :: e.w >= 0.0
  {}
}
