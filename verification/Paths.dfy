/** Directed multigraphs given by adjacency lists, and the paths in them. A path is the sequence of
    adjacency positions it takes, so parallel edges give different paths. */
module Paths {
  import opened Sums

  /** A node's public key. */
  type NodeID = seq<bv8>

  /** nodes[u] is the identity of node u, adj[u] lists the endpoints of the edges out of u. */
  datatype SimpleGraph = SimpleGraph(nodes: seq<NodeID>, adj: seq<seq<int>>)

  ghost predicate WellFormed(g: SimpleGraph) {
    && |g.adj| == |g.nodes|
    && (forall u, j | 0 <= u < |g.adj| && 0 <= j < |g.adj[u]| :: 0 <= g.adj[u][j] < |g.adj|)
    && (forall u, v | 0 <= u < v < |g.nodes| :: g.nodes[u] != g.nodes[v])
  }

  ghost function Degree(g: SimpleGraph, u: int): nat {
    if 0 <= u < |g.adj| then |g.adj[u]| else 0
  }

  ghost function Neighbor(g: SimpleGraph, u: int, j: int): int {
    if 0 <= u < |g.adj| && 0 <= j < |g.adj[u]| then g.adj[u][j] else -1
  }

  /** The number of parallel edges from u to v. */
  ghost function Edges(g: SimpleGraph, u: int, v: int): nat {
    if 0 <= u < |g.adj| then multiset(g.adj[u])[v] else 0
  }

  // ----- paths -----

  /** Taking the positions p from s ends in t. */
  ghost predicate Follows(g: SimpleGraph, s: int, p: seq<int>, t: int)
    decreases |p|
  {
    if p == [] then s == t
    else 0 <= p[0] < Degree(g, s) && Follows(g, Neighbor(g, s, p[0]), p[1..], t)
  }

  /** The node w is an endpoint of the path p from s, or lies on it. */
  ghost predicate Visits(g: SimpleGraph, s: int, p: seq<int>, w: int)
    decreases |p|
  {
    s == w || (p != [] && Visits(g, Neighbor(g, s, p[0]), p[1..], w))
  }

  /** The paths of length k from s to t. */
  ghost function PathSet(g: SimpleGraph, k: nat, s: int, t: int): set<seq<int>> {
    if k == 0 then (if s == t then {[]} else {})
    else set j, p | 0 <= j < Degree(g, s) && p in PathSet(g, k - 1, Neighbor(g, s, j), t) :: [j] + p
  }

  /** PathSet is exactly the set of position sequences of length k that lead from s to t. */
  lemma {:induction false} PathSetIsAllPaths(g: SimpleGraph, k: nat, s: int, t: int, p: seq<int>)
    ensures p in PathSet(g, k, s, t) <==> |p| == k && Follows(g, s, p, t)
  {
    if k > 0 && p != [] {
      PathSetIsAllPaths(g, k - 1, Neighbor(g, s, p[0]), t, p[1..]);
      assert p == [p[0]] + p[1..];
      assert [p[0]] + p[1..] in PathSet(g, k, s, t) <==>
             0 <= p[0] < Degree(g, s) && p[1..] in PathSet(g, k - 1, Neighbor(g, s, p[0]), t);
    }
  }

  ghost predicate IsShortest(g: SimpleGraph, s: int, t: int, p: seq<int>) {
    && Follows(g, s, p, t)
    && forall q | Follows(g, s, q, t) :: |p| <= |q|
  }

  // ----- counting paths -----

  ghost function Extend(m: nat, tails: int -> set<seq<int>>): set<seq<int>> {
    set j, p | 0 <= j < m && p in tails(j) :: [j] + p
  }

  ghost function Sizes(tails: int -> set<seq<int>>): int -> real { j => |tails(j)| as real }

  lemma {:induction false} ExtendSize(m: nat, tails: int -> set<seq<int>>)
    ensures |Extend(m, tails)| as real == Sum(m, Sizes(tails))
  {
    hide Prefixed;
    if m == 0 {
      assert Extend(0, tails) == {};
    } else {
      ExtendSize(m - 1, tails);
      var j := m - 1;
      var last := Prefixed(j, tails(j));
      PrefixedSize(j, tails(j));
      ExtendLast(j, tails);
      assert |Extend(j, tails) + last| == |Extend(j, tails)| + |last|;
      assert Sizes(tails)(j) == |last| as real;
    }
  }

  lemma ExtendLast(j: nat, tails: int -> set<seq<int>>)
    ensures Extend(j + 1, tails) == Extend(j, tails) + Prefixed(j, tails(j))
    ensures Extend(j, tails) !! Prefixed(j, tails(j))
  {
    assert forall q | q in Extend(j, tails) :: q[0] < j;
    assert forall q | q in Prefixed(j, tails(j)) :: q[0] == j;
  }

  ghost function Prefixed(j: int, a: set<seq<int>>): set<seq<int>> {
    set p | p in a :: [j] + p
  }

  lemma {:induction false} PrefixedSize(j: int, a: set<seq<int>>)
    ensures |Prefixed(j, a)| == |a|
    decreases |a|
  {
    if a != {} {
      var q :| q in a;
      PrefixedSize(j, a - {q});
      assert forall p | p in a - {q} :: ([j] + p)[1..] == p;
      assert ([j] + q)[1..] == q;
      assert Prefixed(j, a) == Prefixed(j, a - {q}) + {[j] + q};
    }
  }

  /** The number of paths of length k from s to t, by the first edge taken. */
  ghost function Walks(g: SimpleGraph, k: nat, s: int, t: int): real
    decreases k, 0
  {
    if k == 0 then (if s == t then 1.0 else 0.0)
    else WalksVia(g, k - 1, s, t, |g.adj|)
  }

  /** The paths of length k + 1 whose first edge goes to one of the first m nodes. */
  ghost function WalksVia(g: SimpleGraph, k: nat, s: int, t: int, m: nat): real
    decreases k, m + 1
  {
    if m == 0 then 0.0
    else WalksVia(g, k, s, t, m - 1) + Edges(g, s, m - 1) as real * Walks(g, k, m - 1, t)
  }

  ghost function FirstStep(g: SimpleGraph, k: nat, s: int, t: int): int -> real {
    w => Edges(g, s, w) as real * Walks(g, k, w, t)
  }

  lemma {:induction false} WalksViaSum(g: SimpleGraph, k: nat, s: int, t: int, m: nat)
    ensures WalksVia(g, k, s, t, m) == Sum(m, FirstStep(g, k, s, t))
  {
    if m > 0 {
      WalksViaSum(g, k, s, t, m - 1);
    }
  }

  lemma WalksStep(g: SimpleGraph, k: nat, s: int, t: int)
    ensures Walks(g, k + 1, s, t) == Sum(|g.adj|, FirstStep(g, k, s, t))
  {
    WalksViaSum(g, k, s, t, |g.adj|);
  }

  ghost function Along(a: seq<int>, f: int -> real): int -> real {
    j => if 0 <= j < |a| then f(a[j]) else 0.0
  }

  ghost function Weighted(a: seq<int>, f: int -> real): int -> real {
    w => multiset(a)[w] as real * f(w)
  }

  /** Summing along a list is summing over the nodes, each weighted by its number of occurrences. */
  lemma {:induction false} SumAlong(n: nat, a: seq<int>, f: int -> real)
    requires forall j | 0 <= j < |a| :: 0 <= a[j] < n
    ensures Sum(|a|, Along(a, f)) == Sum(n, Weighted(a, f))
  {
    if a == [] {
      SumZero(n, Weighted(a, f));
    } else {
      var m := |a| - 1;
      var b, x := a[..m], a[m];
      SumAlong(n, b, f);
      SumExt(m, Along(a, f), Along(b, f));
      assert a == b + [x];
      WeightedAppend(n, b, x, f);
    }
  }

  lemma WeightedAppend(n: nat, b: seq<int>, x: int, f: int -> real)
    requires 0 <= x < n
    ensures Sum(n, Weighted(b + [x], f)) == Sum(n, Weighted(b, f)) + f(x)
  {
    var before, after := Weighted(b, f), Weighted(b + [x], f);
    forall w | 0 <= w < n && w != x ensures before(w) == after(w) {
      assert multiset(b + [x])[w] == multiset(b)[w];
    }
    assert multiset(b + [x])[x] == multiset(b)[x] + 1;
    SumPoint(n, x, before, after);
  }

  /** A family indexed by adjacency positions that depends only on the neighbour reached. */
  lemma SumOverEdges(g: SimpleGraph, s: int, perEdge: int -> real, perNode: int -> real, h: int -> real)
    requires WellFormed(g)
    requires forall j | 0 <= j < Degree(g, s) :: perEdge(j) == perNode(Neighbor(g, s, j))
    requires forall w | 0 <= w < |g.adj| :: h(w) == Edges(g, s, w) as real * perNode(w)
    ensures Sum(Degree(g, s), perEdge) == Sum(|g.adj|, h)
  {
    hide Sum;
    if 0 <= s < |g.adj| {
      SumAlong(|g.adj|, g.adj[s], perNode);
      SumExt(Degree(g, s), perEdge, Along(g.adj[s], perNode));
      SumExt(|g.adj|, h, Weighted(g.adj[s], perNode));
    } else {
      SumZero(0, perEdge);
      SumZero(|g.adj|, h);
    }
  }

  /** Walks counts the paths in PathSet. */
  lemma {:induction false} WalksCountsPaths(g: SimpleGraph, k: nat, s: int, t: int)
    requires WellFormed(g)
    ensures |PathSet(g, k, s, t)| as real == Walks(g, k, s, t)
  {
    if k > 0 {
      hide Walks, PathSet, Extend, Sum, Edges;
      var tails := PathsAfter(g, k - 1, s, t);
      forall j | 0 <= j < Degree(g, s) ensures |tails(j)| as real == Walks(g, k - 1, Neighbor(g, s, j), t) {
        WalksCountsPaths(g, k - 1, Neighbor(g, s, j), t);
      }
      PathSetStep(g, k - 1, s, t);
      ExtendCount(g, k - 1, s, t, tails);
      WalksStep(g, k - 1, s, t);
    }
  }

  lemma ExtendCount(g: SimpleGraph, k: nat, s: int, t: int, tails: int -> set<seq<int>>)
    requires WellFormed(g)
    requires forall j | 0 <= j < Degree(g, s) :: |tails(j)| as real == Walks(g, k, Neighbor(g, s, j), t)
    ensures |Extend(Degree(g, s), tails)| as real == Sum(|g.adj|, FirstStep(g, k, s, t))
  {
    ExtendSize(Degree(g, s), tails);
    SumOverEdges(g, s, Sizes(tails), WalksTo(g, k, t), FirstStep(g, k, s, t));
  }

  ghost function WalksTo(g: SimpleGraph, k: nat, t: int): int -> real { w => Walks(g, k, w, t) }

  ghost function PathsAfter(g: SimpleGraph, k: nat, s: int, t: int): int -> set<seq<int>> {
    j => PathSet(g, k, Neighbor(g, s, j), t)
  }

  lemma PathSetStep(g: SimpleGraph, k: nat, s: int, t: int)
    ensures PathSet(g, k + 1, s, t) == Extend(Degree(g, s), PathsAfter(g, k, s, t))
  {
  }

  lemma {:induction false} WalksNonNegative(g: SimpleGraph, k: nat, s: int, t: int)
    ensures Walks(g, k, s, t) >= 0.0
  {
    if k > 0 {
      var f := FirstStep(g, k - 1, s, t);
      forall w | 0 <= w < |g.adj| ensures f(w) >= 0.0 {
        WalksNonNegative(g, k - 1, w, t);
      }
      SumNonNegative(|g.adj|, f);
      WalksStep(g, k - 1, s, t);
    }
  }

  ghost function LastStep(g: SimpleGraph, k: nat, s: int, t: int): int -> real {
    v => Walks(g, k, s, v) * Edges(g, v, t) as real
  }

  ghost function TwoSteps(g: SimpleGraph, k: nat, s: int, t: int): (int, int) -> real {
    (w, v) => Edges(g, s, w) as real * (Walks(g, k, w, v) * Edges(g, v, t) as real)
  }

  /** The same count, by the last edge taken. */
  lemma {:induction false} WalksByLastEdge(g: SimpleGraph, k: nat, s: int, t: int)
    requires 0 <= s < |g.adj| && 0 <= t < |g.adj|
    ensures Walks(g, k + 1, s, t) == Sum(|g.adj|, LastStep(g, k, s, t))
  {
    hide Sum, Walks, Edges;
    WalksStep(g, k, s, t);
    if k == 0 {
      OneEdge(g, s, t);
    } else {
      forall w | 0 <= w < |g.adj|
        ensures FirstStep(g, k, s, t)(w) == RowSums(|g.adj|, TwoSteps(g, k - 1, s, t))(w)
      {
        WalksByLastEdge(g, k - 1, w, t);
        RowScale(g, k - 1, s, t, w);
      }
      SumExt(|g.adj|, FirstStep(g, k, s, t), RowSums(|g.adj|, TwoSteps(g, k - 1, s, t)));
      SumSwap(|g.adj|, |g.adj|, TwoSteps(g, k - 1, s, t));
      LastStepIsColumnSum(g, k - 1, s, t);
    }
  }

  lemma OneEdge(g: SimpleGraph, s: int, t: int)
    requires 0 <= s < |g.adj| && 0 <= t < |g.adj|
    ensures Sum(|g.adj|, FirstStep(g, 0, s, t)) == Sum(|g.adj|, LastStep(g, 0, s, t)) == Edges(g, s, t) as real
  {
    hide Sum, Edges;
    var zero := (x: int) => 0.0;
    SumZero(|g.adj|, zero);
    SumPoint(|g.adj|, t, zero, FirstStep(g, 0, s, t));
    SumPoint(|g.adj|, s, zero, LastStep(g, 0, s, t));
  }

  lemma RowScale(g: SimpleGraph, k: nat, s: int, t: int, w: int)
    ensures RowSums(|g.adj|, TwoSteps(g, k, s, t))(w) == Edges(g, s, w) as real * Sum(|g.adj|, LastStep(g, k, w, t))
  {
    hide Sum, Walks, Edges;
    SumScale(|g.adj|, Edges(g, s, w) as real, LastStep(g, k, w, t), Row(TwoSteps(g, k, s, t), w));
  }

  lemma LastStepIsColumnSum(g: SimpleGraph, k: nat, s: int, t: int)
    ensures Sum(|g.adj|, LastStep(g, k + 1, s, t)) == Sum(|g.adj|, ColumnSums(|g.adj|, TwoSteps(g, k, s, t)))
  {
    hide Sum, Walks, Edges;
    var n, two := |g.adj|, TwoSteps(g, k, s, t);
    var last, columns := LastStep(g, k + 1, s, t), ColumnSums(n, two);
    forall v | 0 <= v < n ensures last(v) == columns(v) {
      WalksStep(g, k, s, v);
      SumScale(n, Edges(g, v, t) as real, FirstStep(g, k, s, v), Column(two, v));
    }
    SumExt(n, last, columns);
  }

  ghost predicate Symmetric(g: SimpleGraph) {
    forall u, v | 0 <= u < |g.adj| && 0 <= v < |g.adj| :: Edges(g, u, v) == Edges(g, v, u)
  }

  /** In an undirected graph there are as many paths back as there are forth. */
  lemma {:induction false} WalksReverse(g: SimpleGraph, k: nat, s: int, t: int)
    requires Symmetric(g)
    requires 0 <= s < |g.adj| && 0 <= t < |g.adj|
    ensures Walks(g, k, s, t) == Walks(g, k, t, s)
  {
    if k > 0 {
      hide Sum, Walks, Edges;
      var first, last := FirstStep(g, k - 1, s, t), LastStep(g, k - 1, t, s);
      forall w | 0 <= w < |g.adj| ensures first(w) == last(w) {
        WalksReverse(g, k - 1, w, t);
        Commute(Walks(g, k - 1, w, t), Edges(g, s, w) as real);
      }
      SumExt(|g.adj|, first, last);
      WalksStep(g, k - 1, s, t);
      WalksByLastEdge(g, k - 1, t, s);
    }
  }

  lemma Commute(x: real, y: real)
    ensures x * y == y * x
  {
  }

  /** Two paths join into one. */
  lemma {:induction false} WalksJoin(g: SimpleGraph, j: nat, k: nat, s: int, v: int, t: int)
    requires Walks(g, j, s, v) > 0.0 && Walks(g, k, v, t) > 0.0
    ensures Walks(g, j + k, s, t) > 0.0
  {
    if j > 0 {
      WalksStep(g, j - 1, s, v);
      var w := PositiveTerm(|g.adj|, FirstStep(g, j - 1, s, v));
      WalksNonNegative(g, j - 1, w, v);
      PositiveFactors(Edges(g, s, w) as real, Walks(g, j - 1, w, v));
      WalksJoin(g, j - 1, k, w, v, t);
      EdgeThenWalk(g, j - 1 + k, s, w, t);
    }
  }

  lemma PositiveFactors(x: real, y: real)
    requires x >= 0.0 && y >= 0.0 && x * y > 0.0
    ensures x > 0.0 && y > 0.0
  {
  }

  lemma EdgeThenWalk(g: SimpleGraph, k: nat, s: int, w: int, t: int)
    requires 0 <= w < |g.adj| && Edges(g, s, w) > 0 && Walks(g, k, w, t) > 0.0
    ensures Walks(g, k + 1, s, t) > 0.0
  {
    hide Sum, Walks, Edges;
    WalksStep(g, k, s, t);
    var f := FirstStep(g, k, s, t);
    forall x | 0 <= x < |g.adj| ensures f(x) >= 0.0 {
      WalksNonNegative(g, k, x, t);
    }
    TermAtMostSum(|g.adj|, f, w);
  }

  // ----- distances -----

  ghost predicate Reachable(g: SimpleGraph, s: int, t: int) {
    exists k: nat :: Walks(g, k, s, t) > 0.0
  }

  ghost predicate IsDistance(g: SimpleGraph, s: int, t: int, d: nat) {
    && Walks(g, d, s, t) > 0.0
    && forall k: nat | Walks(g, k, s, t) > 0.0 :: d <= k
  }

  lemma {:induction false} DistanceExists(g: SimpleGraph, s: int, t: int, k: nat)
    requires Walks(g, k, s, t) > 0.0
    ensures exists d: nat :: IsDistance(g, s, t, d)
  {
    if j: nat :| j < k && Walks(g, j, s, t) > 0.0 {
      DistanceExists(g, s, t, j);
    } else {
      assert IsDistance(g, s, t, k);
    }
  }

  /** The hop distance from s to t, and -1 when t cannot be reached. */
  ghost function Distance(g: SimpleGraph, s: int, t: int): (d: int)
    ensures d >= -1
    ensures d >= 0 <==> Reachable(g, s, t)
    ensures d >= 0 ==> IsDistance(g, s, t, d)
  {
    if Reachable(g, s, t) then
      var k: nat :| Walks(g, k, s, t) > 0.0;
      DistanceExists(g, s, t, k);
      var d: nat :| IsDistance(g, s, t, d);
      d
    else -1
  }

  lemma DistanceToSelf(g: SimpleGraph, s: int, v: int)
    ensures Distance(g, s, s) == 0
    ensures Distance(g, s, v) == 0 ==> v == s
  {
    assert Walks(g, 0, s, s) > 0.0;
  }

  /** Distances grow by at most the length of any path taken from v. */
  lemma DistanceAfterWalk(g: SimpleGraph, s: int, v: int, k: nat, t: int)
    requires Distance(g, s, v) >= 0 && Walks(g, k, v, t) > 0.0
    ensures 0 <= Distance(g, s, t) <= Distance(g, s, v) + k
  {
    WalksJoin(g, Distance(g, s, v), k, s, v, t);
  }

  lemma DistanceAfterEdge(g: SimpleGraph, s: int, v: int, w: int)
    requires 0 <= w < |g.adj|
    requires Distance(g, s, v) >= 0 && Edges(g, v, w) > 0
    ensures 0 <= Distance(g, s, w) <= Distance(g, s, v) + 1
  {
    EdgeThenWalk(g, 0, v, w, w);
    DistanceAfterWalk(g, s, v, 1, w);
  }

  ghost function ShortestPaths(g: SimpleGraph, s: int, t: int): set<seq<int>> {
    if Reachable(g, s, t) then PathSet(g, Distance(g, s, t), s, t) else {}
  }

  /** ShortestPaths holds exactly the paths from s to t that no other path undercuts. */
  lemma ShortestPathsAreShortest(g: SimpleGraph, s: int, t: int, p: seq<int>)
    requires WellFormed(g)
    ensures p in ShortestPaths(g, s, t) <==> IsShortest(g, s, t, p)
  {
    forall q | Follows(g, s, q, t) ensures Walks(g, |q|, s, t) > 0.0 {
      PathSetIsAllPaths(g, |q|, s, t, q);
      WalksCountsPaths(g, |q|, s, t);
    }
    if Reachable(g, s, t) {
      var d := Distance(g, s, t);
      WalksCountsPaths(g, d, s, t);
      assert PathSet(g, d, s, t) != {};
      var q :| q in PathSet(g, d, s, t);
      PathSetIsAllPaths(g, d, s, t, q);
      PathSetIsAllPaths(g, d, s, t, p);
    }
  }

  ghost function ShortestPathsThrough(g: SimpleGraph, s: int, t: int, w: int): set<seq<int>> {
    set p | p in ShortestPaths(g, s, t) && Visits(g, s, p, w)
  }

  /** The number of shortest paths from s to t. */
  ghost function Sigma(g: SimpleGraph, s: int, t: int): real {
    if Reachable(g, s, t) then Walks(g, Distance(g, s, t), s, t) else 0.0
  }
}
