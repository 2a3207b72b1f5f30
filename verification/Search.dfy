/** What the breadth-first search knows at each point, as a value: the nodes queued so far in order, how many of
    them are finished, how many edges of the current one are scanned, and the three tables. */
module Search {
  import opened Sums
  import opened Paths
  import opened Sets

  datatype State = State(order: seq<int>, done: nat, scanned: nat,
                         dist: seq<int>, sigma: seq<nat>, pred: seq<seq<int>>)

  ghost predicate Distinct(a: seq<int>) {
    forall i, j | 0 <= i < j < |a| :: a[i] != a[j]
  }

  ghost predicate Shape(g: SimpleGraph, s: int, q: State) {
    && WellFormed(g)
    && |q.dist| == |q.sigma| == |q.pred| == |g.adj|
    && 0 <= s < |g.adj|
    && q.done <= |q.order|
    && q.scanned <= (if q.done < |q.order| then Degree(g, q.order[q.done]) else 0)
    && 0 < |q.order| && q.order[0] == s
    && (forall i | 0 <= i < |q.order| :: 0 <= q.order[i] < |g.adj|)
    && Distinct(q.order)
  }

  /** The number of edges from u to w scanned so far. */
  ghost function Scanned(g: SimpleGraph, q: State, u: int, w: int): nat
    requires q.done <= |q.order|
    requires q.scanned <= (if q.done < |q.order| then Degree(g, q.order[q.done]) else 0)
  {
    if u in q.order[..q.done] then Edges(g, u, w)
    else if q.done < |q.order| && u == q.order[q.done] && 0 <= u < |g.adj| then multiset(g.adj[u][..q.scanned])[w]
    else 0
  }

  ghost predicate Levels(g: SimpleGraph, s: int, q: State)
    requires Shape(g, s, q)
  {
    && (forall v | 0 <= v < |g.adj| :: q.dist[v] >= 0 <==> v in q.order)
    && (forall v | 0 <= v < |g.adj| :: q.dist[v] >= -1)
    && (forall v | 0 <= v < |g.adj| :: q.dist[v] == 0 <==> v == s)
    && (forall i, j | 0 <= i < j < |q.order| :: q.dist[q.order[i]] <= q.dist[q.order[j]])
    && (q.done < |q.order| ==> forall i | 0 <= i < |q.order| :: q.dist[q.order[i]] <= q.dist[q.order[q.done]] + 1)
  }

  ghost predicate Reached(g: SimpleGraph, s: int, q: State)
    requires Shape(g, s, q)
  {
    forall v | 0 <= v < |g.adj| && q.dist[v] >= 0 :: Walks(g, q.dist[v], s, v) > 0.0
  }

  ghost predicate Relaxed(g: SimpleGraph, s: int, q: State)
    requires Shape(g, s, q)
  {
    forall u, w | 0 <= u < |g.adj| && 0 <= w < |g.adj| && Scanned(g, q, u, w) > 0 :: 0 <= q.dist[w] <= q.dist[u] + 1
  }

  /** pred[w] lists exactly the scanned edges into w from the level before it. */
  ghost predicate Predecessors(g: SimpleGraph, s: int, q: State)
    requires Shape(g, s, q)
  {
    && (forall u, w | 0 <= u < |g.adj| && 0 <= w < |g.adj| ::
          multiset(q.pred[w])[u] == if q.dist[u] >= 0 && q.dist[w] == q.dist[u] + 1 then Scanned(g, q, u, w) else 0)
    && (forall w, i | 0 <= w < |g.adj| && 0 <= i < |q.pred[w]| :: 0 <= q.pred[w][i] < |g.adj|)
  }

  ghost function Values(sigma: seq<nat>): int -> real {
    u => if 0 <= u < |sigma| then sigma[u] as real else 0.0
  }

  /** sigma[w] counts the source itself and whatever its predecessors have. */
  ghost predicate Counts(g: SimpleGraph, s: int, q: State)
    requires Shape(g, s, q)
  {
    forall w | 0 <= w < |g.adj| ::
      q.sigma[w] as real == (if w == s then 1.0 else 0.0) + Sum(|g.adj|, Weighted(q.pred[w], Values(q.sigma)))
  }

  ghost predicate Inv(g: SimpleGraph, s: int, q: State) {
    Shape(g, s, q) && Levels(g, s, q) && Reached(g, s, q) && Relaxed(g, s, q) && Predecessors(g, s, q) && Counts(g, s, q)
  }

  // ----- the start -----

  ghost function Initial(g: SimpleGraph, s: int): State
    requires 0 <= s < |g.adj|
  {
    State([s], 0, 0, seq(|g.adj|, _ => -1)[s := 0], seq(|g.adj|, _ => 0)[s := 1], seq(|g.adj|, _ => []))
  }

  lemma InitialInv(g: SimpleGraph, s: int)
    requires WellFormed(g) && 0 <= s < |g.adj|
    ensures Inv(g, s, Initial(g, s))
  {
    var q := Initial(g, s);
    forall w | 0 <= w < |g.adj|
      ensures q.sigma[w] as real == (if w == s then 1.0 else 0.0) + Sum(|g.adj|, Weighted(q.pred[w], Values(q.sigma)))
    {
      SumZero(|g.adj|, Weighted(q.pred[w], Values(q.sigma)));
    }
  }

  // ----- the edge at hand -----

  ghost predicate AtEdge(g: SimpleGraph, s: int, q: State, v: int, w: int) {
    && Inv(g, s, q)
    && q.done < |q.order| && q.order[q.done] == v
    && q.scanned < |g.adj[v]| && g.adj[v][q.scanned] == w
  }

  /** A node seen for the first time is queued one level below the current one. */
  ghost function Discover(q: State, v: int, w: int): State
    requires 0 <= v < |q.dist| && 0 <= w < |q.dist|
  {
    q.(order := q.order + [w], dist := q.dist[w := q.dist[v] + 1])
  }

  lemma DiscoverScanned(g: SimpleGraph, s: int, q: State, v: int, w: int, x: int, y: int)
    requires AtEdge(g, s, q, v, w) && q.dist[w] < 0
    ensures Shape(g, s, Discover(q, v, w))
    ensures Scanned(g, Discover(q, v, w), x, y) == Scanned(g, q, x, y)
  {
    assert Discover(q, v, w).order[..q.done] == q.order[..q.done];
  }

  lemma DiscoverInv(g: SimpleGraph, s: int, q: State, v: int, w: int)
    requires AtEdge(g, s, q, v, w) && q.dist[w] < 0
    ensures AtEdge(g, s, Discover(q, v, w), v, w)
    ensures Discover(q, v, w).dist[w] >= 0
  {
    hide Walks, Sum;
    assert v in q.order;
    var d := Discover(q, v, w);
    forall x, y ensures Scanned(g, d, x, y) == Scanned(g, q, x, y) {
      DiscoverScanned(g, s, q, v, w, x, y);
    }
    assert Shape(g, s, d) by { DiscoverScanned(g, s, q, v, w, v, w); }
    assert Levels(g, s, d) by { DiscoverLevels(g, s, q, v, w); }
    assert Reached(g, s, d) by { DiscoverReached(g, s, q, v, w); }
    DiscoverPredecessors(g, s, q, v, w);
  }

  lemma DiscoverLevels(g: SimpleGraph, s: int, q: State, v: int, w: int)
    requires AtEdge(g, s, q, v, w) && q.dist[w] < 0
    requires Shape(g, s, Discover(q, v, w))
    ensures Levels(g, s, Discover(q, v, w))
  {
    var d := Discover(q, v, w);
    assert forall i | 0 <= i < |q.order| :: q.order[i] != w;
    assert forall i | 0 <= i < |q.order| :: d.order[i] == q.order[i];
    assert d.order[|q.order|] == w;
    assert forall x :: x in d.order <==> x in q.order || x == w;
  }

  lemma DiscoverReached(g: SimpleGraph, s: int, q: State, v: int, w: int)
    requires AtEdge(g, s, q, v, w) && q.dist[w] < 0
    requires Shape(g, s, Discover(q, v, w))
    ensures Reached(g, s, Discover(q, v, w))
  {
    hide Walks, Sum;
    assert v in q.order;
    assert Edges(g, v, w) > 0;
    WalkThenEdge(g, q.dist[v], s, v, w);
  }

  lemma WalkThenEdge(g: SimpleGraph, k: nat, s: int, v: int, w: int)
    requires 0 <= w < |g.adj|
    requires Walks(g, k, s, v) > 0.0 && Edges(g, v, w) > 0
    ensures Walks(g, k + 1, s, w) > 0.0
  {
    assert Walks(g, 0, w, w) == 1.0;
    EdgeThenWalk(g, 0, v, w, w);
    WalksJoin(g, k, 1, s, v, w);
  }

  lemma DiscoverPredecessors(g: SimpleGraph, s: int, q: State, v: int, w: int)
    requires AtEdge(g, s, q, v, w) && q.dist[w] < 0
    requires Shape(g, s, Discover(q, v, w))
    ensures Relaxed(g, s, Discover(q, v, w)) && Predecessors(g, s, Discover(q, v, w))
  {
    hide Walks, Sum, Scanned;
    var d := Discover(q, v, w);
    forall x, y ensures Scanned(g, d, x, y) == Scanned(g, q, x, y) {
      DiscoverScanned(g, s, q, v, w, x, y);
    }
    assert forall y :: Scanned(g, q, w, y) == 0 by { UnqueuedUnscanned(g, s, q, w); }
  }

  lemma UnqueuedUnscanned(g: SimpleGraph, s: int, q: State, w: int)
    requires Inv(g, s, q)
    requires 0 <= w < |g.adj| && q.dist[w] < 0
    ensures forall y :: Scanned(g, q, w, y) == 0
  {
    assert w !in q.order;
  }

  /** The edge is counted, and recorded as a predecessor when it goes one level down. */
  ghost function ScanEdge(q: State, v: int, w: int): State
    requires 0 <= v < |q.dist| && 0 <= w < |q.dist| && |q.sigma| == |q.pred| == |q.dist|
  {
    var next := q.(scanned := q.scanned + 1);
    if q.dist[w] == q.dist[v] + 1
    then next.(sigma := q.sigma[w := q.sigma[w] + q.sigma[v]], pred := q.pred[w := q.pred[w] + [v]])
    else next
  }

  lemma ScanEdgeScanned(g: SimpleGraph, s: int, q: State, v: int, w: int, x: int, y: int)
    requires AtEdge(g, s, q, v, w) && q.dist[w] >= 0
    ensures Shape(g, s, ScanEdge(q, v, w))
    ensures Scanned(g, ScanEdge(q, v, w), x, y) == Scanned(g, q, x, y) + if x == v && y == w then 1 else 0
  {
    hide Levels, Reached, Relaxed, Predecessors, Counts;
    assert v !in q.order[..q.done];
    assert g.adj[v][..q.scanned + 1] == g.adj[v][..q.scanned] + [w];
  }

  lemma ScanEdgeInv(g: SimpleGraph, s: int, q: State, v: int, w: int)
    requires AtEdge(g, s, q, v, w) && q.dist[w] >= 0
    ensures Inv(g, s, ScanEdge(q, v, w))
  {
    hide Walks, Sum, Scanned, Predecessors, Counts;
    var e := ScanEdge(q, v, w);
    forall x, y ensures Scanned(g, e, x, y) == Scanned(g, q, x, y) + if x == v && y == w then 1 else 0 {
      ScanEdgeScanned(g, s, q, v, w, x, y);
    }
    assert Shape(g, s, e) by { ScanEdgeScanned(g, s, q, v, w, v, w); }
    assert w in q.order && v in q.order;
    assert Levels(g, s, e) && Reached(g, s, e) && Relaxed(g, s, e);
    ScanEdgePredecessors(g, s, q, v, w);
    ScanEdgeCounts(g, s, q, v, w);
  }

  lemma ScanEdgePredecessors(g: SimpleGraph, s: int, q: State, v: int, w: int)
    requires AtEdge(g, s, q, v, w) && q.dist[w] >= 0
    requires Shape(g, s, ScanEdge(q, v, w))
    ensures Predecessors(g, s, ScanEdge(q, v, w))
  {
    hide Walks, Sum, Scanned, Edges, Levels, Reached, Relaxed, Counts;
    var e := ScanEdge(q, v, w);
    forall x, y | 0 <= x < |g.adj| && 0 <= y < |g.adj|
      ensures multiset(e.pred[y])[x] == if e.dist[x] >= 0 && e.dist[y] == e.dist[x] + 1 then Scanned(g, e, x, y) else 0
    {
      ScanEdgePredecessor(g, s, q, v, w, x, y);
    }
  }

  lemma ScanEdgePredecessor(g: SimpleGraph, s: int, q: State, v: int, w: int, x: int, y: int)
    requires AtEdge(g, s, q, v, w) && q.dist[w] >= 0
    requires Shape(g, s, ScanEdge(q, v, w))
    requires 0 <= x < |g.adj| && 0 <= y < |g.adj|
    ensures multiset(ScanEdge(q, v, w).pred[y])[x]
            == if q.dist[x] >= 0 && q.dist[y] == q.dist[x] + 1 then Scanned(g, ScanEdge(q, v, w), x, y) else 0
  {
    hide Walks, Sum, Edges, Relaxed, Counts, Reached;
    assert v in q.order;
    ScanEdgeScanned(g, s, q, v, w, x, y);
    assert multiset(q.pred[y])[x] ==
           if q.dist[x] >= 0 && q.dist[y] == q.dist[x] + 1 then Scanned(g, q, x, y) else 0;
  }

  /** A node that is one level down is nobody's predecessor yet, so raising its count disturbs no other. */
  lemma NotYetPredecessor(g: SimpleGraph, s: int, q: State, v: int, w: int, y: int)
    requires AtEdge(g, s, q, v, w) && q.dist[w] == q.dist[v] + 1 && 0 <= y < |g.adj|
    ensures multiset(q.pred[y])[w] == 0
  {
    forall i | 0 <= i <= q.done ensures q.order[i] != w {
    }
    assert w !in q.order[..q.done];
    assert Scanned(g, q, w, y) == 0;
  }

  lemma ScanEdgeCounts(g: SimpleGraph, s: int, q: State, v: int, w: int)
    requires AtEdge(g, s, q, v, w) && q.dist[w] >= 0
    requires Shape(g, s, ScanEdge(q, v, w))
    ensures Counts(g, s, ScanEdge(q, v, w))
  {
    hide Walks, Sum;
    var e := ScanEdge(q, v, w);
    if q.dist[w] == q.dist[v] + 1 {
      forall y | 0 <= y < |g.adj|
        ensures e.sigma[y] as real == (if y == s then 1.0 else 0.0) + Sum(|g.adj|, Weighted(e.pred[y], Values(e.sigma)))
      {
        NotYetPredecessor(g, s, q, v, w, y);
        IgnoreUnused(|g.adj|, q.pred[y], q.sigma, w, e.sigma[w]);
        if y == w {
          assert v != w;
          WeightedAppend(|g.adj|, q.pred[w], v, Values(e.sigma));
        }
      }
    }
  }

  lemma IgnoreUnused(n: nat, p: seq<int>, sigma: seq<nat>, w: int, value: nat)
    requires |sigma| == n && 0 <= w < n && multiset(p)[w] == 0
    ensures Sum(n, Weighted(p, Values(sigma[w := value]))) == Sum(n, Weighted(p, Values(sigma)))
  {
    hide Sum;
    SumExt(n, Weighted(p, Values(sigma[w := value])), Weighted(p, Values(sigma)));
  }

  // ----- the next node -----

  lemma NextNodeScanned(g: SimpleGraph, s: int, q: State, x: int, y: int)
    requires Inv(g, s, q)
    requires q.done < |q.order| && q.scanned == Degree(g, q.order[q.done])
    ensures Scanned(g, q.(done := q.done + 1, scanned := 0), x, y) == Scanned(g, q, x, y)
  {
    hide Walks, Sum, Edges, Levels, Relaxed, Counts, Reached, Predecessors;
    var r, v := q.(done := q.done + 1, scanned := 0), q.order[q.done];
    assert q.order[..q.done + 1] == q.order[..q.done] + [v];
    assert v !in q.order[..q.done];
    assert Scanned(g, q, v, y) == Edges(g, v, y) by { AllScanned(g, v, q.scanned, y); }
    if r.done < |r.order| && x == r.order[r.done] {
      assert x !in q.order[..r.done];
      assert g.adj[x][..0] == [];
    }
  }

  lemma AllScanned(g: SimpleGraph, v: int, i: nat, y: int)
    requires 0 <= v < |g.adj| && i == |g.adj[v]|
    ensures multiset(g.adj[v][..i])[y] == Edges(g, v, y)
  {
    assert g.adj[v][..i] == g.adj[v];
  }

  lemma NextNodeInv(g: SimpleGraph, s: int, q: State)
    requires Inv(g, s, q)
    requires q.done < |q.order| && q.scanned == Degree(g, q.order[q.done])
    ensures Inv(g, s, q.(done := q.done + 1, scanned := 0))
  {
    hide Levels, Reached, Relaxed, Predecessors, Counts, Scanned;
    var r := q.(done := q.done + 1, scanned := 0);
    forall x, y ensures Scanned(g, r, x, y) == Scanned(g, q, x, y) {
      NextNodeScanned(g, s, q, x, y);
    }
    NextNodeLevels(g, s, q);
    SameTables(g, s, q, r);
  }

  lemma NextNodeLevels(g: SimpleGraph, s: int, q: State)
    requires Shape(g, s, q) && Levels(g, s, q) && q.done < |q.order|
    ensures Shape(g, s, q.(done := q.done + 1, scanned := 0)) && Levels(g, s, q.(done := q.done + 1, scanned := 0))
  {
  }

  lemma SameTables(g: SimpleGraph, s: int, q: State, r: State)
    requires Shape(g, s, q) && Shape(g, s, r)
    requires r.dist == q.dist && r.sigma == q.sigma && r.pred == q.pred
    requires forall x, y :: Scanned(g, r, x, y) == Scanned(g, q, x, y)
    ensures Reached(g, s, q) ==> Reached(g, s, r)
    ensures Relaxed(g, s, q) ==> Relaxed(g, s, r)
    ensures Predecessors(g, s, q) ==> Predecessors(g, s, r)
    ensures Counts(g, s, q) ==> Counts(g, s, r)
  {
    hide Walks, Sum, Scanned;
  }

  // ----- the end -----

  lemma DistinctBound(n: nat, a: seq<int>)
    requires Distinct(a) && forall i | 0 <= i < |a| :: 0 <= a[i] < n
    ensures |a| <= n
  {
    var used := set i | 0 <= i < |a| :: a[i];
    SetOfSeq(a, used);
    SubsetSize(used, Range(n));
  }

  lemma {:induction false} SetOfSeq(a: seq<int>, used: set<int>)
    requires Distinct(a) && used == set i | 0 <= i < |a| :: a[i]
    ensures |used| == |a|
  {
    if a != [] {
      var m := |a| - 1;
      var rest := set i | 0 <= i < m :: a[i];
      assert rest == set i | 0 <= i < m :: a[..m][i];
      SetOfSeq(a[..m], rest);
      assert used == rest + {a[m]};
    }
  }

  ghost function Range(n: nat): (r: set<int>)
    ensures |r| == n
    ensures forall x :: x in r <==> 0 <= x < n
  {
    if n == 0 then {} else Range(n - 1) + {n - 1}
  }

  ghost predicate Finished(g: SimpleGraph, s: int, q: State) {
    Inv(g, s, q) && q.done == |q.order|
  }

  /** Once every queued node is scanned, dist is at most the length of any walk. */
  lemma {:induction false} DistAtMostWalk(g: SimpleGraph, s: int, q: State, k: nat, v: int)
    requires Finished(g, s, q)
    requires 0 <= v < |g.adj| && Walks(g, k, s, v) > 0.0
    ensures 0 <= q.dist[v] <= k
  {
    hide Sum;
    if k > 0 {
      WalksByLastEdge(g, k - 1, s, v);
      var u := PositiveTerm(|g.adj|, LastStep(g, k - 1, s, v));
      WalksNonNegative(g, k - 1, s, u);
      PositiveFactors(Walks(g, k - 1, s, u), Edges(g, u, v) as real);
      DistAtMostWalk(g, s, q, k - 1, u);
      assert u in q.order[..q.done];
      assert Scanned(g, q, u, v) > 0;
    }
  }

  /** dist is the hop distance. */
  lemma DistIsDistance(g: SimpleGraph, s: int, q: State, v: int)
    requires Finished(g, s, q)
    requires 0 <= v < |g.adj|
    ensures q.dist[v] == Distance(g, s, v)
  {
    hide Walks, Sum;
    if q.dist[v] >= 0 {
      assert Walks(g, q.dist[v], s, v) > 0.0;
      DistAtMostWalk(g, s, q, Distance(g, s, v), v);
    } else if Distance(g, s, v) >= 0 {
      DistAtMostWalk(g, s, q, Distance(g, s, v), v);
    }
  }

  /** sigma is the number of shortest paths. */
  lemma {:induction false} SigmaIsSigma(g: SimpleGraph, s: int, q: State, w: int)
    requires Finished(g, s, q)
    requires 0 <= w < |g.adj|
    ensures q.sigma[w] as real == Sigma(g, s, w)
    decreases q.dist[w]
  {
    hide Sum, Edges, Levels, Reached, Relaxed, Predecessors, Distance;
    DistIsDistance(g, s, q, w);
    var f := Weighted(q.pred[w], Values(q.sigma));
    if q.dist[w] <= 0 {
      NoPredecessors(g, s, q, w);
      SumZero(|g.adj|, f);
      assert q.dist[w] == 0 <==> w == s by { AtSource(g, s, q, w); }
    } else {
      assert w != s by { AtSource(g, s, q, w); }
      var last := LastStep(g, q.dist[w] - 1, s, w);
      forall u | 0 <= u < |g.adj| ensures f(u) == last(u) {
        if q.dist[u] >= 0 && q.dist[w] == q.dist[u] + 1 {
          SigmaIsSigma(g, s, q, u);
        }
        PredecessorTerm(g, s, q, w, u);
      }
      SumExt(|g.adj|, f, last);
      WalksByLastEdge(g, q.dist[w] - 1, s, w);
    }
  }

  lemma AtSource(g: SimpleGraph, s: int, q: State, w: int)
    requires Inv(g, s, q) && 0 <= w < |g.adj|
    ensures q.dist[w] == 0 <==> w == s
  {
    hide Reached, Relaxed, Predecessors, Counts;
  }

  lemma NoPredecessors(g: SimpleGraph, s: int, q: State, w: int)
    requires Inv(g, s, q)
    requires 0 <= w < |g.adj| && q.dist[w] <= 0
    ensures forall u | 0 <= u < |g.adj| :: Weighted(q.pred[w], Values(q.sigma))(u) == 0.0
  {
    hide Walks, Sum;
    forall u | 0 <= u < |g.adj| ensures Weighted(q.pred[w], Values(q.sigma))(u) == 0.0 {
      PredecessorCount(g, s, q, u, w);
    }
  }

  lemma PredecessorCount(g: SimpleGraph, s: int, q: State, u: int, w: int)
    requires Inv(g, s, q)
    requires 0 <= u < |g.adj| && 0 <= w < |g.adj|
    ensures multiset(q.pred[w])[u] == if q.dist[u] >= 0 && q.dist[w] == q.dist[u] + 1 then Scanned(g, q, u, w) else 0
  {
    hide Levels, Reached, Relaxed, Counts, Scanned;
  }

  lemma EdgesOut(g: SimpleGraph, s: int, q: State, u: int, w: int)
    requires Finished(g, s, q)
    requires 0 <= u < |g.adj| && 0 <= w < |g.adj| && q.dist[u] >= 0
    ensures Scanned(g, q, u, w) == Edges(g, u, w)
    ensures Edges(g, u, w) > 0 ==> 0 <= q.dist[w] <= q.dist[u] + 1
  {
    hide Reached, Predecessors, Counts, Edges;
    assert u in q.order[..q.done];
  }

  lemma PredecessorTerm(g: SimpleGraph, s: int, q: State, w: int, u: int)
    requires Finished(g, s, q)
    requires 0 <= w < |g.adj| && 0 <= u < |g.adj| && q.dist[w] > 0
    requires q.dist[u] >= 0 && q.dist[w] == q.dist[u] + 1 ==> q.sigma[u] as real == Sigma(g, s, u)
    ensures Weighted(q.pred[w], Values(q.sigma))(u) == LastStep(g, q.dist[w] - 1, s, w)(u)
  {
    hide Walks, Sum, Edges, Levels, Reached, Relaxed, Predecessors, Counts, Scanned, Distance;
    DistIsDistance(g, s, q, u);
    DistIsDistance(g, s, q, w);
    PredecessorCount(g, s, q, u, w);
    if q.dist[u] >= 0 && q.dist[w] == q.dist[u] + 1 {
      EdgesOut(g, s, q, u, w);
    } else {
      NoSuchPath(g, s, q, w, u);
    }
  }

  lemma NoSuchPath(g: SimpleGraph, s: int, q: State, w: int, u: int)
    requires Finished(g, s, q)
    requires 0 <= w < |g.adj| && 0 <= u < |g.adj| && q.dist[w] > 0
    requires !(q.dist[u] >= 0 && q.dist[w] == q.dist[u] + 1)
    ensures LastStep(g, q.dist[w] - 1, s, w)(u) == 0.0
  {
    hide Walks, Sum, Levels, Reached, Relaxed, Predecessors, Counts, Scanned;
    var k := q.dist[w] - 1;
    WalksNonNegative(g, k, s, u);
    if Edges(g, u, w) > 0 && Walks(g, k, s, u) > 0.0 {
      DistAtMostWalk(g, s, q, k, u);
      EdgesOut(g, s, q, u, w);
    }
  }
}
