/** The dependency of a source on a node, defined by counting paths one by one, and Brandes' recurrence for it. */
module Brandes {
  import opened Sums
  import opened Paths

  /** The fraction of the shortest paths from s to t that pass through v. */
  ghost function Share(g: SimpleGraph, s: int, t: int, v: int): real {
    if Reachable(g, s, t) && |ShortestPaths(g, s, t)| != 0
    then |ShortestPathsThrough(g, s, t, v)| as real / |ShortestPaths(g, s, t)| as real
    else 0.0
  }

  ghost function Shares(g: SimpleGraph, s: int, v: int): int -> real {
    t => if t != s && t != v then Share(g, s, t, v) else 0.0
  }

  /** What the source s contributes to the betweenness of v: its shares summed over all other targets. */
  ghost function Dependency(g: SimpleGraph, s: int, v: int): real {
    Sum(|g.adj|, Shares(g, s, v))
  }

  // ----- counting the shortest paths through a node -----

  ghost function PathsThrough(g: SimpleGraph, k: nat, u: int, t: int, w: int): set<seq<int>> {
    set p | p in PathSet(g, k, u, t) && Visits(g, u, p, w)
  }

  ghost function ThroughAfter(g: SimpleGraph, k: nat, u: int, t: int, w: int): int -> set<seq<int>> {
    j => PathsThrough(g, k, Neighbor(g, u, j), t, w)
  }

  lemma PathsThroughStep(g: SimpleGraph, k: nat, u: int, t: int, w: int)
    requires u != w
    ensures PathsThrough(g, k + 1, u, t, w) == Extend(Degree(g, u), ThroughAfter(g, k, u, t, w))
  {
    var step := Extend(Degree(g, u), ThroughAfter(g, k, u, t, w));
    forall p ensures p in PathsThrough(g, k + 1, u, t, w) <==> p in step {
      if p != [] {
        PathSetIsAllPaths(g, k + 1, u, t, p);
        PathSetIsAllPaths(g, k, Neighbor(g, u, p[0]), t, p[1..]);
        assert p == [p[0]] + p[1..];
      } else {
        PathSetIsAllPaths(g, k + 1, u, t, p);
      }
    }
  }

  /** The paths from u to t through w, once lengths are fixed by the distances from s: those from u to w times
      those from w to t. */
  ghost function Split(g: SimpleGraph, s: int, u: int, t: int, w: int): real {
    if 0 <= Distance(g, s, u) <= Distance(g, s, w) <= Distance(g, s, t)
    then Walks(g, Distance(g, s, w) - Distance(g, s, u), u, w) * Walks(g, Distance(g, s, t) - Distance(g, s, w), w, t)
    else 0.0
  }

  /** The part of Split that is left after an edge from u to x. */
  ghost function SplitAfter(g: SimpleGraph, s: int, u: int, t: int, w: int): int -> real {
    x => if 0 <= Distance(g, s, u) < Distance(g, s, w) <= Distance(g, s, t)
         then Walks(g, Distance(g, s, w) - Distance(g, s, u) - 1, x, w)
              * Walks(g, Distance(g, s, t) - Distance(g, s, w), w, t)
         else 0.0
  }

  ghost function SplitByEdge(g: SimpleGraph, s: int, u: int, t: int, w: int): int -> real {
    x => Edges(g, u, x) as real * SplitAfter(g, s, u, t, w)(x)
  }

  lemma SplitStep(g: SimpleGraph, s: int, u: int, t: int, w: int)
    requires u != w
    requires Distance(g, s, u) >= 0
    ensures Sum(|g.adj|, SplitByEdge(g, s, u, t, w)) == Split(g, s, u, t, w)
  {
    hide Sum, Edges;
    var du, dw, dt := Distance(g, s, u), Distance(g, s, w), Distance(g, s, t);
    var h := SplitByEdge(g, s, u, t, w);
    if du < dw <= dt {
      SplitStepSum(g, u, w, dw - du - 1, Walks(g, dt - dw, w, t), SplitAfter(g, s, u, t, w), h);
      WalksStep(g, dw - du - 1, u, w);
    } else {
      SplitStepSum(g, u, w, 0, 0.0, SplitAfter(g, s, u, t, w), h);
      assert du == dw ==> Walks(g, 0, u, w) == 0.0;
    }
  }

  lemma SplitStepSum(g: SimpleGraph, u: int, w: int, k: nat, c: real, after: int -> real, h: int -> real)
    requires forall x :: after(x) == Walks(g, k, x, w) * c
    requires forall x :: h(x) == Edges(g, u, x) as real * after(x)
    ensures Sum(|g.adj|, h) == c * Sum(|g.adj|, FirstStep(g, k, u, w))
  {
    hide Sum, Walks, Edges;
    var first := FirstStep(g, k, u, w);
    forall x ensures h(x) == c * first(x) {
      Regroup(Edges(g, u, x) as real, Walks(g, k, x, w), c);
    }
    SumScale(|g.adj|, c, first, h);
  }

  lemma Regroup(a: real, b: real, c: real)
    ensures a * (b * c) == c * (a * b)
  {
  }

  /** A walk too short for the distances from s does not exist. */
  lemma TooShort(g: SimpleGraph, s: int, x: int, k: nat, t: int)
    requires Distance(g, s, x) >= 0 && Distance(g, s, x) + k < Distance(g, s, t)
    ensures Walks(g, k, x, t) == 0.0
  {
    WalksNonNegative(g, k, x, t);
    if Walks(g, k, x, t) > 0.0 {
      DistanceAfterWalk(g, s, x, k, t);
    }
  }

  /** The number of paths from u to t that are as short as the distances from s allow and pass through w. */
  lemma {:induction false} ThroughCount(g: SimpleGraph, s: int, k: nat, u: int, t: int, w: int)
    requires WellFormed(g)
    requires Distance(g, s, u) >= 0 && Distance(g, s, t) == Distance(g, s, u) + k
    ensures |PathsThrough(g, k, u, t, w)| as real == Split(g, s, u, t, w)
  {
    if u == w {
      assert PathsThrough(g, k, u, t, w) == PathSet(g, k, u, t);
      WalksCountsPaths(g, k, u, t);
    } else if k == 0 {
      assert PathsThrough(g, 0, u, t, w) == {};
      if Distance(g, s, w) == Distance(g, s, u) {
        assert Walks(g, 0, u, w) == 0.0;
      }
    } else {
      var tails, rest := ThroughAfter(g, k - 1, u, t, w), SplitAfter(g, s, u, t, w);
      forall j | 0 <= j < Degree(g, u) ensures |tails(j)| as real == rest(Neighbor(g, u, j)) {
        ThroughEdge(g, s, k - 1, u, t, w, j);
        if Distance(g, s, Neighbor(g, u, j)) == Distance(g, s, u) + 1 {
          ThroughCount(g, s, k - 1, Neighbor(g, u, j), t, w);
        }
      }
      PathsThroughStep(g, k - 1, u, t, w);
      SplitSum(g, s, u, t, w, tails);
    }
  }

  lemma SplitSum(g: SimpleGraph, s: int, u: int, t: int, w: int, tails: int -> set<seq<int>>)
    requires WellFormed(g)
    requires u != w && Distance(g, s, u) >= 0
    requires forall j | 0 <= j < Degree(g, u) :: |tails(j)| as real == SplitAfter(g, s, u, t, w)(Neighbor(g, u, j))
    ensures |Extend(Degree(g, u), tails)| as real == Split(g, s, u, t, w)
  {
    ExtendSize(Degree(g, u), tails);
    SumOverEdges(g, u, Sizes(tails), SplitAfter(g, s, u, t, w), SplitByEdge(g, s, u, t, w));
    SplitStep(g, s, u, t, w);
  }

  /** An edge from u either goes one level away from s, or is on no path that is short enough. */
  lemma ThroughEdge(g: SimpleGraph, s: int, k: nat, u: int, t: int, w: int, j: int)
    requires WellFormed(g)
    requires 0 <= j < Degree(g, u)
    requires Distance(g, s, u) >= 0 && Distance(g, s, t) == Distance(g, s, u) + 1 + k
    ensures 0 <= Distance(g, s, Neighbor(g, u, j)) <= Distance(g, s, u) + 1
    ensures Distance(g, s, Neighbor(g, u, j)) == Distance(g, s, u) + 1
            ==> SplitAfter(g, s, u, t, w)(Neighbor(g, u, j)) == Split(g, s, Neighbor(g, u, j), t, w)
    ensures Distance(g, s, Neighbor(g, u, j)) < Distance(g, s, u) + 1
            ==> PathsThrough(g, k, Neighbor(g, u, j), t, w) == {} && SplitAfter(g, s, u, t, w)(Neighbor(g, u, j)) == 0.0
  {
    hide Walks, Sum, PathSet;
    var x := Neighbor(g, u, j);
    assert g.adj[u][j] == x;
    DistanceAfterEdge(g, s, u, x);
    if Distance(g, s, x) < Distance(g, s, u) + 1 {
      TooShort(g, s, x, k, t);
      WalksCountsPaths(g, k, x, t);
      assert |PathSet(g, k, x, t)| == 0;
      assert PathsThrough(g, k, x, t, w) == {};
      if Distance(g, s, u) < Distance(g, s, w) <= Distance(g, s, t) {
        TooShort(g, s, x, Distance(g, s, w) - Distance(g, s, u) - 1, w);
        var c := Walks(g, Distance(g, s, t) - Distance(g, s, w), w, t);
        assert SplitAfter(g, s, u, t, w)(x) == 0.0 * c;
      }
    }
  }

  // ----- pair dependencies -----

  lemma SigmaPositive(g: SimpleGraph, s: int, t: int)
    requires Distance(g, s, t) >= 0
    ensures Sigma(g, s, t) > 0.0
  {
  }

  /** The share of t's shortest paths that run through v, from path counts alone. */
  ghost function PairDependency(g: SimpleGraph, s: int, v: int, t: int): real {
    if 0 <= Distance(g, s, v) <= Distance(g, s, t)
    then Sigma(g, s, v) * Walks(g, Distance(g, s, t) - Distance(g, s, v), v, t) / Sigma(g, s, t)
    else 0.0
  }

  /** The ratio of path set sizes is the product formula. */
  lemma ShareIsPairDependency(g: SimpleGraph, s: int, v: int, t: int)
    requires WellFormed(g)
    ensures Share(g, s, t, v) == PairDependency(g, s, v, t)
  {
    DistanceToSelf(g, s, s);
    if Reachable(g, s, t) {
      var d := Distance(g, s, t);
      WalksCountsPaths(g, d, s, t);
      ThroughCount(g, s, d, s, t, v);
      assert ShortestPathsThrough(g, s, t, v) == PathsThrough(g, d, s, t, v);
    }
  }

  ghost function OtherTargets(g: SimpleGraph, s: int, v: int): int -> real {
    t => if t != v then PairDependency(g, s, v, t) else 0.0
  }

  ghost function Total(g: SimpleGraph, s: int, v: int): real {
    Sum(|g.adj|, OtherTargets(g, s, v))
  }

  lemma DependencyIsTotal(g: SimpleGraph, s: int, v: int)
    requires WellFormed(g)
    requires v != s
    ensures Dependency(g, s, v) == Total(g, s, v)
  {
    var shares, others := Shares(g, s, v), OtherTargets(g, s, v);
    forall t | 0 <= t < |g.adj| ensures shares(t) == others(t) {
      ShareIsPairDependency(g, s, v, t);
      DistanceToSelf(g, s, v);
    }
    SumExt(|g.adj|, shares, others);
  }

  lemma TotalUnreachable(g: SimpleGraph, s: int, v: int)
    requires Distance(g, s, v) < 0
    ensures Total(g, s, v) == 0.0
  {
    SumZero(|g.adj|, OtherTargets(g, s, v));
  }

  // ----- Brandes' recurrence -----

  /** How much of w's accumulated dependency is passed back along the edges from v to w. */
  ghost function Coefficient(g: SimpleGraph, s: int, v: int, w: int): real {
    if Distance(g, s, v) >= 0 && Distance(g, s, w) == Distance(g, s, v) + 1
    then Edges(g, v, w) as real * (Sigma(g, s, v) / Sigma(g, s, w))
    else 0.0
  }

  ghost function BackTerms(g: SimpleGraph, s: int, v: int): int -> real {
    w => Coefficient(g, s, v, w) * (1.0 + Total(g, s, w))
  }

  ghost function PassedBack(g: SimpleGraph, s: int, v: int): (int, int) -> real {
    (t, w) => if t != v then Coefficient(g, s, v, w) * PairDependency(g, s, w, t) else 0.0
  }

  lemma Cancel(e: real, sv: real, sw: real, k: real, st: real)
    requires sw > 0.0 && st > 0.0
    ensures (e * (sv / sw)) * (sw * k / st) == (sv / st) * (e * k)
  {
    calc {
      (e * (sv / sw)) * (sw * k / st);
      (e * ((sv / sw) * sw)) * (k / st);
      (e * sv) * (k / st);
      (sv / st) * (e * k);
    }
  }

  /** One pair dependency, by the first edge out of v. */
  lemma PairStep(g: SimpleGraph, s: int, v: int, t: int)
    requires WellFormed(g)
    requires Distance(g, s, v) >= 0 && t != v
    ensures PairDependency(g, s, v, t) == Sum(|g.adj|, Row(PassedBack(g, s, v), t))
  {
    hide Sum, Edges;
    var row := Row(PassedBack(g, s, v), t);
    var dv, dt := Distance(g, s, v), Distance(g, s, t);
    if dv < dt {
      PairStepRow(g, s, v, t);
      WalksStep(g, dt - dv - 1, v, t);
      Quotient(Sigma(g, s, v), Walks(g, dt - dv, v, t), Sigma(g, s, t));
    } else {
      assert dt == dv ==> Walks(g, 0, v, t) == 0.0;
      SumZero(|g.adj|, row);
    }
  }

  lemma Quotient(a: real, b: real, c: real)
    requires c > 0.0
    ensures a * b / c == a / c * b
  {
  }

  lemma PairStepRow(g: SimpleGraph, s: int, v: int, t: int)
    requires WellFormed(g)
    requires 0 <= Distance(g, s, v) < Distance(g, s, t)
    ensures Sum(|g.adj|, Row(PassedBack(g, s, v), t))
            == Sigma(g, s, v) / Sigma(g, s, t)
               * Sum(|g.adj|, FirstStep(g, Distance(g, s, t) - Distance(g, s, v) - 1, v, t))
  {
    hide Sum, Walks, Edges, Sigma, Coefficient, PairDependency;
    var row := Row(PassedBack(g, s, v), t);
    var first := FirstStep(g, Distance(g, s, t) - Distance(g, s, v) - 1, v, t);
    SigmaPositive(g, s, t);
    var c := Sigma(g, s, v) / Sigma(g, s, t);
    forall w | 0 <= w < |g.adj| ensures row(w) == c * first(w) {
      PairStepEdge(g, s, v, t, w);
    }
    SumScale(|g.adj|, c, first, row);
  }

  lemma PairStepEdge(g: SimpleGraph, s: int, v: int, t: int, w: int)
    requires WellFormed(g)
    requires 0 <= Distance(g, s, v) < Distance(g, s, t)
    requires 0 <= w < |g.adj|
    ensures Row(PassedBack(g, s, v), t)(w)
            == Sigma(g, s, v) / Sigma(g, s, t)
               * FirstStep(g, Distance(g, s, t) - Distance(g, s, v) - 1, v, t)(w)
  {
    var dv, dw, dt := Distance(g, s, v), Distance(g, s, w), Distance(g, s, t);
    var e := Edges(g, v, w) as real;
    if dw == dv + 1 {
      Cancel(e, Sigma(g, s, v), Sigma(g, s, w), Walks(g, dt - dw, w, t), Sigma(g, s, t));
    } else if e > 0.0 {
      DistanceAfterEdge(g, s, v, w);
      TooShort(g, s, w, dt - dv - 1, t);
    }
  }

  lemma AllTargets(g: SimpleGraph, s: int, v: int, w: int)
    requires 0 <= w < |g.adj|
    requires 0 <= Distance(g, s, v) < Distance(g, s, w)
    ensures Sum(|g.adj|, Column(PassedBack(g, s, v), w)) == Coefficient(g, s, v, w) * (1.0 + Total(g, s, w))
  {
    hide Sum, Walks, Edges, Sigma, Coefficient;
    var n, c, column := |g.adj|, Coefficient(g, s, v, w), Column(PassedBack(g, s, v), w);
    var all := t => PairDependency(g, s, w, t);
    assert PairDependency(g, s, w, v) == 0.0;
    SumScale(n, c, all, column);
    OwnTarget(g, s, w);
    SumPoint(n, w, OtherTargets(g, s, w), all);
  }

  lemma OwnTarget(g: SimpleGraph, s: int, w: int)
    requires Distance(g, s, w) >= 0
    ensures PairDependency(g, s, w, w) == 1.0
  {
    SigmaPositive(g, s, w);
    assert Walks(g, 0, w, w) == 1.0;
    assert Sigma(g, s, w) * 1.0 / Sigma(g, s, w) == 1.0;
  }

  /** Brandes' recurrence: the dependency on v is collected from the nodes one level further from s. */
  lemma Recurrence(g: SimpleGraph, s: int, v: int)
    requires WellFormed(g)
    requires Distance(g, s, v) >= 0
    ensures Total(g, s, v) == Sum(|g.adj|, BackTerms(g, s, v))
  {
    var back := PassedBack(g, s, v);
    forall t | 0 <= t < |g.adj| ensures OtherTargets(g, s, v)(t) == RowSums(|g.adj|, back)(t) {
      if t == v {
        SumZero(|g.adj|, Row(back, t));
      } else {
        PairStep(g, s, v, t);
      }
    }
    SumExt(|g.adj|, OtherTargets(g, s, v), RowSums(|g.adj|, back));
    SumSwap(|g.adj|, |g.adj|, back);
    forall w | 0 <= w < |g.adj| ensures BackTerms(g, s, v)(w) == ColumnSums(|g.adj|, back)(w) {
      BackTermIsColumn(g, s, v, w);
    }
    SumExt(|g.adj|, BackTerms(g, s, v), ColumnSums(|g.adj|, back));
  }

  lemma BackTermIsColumn(g: SimpleGraph, s: int, v: int, w: int)
    requires 0 <= w < |g.adj| && Distance(g, s, v) >= 0
    ensures BackTerms(g, s, v)(w) == ColumnSums(|g.adj|, PassedBack(g, s, v))(w)
  {
    if Distance(g, s, w) > Distance(g, s, v) {
      AllTargets(g, s, v, w);
    } else {
      var column := Column(PassedBack(g, s, v), w);
      forall t ensures column(t) == 0.0 {
        assert Coefficient(g, s, v, w) == 0.0;
      }
      SumZero(|g.adj|, column);
    }
  }
}
