/** In an undirected graph the dependencies of all sources count every unordered pair twice. */
module Undirected {
  import opened Sums
  import opened Paths
  import opened Brandes

  lemma DistanceSymmetric(g: SimpleGraph, s: int, t: int)
    requires Symmetric(g)
    requires 0 <= s < |g.adj| && 0 <= t < |g.adj|
    ensures Distance(g, s, t) == Distance(g, t, s)
    ensures Sigma(g, s, t) == Sigma(g, t, s)
  {
    hide Walks;
    if Distance(g, s, t) >= 0 {
      WalksReverse(g, Distance(g, s, t), s, t);
    }
    if Distance(g, t, s) >= 0 {
      WalksReverse(g, Distance(g, t, s), t, s);
    }
  }

  /** w lies on a shortest path from s to t exactly when the distances add up, and then the paths to it and from it
      combine freely. */
  lemma PairDependencyProduct(g: SimpleGraph, s: int, w: int, t: int)
    ensures PairDependency(g, s, w, t) ==
            if Distance(g, s, w) >= 0 && Distance(g, w, t) >= 0
               && Distance(g, s, w) + Distance(g, w, t) == Distance(g, s, t)
            then Sigma(g, s, w) * Sigma(g, w, t) / Sigma(g, s, t)
            else 0.0
  {
    hide Walks;
    if 0 <= Distance(g, s, w) <= Distance(g, s, t) {
      var k := Distance(g, s, t) - Distance(g, s, w);
      WalksNonNegative(g, k, w, t);
      if Walks(g, k, w, t) > 0.0 {
        DistanceAfterWalk(g, s, w, Distance(g, w, t), t);
      } else {
        SigmaPositive(g, s, t);
        assert Sigma(g, s, w) * 0.0 / Sigma(g, s, t) == 0.0;
      }
    }
  }

  /** Reversing every path shows that t depends on w for s as s does for t. */
  lemma ShareSymmetric(g: SimpleGraph, s: int, t: int, w: int)
    requires WellFormed(g) && Symmetric(g)
    requires 0 <= s < |g.adj| && 0 <= t < |g.adj| && 0 <= w < |g.adj|
    ensures Share(g, s, t, w) == Share(g, t, s, w)
  {
    hide Sigma, Share, PairDependency;
    ShareIsPairDependency(g, s, w, t);
    ShareIsPairDependency(g, t, w, s);
    PairDependencyProduct(g, s, w, t);
    PairDependencyProduct(g, t, w, s);
    DistanceSymmetric(g, s, t);
    DistanceSymmetric(g, s, w);
    DistanceSymmetric(g, w, t);
    assert Sigma(g, s, w) * Sigma(g, w, t) == Sigma(g, t, w) * Sigma(g, w, s);
  }

  /** The entry for source s and target t in the betweenness of w. */
  ghost function PairShares(g: SimpleGraph, w: int): (int, int) -> real {
    (s, t) => if s != w && t != w && s != t then Share(g, s, t, w) else 0.0
  }

  /** Betweenness as it is defined: the shares of w summed over the unordered pairs of other nodes. */
  ghost function BetweennessOf(g: SimpleGraph, w: int): real {
    Sum(|g.adj|, Below(PairShares(g, w)))
  }

  /** What one source adds to node w. */
  ghost function Gain(g: SimpleGraph, w: int): int -> real {
    s => if s == w then 0.0 else Dependency(g, s, w)
  }

  /** All sources together count every pair from both ends. */
  lemma GainsCountPairsTwice(g: SimpleGraph, w: int)
    requires WellFormed(g) && Symmetric(g) && 0 <= w < |g.adj|
    ensures Sum(|g.adj|, Gain(g, w)) == 2.0 * BetweennessOf(g, w)
  {
    hide Sum, Share;
    var pairs, gain := PairShares(g, w), Gain(g, w);
    var rows := RowSums(|g.adj|, pairs);
    forall s | 0 <= s < |g.adj| ensures gain(s) == rows(s) {
      if s == w {
        SumZero(|g.adj|, Row(pairs, s));
      } else {
        SumExt(|g.adj|, Shares(g, s, w), Row(pairs, s));
      }
    }
    SumExt(|g.adj|, gain, rows);
    forall s, t | 0 <= s < |g.adj| && 0 <= t < |g.adj| ensures pairs(s, t) == pairs(t, s) {
      ShareSymmetric(g, s, t, w);
    }
    SymmetricSum(|g.adj|, pairs);
  }

  lemma GainNonNegative(g: SimpleGraph, w: int, s: int)
    ensures Gain(g, w)(s) >= 0.0
  {
    hide Sum;
    SumNonNegative(|g.adj|, Shares(g, s, w));
  }
}
