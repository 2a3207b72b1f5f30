/** Brandes' algorithm as the program runs it: an explicit queue and stack, and tables updated in place. */
module Betweenness {
  import opened Sums
  import opened Paths
  import opened Brandes
  import opened Search

  class Stack {
    var stack: seq<int>

    constructor ()
      ensures stack == []
    {
      stack := [];
    }

    method Push(v: int)
      modifies this
      ensures stack == old(stack) + [v]
    {
      stack := stack + [v];
    }

    function Top(): int
      requires stack != []
      reads this
    {
      stack[|stack| - 1]
    }

    method Pop()
      requires stack != []
      modifies this
      ensures stack == old(stack)[..|old(stack)| - 1]
    {
      stack := stack[..|stack| - 1];
    }

    predicate Empty()
      reads this
    {
      |stack| == 0
    }
  }

  class Queue {
    var queue: seq<int>

    constructor ()
      ensures queue == []
    {
      queue := [];
    }

    method Push(v: int)
      modifies this
      ensures queue == old(queue) + [v]
    {
      queue := queue + [v];
    }

    function Front(): int
      requires queue != []
      reads this
    {
      queue[0]
    }

    method Pop()
      requires queue != []
      modifies this
      ensures queue == old(queue)[1..]
    {
      queue := queue[1..];
    }

    predicate Empty()
      reads this
    {
      |queue| == 0
    }
  }

  /** What the first phase leaves: exact distances, path counts and predecessor edges, and the reachable nodes in an
      order in which the distance never drops. */
  ghost predicate Explored(g: SimpleGraph, s: int, order: seq<int>, dist: seq<int>, sigma: seq<nat>, pred: seq<seq<int>>) {
    && |dist| == |sigma| == |pred| == |g.adj|
    && (forall v | 0 <= v < |g.adj| :: dist[v] == Distance(g, s, v))
    && (forall v | 0 <= v < |g.adj| :: sigma[v] == |ShortestPaths(g, s, v)|)
    && (forall u, w | 0 <= u < |g.adj| && 0 <= w < |g.adj| ::
          multiset(pred[w])[u] == if dist[u] >= 0 && dist[w] == dist[u] + 1 then Edges(g, u, w) else 0)
    && (forall w, i | 0 <= w < |g.adj| && 0 <= i < |pred[w]| :: 0 <= pred[w][i] < |g.adj|)
    && Distinct(order)
    && (forall i | 0 <= i < |order| :: 0 <= order[i] < |g.adj|)
    && (forall v | 0 <= v < |g.adj| :: v in order <==> Reachable(g, s, v))
    && (forall i, j | 0 <= i < j < |order| :: dist[order[i]] <= dist[order[j]])
  }

  lemma FinishedExplored(g: SimpleGraph, s: int, q: State)
    requires Finished(g, s, q)
    ensures Explored(g, s, q.order, q.dist, q.sigma, q.pred)
  {
    hide Walks, Sum, Edges, Counts, Reached, Relaxed, Scanned;
    forall v | 0 <= v < |g.adj| ensures q.dist[v] == Distance(g, s, v) && q.sigma[v] == |ShortestPaths(g, s, v)| {
      DistIsDistance(g, s, q, v);
      SigmaIsSigma(g, s, q, v);
      SigmaIsSize(g, s, v);
    }
    forall u, w | 0 <= u < |g.adj| && 0 <= w < |g.adj|
      ensures multiset(q.pred[w])[u] ==
              if q.dist[u] >= 0 && q.dist[w] == q.dist[u] + 1 then Edges(g, u, w) else 0
    {
      AllPredecessors(g, s, q, u, w);
    }
  }

  lemma AllPredecessors(g: SimpleGraph, s: int, q: State, u: int, w: int)
    requires Finished(g, s, q)
    requires 0 <= u < |g.adj| && 0 <= w < |g.adj|
    ensures multiset(q.pred[w])[u] ==
            if q.dist[u] >= 0 && q.dist[w] == q.dist[u] + 1 then Edges(g, u, w) else 0
  {
    hide Walks, Sum, Edges, Counts, Reached, Relaxed;
    assert q.dist[u] >= 0 ==> u in q.order[..q.done];
    assert multiset(q.pred[w])[u] ==
           if q.dist[u] >= 0 && q.dist[w] == q.dist[u] + 1 then Scanned(g, q, u, w) else 0;
  }

  lemma SigmaIsSize(g: SimpleGraph, s: int, v: int)
    requires WellFormed(g)
    ensures Sigma(g, s, v) == |ShortestPaths(g, s, v)| as real
  {
    if Reachable(g, s, v) {
      WalksCountsPaths(g, Distance(g, s, v), s, v);
    }
  }

  method ScanNode(g: SimpleGraph, ghost s: int, v: int, pred: array<seq<int>>, sigma: array<nat>, dist: array<int>,
                  ghost done: seq<int>, q: Queue)
    requires pred.Length == sigma.Length == dist.Length == |g.adj|
    requires |done| < |g.adj|
    requires dist as object != sigma
    requires Inv(g, s, State(done + [v] + q.queue, |done|, 0, dist[..], sigma[..], pred[..]))
    modifies pred, sigma, dist, q
    ensures Inv(g, s, State(done + [v] + q.queue, |done| + 1, 0, dist[..], sigma[..], pred[..]))
  {
    hide Inv;
    NodeInRange(g, s, v, State(done + [v] + q.queue, |done|, 0, dist[..], sigma[..], pred[..]));
    for i := 0 to |g.adj[v]|
      invariant Inv(g, s, State(done + [v] + q.queue, |done|, i, dist[..], sigma[..], pred[..]))
    {
      ScanEdgeOf(g, s, v, i, pred, sigma, dist, done, q);
    }
    NextNodeInv(g, s, State(done + [v] + q.queue, |done|, |g.adj[v]|, dist[..], sigma[..], pred[..]));
  }

  lemma NodeInRange(g: SimpleGraph, s: int, v: int, q: Search.State)
    requires Inv(g, s, q) && q.done < |q.order| && q.order[q.done] == v
    ensures 0 <= v < |g.adj| && Degree(g, v) == |g.adj[v]|
    ensures forall i | 0 <= i < |g.adj[v]| :: 0 <= g.adj[v][i] < |g.adj|
  {
    hide Levels, Reached, Relaxed, Predecessors, Counts;
  }

  /** The body of the inner loop, for the edge at position i of node v. */
  method ScanEdgeOf(g: SimpleGraph, ghost s: int, v: int, i: nat, pred: array<seq<int>>, sigma: array<nat>,
                    dist: array<int>, ghost done: seq<int>, q: Queue)
    requires pred.Length == sigma.Length == dist.Length == |g.adj|
    requires dist as object != sigma
    requires Inv(g, s, State(done + [v] + q.queue, |done|, i, dist[..], sigma[..], pred[..]))
    requires 0 <= v < |g.adj| && i < |g.adj[v]|
    modifies pred, sigma, dist, q
    ensures Inv(g, s, State(done + [v] + q.queue, |done|, i + 1, dist[..], sigma[..], pred[..]))
  {
    hide Levels, Reached, Relaxed, Predecessors, Counts;
    var w := g.adj[v][i];
    ghost var before := State(done + [v] + q.queue, |done|, i, dist[..], sigma[..], pred[..]);
    NodeInRange(g, s, v, before);
    if dist[w] < 0 {
      DiscoverInv(g, s, before, v, w);
      dist[w] := dist[v] + 1;
      q.Push(w);
      assert State(done + [v] + q.queue, |done|, i, dist[..], sigma[..], pred[..]).order == before.order + [w];
    }
    ghost var seen := State(done + [v] + q.queue, |done|, i, dist[..], sigma[..], pred[..]);
    ScanEdgeInv(g, s, seen, v, w);
    if dist[w] == dist[v] + 1 {
      sigma[w] := sigma[w] + sigma[v];
      pred[w] := pred[w] + [v];
    }
  }

  /** The search: distances, path counts and predecessors of every node, and the nodes reached, in order. */
  method ShortestPathCounts(g: SimpleGraph, s: int)
    returns (pred: array<seq<int>>, sigma: array<nat>, dist: array<int>, st: Stack)
    requires WellFormed(g) && 0 <= s < |g.adj|
    ensures fresh(pred) && fresh(sigma) && fresh(dist) && fresh(st)
    ensures Explored(g, s, st.stack, dist[..], sigma[..], pred[..])
  {
    hide Levels, Reached, Relaxed, Predecessors, Counts, Explored;
    pred := new seq<int>[|g.nodes|](_ => []);
    sigma := new nat[|g.nodes|](_ => 0);
    sigma[s] := 1;
    dist := new int[|g.nodes|](_ => -1);
    dist[s] := 0;
    st := new Stack();
    var q := new Queue();
    q.Push(s);
    InitialInv(g, s);
    assert State(st.stack + q.queue, 0, 0, dist[..], sigma[..], pred[..]) == Initial(g, s);
    while !q.Empty()
      invariant fresh(pred) && fresh(sigma) && fresh(dist) && fresh(st) && fresh(q)
      invariant pred.Length == sigma.Length == dist.Length == |g.adj|
      invariant Inv(g, s, State(st.stack + q.queue, |st.stack|, 0, dist[..], sigma[..], pred[..]))
      decreases |g.adj| - |st.stack|
    {
      DistinctBound(|g.adj|, st.stack + q.queue);
      var v := q.Front();
      ghost var done := st.stack;
      assert done + q.queue == done + [v] + q.queue[1..];
      q.Pop();
      st.Push(v);
      ScanNode(g, s, v, pred, sigma, dist, done, q);
    }
    assert st.stack + q.queue == st.stack;
    FinishedExplored(g, s, State(st.stack, |st.stack|, 0, dist[..], sigma[..], pred[..]));
  }

  // ----- the second phase -----

  ghost function PoppedTerms(g: SimpleGraph, s: int, popped: seq<int>, v: int): int -> real {
    w => if w in popped then BackTerms(g, s, v)(w) else 0.0
  }

  /** What v has been passed back by the nodes already taken off the stack. */
  ghost function Collected(g: SimpleGraph, s: int, popped: seq<int>, v: int): real {
    Sum(|g.adj|, PoppedTerms(g, s, popped, v))
  }

  ghost predicate ExploredOrder(g: SimpleGraph, s: int, order: seq<int>) {
    && WellFormed(g)
    && Distinct(order)
    && (forall i | 0 <= i < |order| :: 0 <= order[i] < |g.adj|)
    && (forall v | 0 <= v < |g.adj| :: v in order <==> Distance(g, s, v) >= 0)
    && (forall i, j | 0 <= i < j < |order| :: Distance(g, s, order[i]) <= Distance(g, s, order[j]))
  }

  /** When w comes off the stack, everything one level further from the source is off it already. */
  lemma AllCollected(g: SimpleGraph, s: int, order: seq<int>, k: nat)
    requires ExploredOrder(g, s, order)
    requires 0 < k <= |order|
    ensures Collected(g, s, order[k..], order[k - 1]) == Total(g, s, order[k - 1])
  {
    hide Sum, Total;
    var v := order[k - 1];
    Recurrence(g, s, v);
    var popped, all := PoppedTerms(g, s, order[k..], v), BackTerms(g, s, v);
    forall w | 0 <= w < |g.adj| ensures popped(w) == all(w) {
      if w !in order[k..] {
        NotDeeper(g, s, order, k, w);
        assert Coefficient(g, s, v, w) == 0.0;
      }
    }
    SumExt(|g.adj|, popped, all);
  }

  lemma NotDeeper(g: SimpleGraph, s: int, order: seq<int>, k: nat, w: int)
    requires ExploredOrder(g, s, order)
    requires 0 < k <= |order| && 0 <= w < |g.adj| && w !in order[k..]
    ensures Distance(g, s, w) <= Distance(g, s, order[k - 1])
  {
    if w in order {
      var i :| 0 <= i < |order| && order[i] == w;
      assert forall j | k <= j < |order| :: order[k..][j - k] == order[j];
    } else {
      assert order[k - 1] in order;
    }
  }

  lemma CollectOne(g: SimpleGraph, s: int, popped: seq<int>, w: int, v: int)
    requires 0 <= w < |g.adj| && w !in popped
    ensures Collected(g, s, [w] + popped, v)
            == Collected(g, s, popped, v) + Coefficient(g, s, v, w) * (1.0 + Total(g, s, w))
  {
    hide Sum, Total, Coefficient;
    var before, after, back := PoppedTerms(g, s, popped, v), PoppedTerms(g, s, [w] + popped, v), BackTerms(g, s, v);
    assert before(w) == 0.0;
    assert after(w) == back(w) by { assert ([w] + popped)[0] == w; }
    SumPoint(|g.adj|, w, before, after);
  }

  /** One node hands its dependency back along its predecessor edges. */
  method PassBack(w: int, predecessors: seq<int>, sigma: array<nat>, delta: array<real>)
    requires sigma.Length == delta.Length && 0 <= w < delta.Length
    requires sigma[w] > 0 && w !in predecessors
    requires forall i | 0 <= i < |predecessors| :: 0 <= predecessors[i] < delta.Length
    modifies delta
    ensures forall v | 0 <= v < delta.Length ::
              delta[v] == old(delta[v]) + Handed(multiset(predecessors)[v], sigma[v], sigma[w], old(delta[w]))
  {
    hide Handed;
    forall v | 0 <= v < delta.Length ensures Handed(0, sigma[v], sigma[w], delta[w]) == 0.0 {
      HandedNone(sigma[v], sigma[w], delta[w]);
    }
    for i := 0 to |predecessors|
      invariant forall v | 0 <= v < delta.Length ::
                  delta[v] == old(delta[v]) + Handed(multiset(predecessors[..i])[v], sigma[v], sigma[w], old(delta[w]))
    {
      var v := predecessors[i];
      assert predecessors[..i + 1] == predecessors[..i] + [v];
      assert w !in predecessors[..i];
      HandedNone(sigma[w], sigma[w], old(delta[w]));
      HandedOnce(multiset(predecessors[..i])[v], sigma[v], sigma[w], old(delta[w]));
      delta[v] := delta[v] + (sigma[v] as real / sigma[w] as real) * (1.0 + delta[w]);
    }
    assert predecessors[..|predecessors|] == predecessors;
  }

  ghost function Handed(times: nat, sv: nat, sw: nat, dw: real): real
    requires sw > 0
  {
    times as real * (sv as real / sw as real * (1.0 + dw))
  }

  lemma HandedNone(sv: nat, sw: nat, dw: real)
    requires sw > 0
    ensures Handed(0, sv, sw, dw) == 0.0
  {
  }

  lemma HandedOnce(times: nat, sv: nat, sw: nat, dw: real)
    requires sw > 0
    ensures Handed(times + 1, sv, sw, dw) == Handed(times, sv, sw, dw) + sv as real / sw as real * (1.0 + dw)
  {
    var x := sv as real / sw as real * (1.0 + dw);
    assert (times + 1) as real * x == times as real * x + x;
  }

  ghost predicate DeltaCollected(g: SimpleGraph, s: int, popped: seq<int>, delta: seq<real>) {
    |delta| == |g.adj| && forall v | 0 <= v < |g.adj| :: delta[v] == Collected(g, s, popped, v)
  }

  /** Handing back from w adds exactly w's terms. */
  lemma PassedBackCollects(g: SimpleGraph, s: int, popped: seq<int>, w: int, predecessors: seq<int>, sigma: seq<nat>,
                           before: seq<real>, after: seq<real>)
    requires 0 <= w < |g.adj| && w !in popped && Distance(g, s, w) >= 0
    requires |sigma| == |g.adj| && forall v | 0 <= v < |g.adj| :: sigma[v] as real == Sigma(g, s, v)
    requires forall v | 0 <= v < |g.adj| :: multiset(predecessors)[v] ==
               if Distance(g, s, v) >= 0 && Distance(g, s, w) == Distance(g, s, v) + 1 then Edges(g, v, w) else 0
    requires DeltaCollected(g, s, popped, before) && before[w] == Total(g, s, w)
    requires sigma[w] > 0
    requires |after| == |before|
    requires forall v | 0 <= v < |g.adj| ::
               after[v] == before[v] + Handed(multiset(predecessors)[v], sigma[v], sigma[w], before[w])
    ensures DeltaCollected(g, s, [w] + popped, after)
  {
    hide Sigma, Total, Collected, Edges, Handed;
    forall v | 0 <= v < |g.adj| ensures after[v] == Collected(g, s, [w] + popped, v) {
      CollectOne(g, s, popped, w, v);
      HandedIsTerm(g, s, v, w, multiset(predecessors)[v], sigma[v], sigma[w]);
    }
  }

  lemma HandedIsTerm(g: SimpleGraph, s: int, v: int, w: int, times: nat, sv: nat, sw: nat)
    requires sw > 0 && sv as real == Sigma(g, s, v) && sw as real == Sigma(g, s, w)
    requires times == if Distance(g, s, v) >= 0 && Distance(g, s, w) == Distance(g, s, v) + 1 then Edges(g, v, w) else 0
    ensures Handed(times, sv, sw, Total(g, s, w)) == Coefficient(g, s, v, w) * (1.0 + Total(g, s, w))
  {
    hide Sigma, Total, Edges;
    var e, r, d := times as real, sv as real / sw as real, 1.0 + Total(g, s, w);
    assert e * (r * d) == (e * r) * d;
  }

  ghost predicate Credited(g: SimpleGraph, s: int, popped: seq<int>, before: seq<real>, after: seq<real>) {
    && |before| == |after| == |g.adj|
    && forall w | 0 <= w < |g.adj| :: after[w] == before[w] + if w in popped && w != s then Total(g, s, w) else 0.0
  }

  /** The top of the stack is settled: it hands its dependency back, and is credited with it. */
  method SettleTop(g: SimpleGraph, s: int, pred: array<seq<int>>, sigma: array<nat>, ghost dist: seq<int>,
                   ghost order: seq<int>, st: Stack, delta: array<real>, centrality: array<real>, ghost paid: seq<real>)
    requires WellFormed(g) && 0 <= s < |g.adj|
    requires Explored(g, s, order, dist, sigma[..], pred[..])
    requires delta != centrality
    requires 0 < |st.stack| <= |order| && st.stack == order[..|st.stack|]
    requires DeltaCollected(g, s, order[|st.stack|..], delta[..])
    requires Credited(g, s, order[|st.stack|..], paid, centrality[..])
    modifies st, delta, centrality
    ensures st.stack == order[..|old(st.stack)| - 1]
    ensures DeltaCollected(g, s, order[|st.stack|..], delta[..])
    ensures Credited(g, s, order[|st.stack|..], paid, centrality[..])
  {
    hide Explored, Total, Collected;
    ghost var k, popped, credit := |st.stack|, order[|st.stack|..], centrality[..];
    var w := st.Top();
    st.Pop();
    TopOf(g, s, order, dist, sigma[..], pred[..], k);
    HandBack(g, s, pred, sigma, dist, order, k, w, delta);
    if w != s {
      centrality[w] := centrality[w] + delta[w];
    }
    CreditOne(g, s, popped, w, paid, credit, centrality[..]);
  }

  lemma TopOf(g: SimpleGraph, s: int, order: seq<int>, dist: seq<int>, sigma: seq<nat>, pred: seq<seq<int>>, k: nat)
    requires WellFormed(g)
    requires Explored(g, s, order, dist, sigma, pred)
    requires 0 < k <= |order|
    ensures 0 <= order[k - 1] < |g.adj| && order[k - 1] !in order[k..]
    ensures order[..k][k - 1] == order[k - 1] && order[..k][..k - 1] == order[..k - 1]
    ensures order[k - 1..] == [order[k - 1]] + order[k..]
    ensures |sigma| == |pred| == |g.adj|
  {
  }

  /** The node on top hands its dependency back to its predecessors. */
  method HandBack(g: SimpleGraph, s: int, pred: array<seq<int>>, sigma: array<nat>, ghost dist: seq<int>,
                  ghost order: seq<int>, ghost k: nat, w: int, delta: array<real>)
    requires WellFormed(g) && 0 <= s < |g.adj|
    requires Explored(g, s, order, dist, sigma[..], pred[..])
    requires 0 < k <= |order| && w == order[k - 1]
    requires sigma.Length == pred.Length == |g.adj| && 0 <= w < |g.adj|
    requires DeltaCollected(g, s, order[k..], delta[..])
    modifies delta
    ensures DeltaCollected(g, s, order[k - 1..], delta[..])
    ensures delta[w] == Total(g, s, w)
  {
    hide Sum, Edges, Total, Collected, Sigma, Handed, Explored;
    ghost var before := delta[..];
    TopOf(g, s, order, dist, sigma[..], pred[..], k);
    PredecessorsOf(g, s, order, dist, sigma[..], pred[..], k);
    AccumulateStart(g, s, order, dist, sigma[..], pred[..]);
    AllCollected(g, s, order, k);
    PredecessorsInRange(g, s, order, dist, sigma[..], pred[..], w);
    PassBack(w, pred[w], sigma, delta);
    PassedBackCollects(g, s, order[k..], w, pred[w], sigma[..], before, delta[..]);
    OwnUnchanged(multiset(pred[w])[w], sigma[w], before[w]);
  }

  lemma PredecessorsInRange(g: SimpleGraph, s: int, order: seq<int>, dist: seq<int>, sigma: seq<nat>,
                            pred: seq<seq<int>>, w: int)
    requires WellFormed(g) && Explored(g, s, order, dist, sigma, pred) && 0 <= w < |g.adj|
    ensures forall i | 0 <= i < |pred[w]| :: 0 <= pred[w][i] < |g.adj|
  {
  }

  lemma OwnUnchanged(times: nat, sigma: nat, delta: real)
    requires sigma > 0
    ensures times == 0 ==> delta + Handed(times, sigma, sigma, delta) == delta
  {
    HandedNone(sigma, sigma, delta);
  }

  lemma CreditOne(g: SimpleGraph, s: int, popped: seq<int>, w: int, paid: seq<real>, before: seq<real>, after: seq<real>)
    requires Credited(g, s, popped, paid, before)
    requires 0 <= w < |g.adj| && w !in popped
    requires after == if w != s then before[w := before[w] + Total(g, s, w)] else before
    ensures Credited(g, s, [w] + popped, paid, after)
  {
    hide Total;
    assert forall x :: x in [w] + popped <==> x == w || x in popped;
  }

  /** The back-propagation: nodes come off the stack farthest first. */
  method Accumulate(g: SimpleGraph, s: int, pred: array<seq<int>>, sigma: array<nat>, ghost dist: seq<int>, st: Stack,
                    centrality: array<real>)
    requires WellFormed(g) && 0 <= s < |g.adj|
    requires Explored(g, s, st.stack, dist, sigma[..], pred[..])
    requires centrality.Length == |g.adj|
    modifies st, centrality
    ensures Credited(g, s, old(st.stack), old(centrality[..]), centrality[..])
  {
    hide Explored, Collected, Total;
    ghost var order, paid := st.stack, centrality[..];
    var delta := new real[|g.nodes|](_ => 0.0);
    assert order[..|order|] == order && order[|order|..] == [];
    forall v | 0 <= v < |g.adj| ensures delta[..][v] == Collected(g, s, [], v) {
      NothingCollected(g, s, v);
    }
    while !st.Empty()
      invariant |st.stack| <= |order| && st.stack == order[..|st.stack|]
      invariant Explored(g, s, order, dist, sigma[..], pred[..])
      invariant DeltaCollected(g, s, order[|st.stack|..], delta[..])
      invariant Credited(g, s, order[|st.stack|..], paid, centrality[..])
      decreases |st.stack|
    {
      SettleTop(g, s, pred, sigma, dist, order, st, delta, centrality, paid);
    }
    assert order[0..] == order;
  }

  lemma NothingCollected(g: SimpleGraph, s: int, v: int)
    ensures Collected(g, s, [], v) == 0.0
  {
    SumZero(|g.adj|, PoppedTerms(g, s, [], v));
  }

  lemma AccumulateStart(g: SimpleGraph, s: int, order: seq<int>, dist: seq<int>, sigma: seq<nat>, pred: seq<seq<int>>)
    requires WellFormed(g)
    requires Explored(g, s, order, dist, sigma, pred)
    ensures ExploredOrder(g, s, order)
    ensures forall v | 0 <= v < |g.adj| :: sigma[v] as real == Sigma(g, s, v)
  {
    forall v | 0 <= v < |g.adj| ensures sigma[v] as real == Sigma(g, s, v) {
      SigmaIsSize(g, s, v);
    }
  }

  lemma PredecessorsOf(g: SimpleGraph, s: int, order: seq<int>, dist: seq<int>, sigma: seq<nat>, pred: seq<seq<int>>, k: nat)
    requires WellFormed(g)
    requires Explored(g, s, order, dist, sigma, pred)
    requires 0 < k <= |order|
    ensures 0 <= order[k - 1] < |g.adj| && Distance(g, s, order[k - 1]) >= 0 && sigma[order[k - 1]] > 0
    ensures order[k - 1] !in pred[order[k - 1]]
    ensures forall v | 0 <= v < |g.adj| :: multiset(pred[order[k - 1]])[v] ==
              if Distance(g, s, v) >= 0 && Distance(g, s, order[k - 1]) == Distance(g, s, v) + 1
              then Edges(g, v, order[k - 1]) else 0
  {
    hide Edges;
    var w := order[k - 1];
    assert w in order;
    AccumulateStart(g, s, order, dist, sigma, pred);
    SigmaPositive(g, s, w);
    assert multiset(pred[w])[w] == 0;
  }

  /** Brandes' theorem for one source: every other node gains its dependency, the sum over all targets of the
      fraction of shortest paths through it, and the source itself gains nothing. */
  method BetweennessCentrality(g: SimpleGraph, s: int, centrality: array<real>)
    requires WellFormed(g) && 0 <= s < |g.adj|
    requires centrality.Length == |g.adj|
    modifies centrality
    ensures centrality[s] == old(centrality[s])
    ensures forall w | 0 <= w < |g.adj| && w != s :: centrality[w] == old(centrality[w]) + Dependency(g, s, w)
  {
    hide Sum, Edges, Total, Dependency;
    var pred, sigma, dist, st := ShortestPathCounts(g, s);
    ghost var order, before := st.stack, centrality[..];
    Accumulate(g, s, pred, sigma, dist[..], st, centrality);
    forall w | 0 <= w < |g.adj| && w != s ensures centrality[w] == before[w] + Dependency(g, s, w) {
      assert centrality[..][w] == before[w] + if w in order && w != s then Total(g, s, w) else 0.0;
      DependencyIsTotal(g, s, w);
      if w !in order {
        TotalUnreachable(g, s, w);
      }
    }
    assert centrality[..][s] == before[s];
  }
}
