/** The metric object: a pool of workers computes partial sums, whatever the schedule. */
module CentralityMetric {
  import opened Sums
  import opened Paths
  import opened Brandes
  import opened Betweenness
  import opened Undirected

  /** A worker waits for a node, computes on one, or has sent its partial result and ended. */
  datatype Worker = Idle | Busy(node: int) | Done

  ghost function Steps(worker: Worker): nat {
    match worker
    case Idle => 1
    case Busy(_) => 2
    case Done => 0
  }

  ghost function StepsLeft(pool: seq<Worker>): nat {
    if pool == [] then 0 else StepsLeft(pool[..|pool| - 1]) + Steps(pool[|pool| - 1])
  }

  ghost function Running(pool: seq<Worker>): nat {
    if pool == [] then 0 else Running(pool[..|pool| - 1]) + if pool[|pool| - 1].Done? then 0 else 1
  }

  lemma {:induction false} PoolUpdate(pool: seq<Worker>, j: int, worker: Worker)
    requires 0 <= j < |pool|
    ensures StepsLeft(pool[j := worker]) == StepsLeft(pool) - Steps(pool[j]) + Steps(worker)
    ensures Running(pool[j := worker])
            == Running(pool) - (if pool[j].Done? then 0 else 1) + (if worker.Done? then 0 else 1)
  {
    var m := |pool| - 1;
    if j == m {
      assert pool[j := worker][..m] == pool[..m];
    } else {
      PoolUpdate(pool[..m], j, worker);
      assert pool[j := worker][..m] == pool[..m][j := worker];
    }
  }

  lemma {:induction false} RunningWorker(pool: seq<Worker>, j: int)
    requires 0 <= j < |pool| && !pool[j].Done?
    ensures 0 < Running(pool)
  {
    if j < |pool| - 1 {
      RunningWorker(pool[..|pool| - 1], j);
    }
  }

  lemma {:induction false} NobodyRunning(pool: seq<Worker>)
    requires forall j | 0 <= j < |pool| :: pool[j].Done?
    ensures Running(pool) == 0
  {
    if pool != [] {
      NobodyRunning(pool[..|pool| - 1]);
    }
  }

  lemma {:induction false} AllRunning(n: nat)
    ensures Running(seq(n, _ => Idle)) == n
  {
    if n > 0 {
      assert seq(n, _ => Idle)[..n - 1] == seq(n - 1, _ => Idle);
      AllRunning(n - 1);
    }
  }

  // ----- where the contributions of the sources handed out so far are -----

  /** What worker j still owes to node i: its partial sum, and the node it is working on. */
  ghost function Owed(g: SimpleGraph, pool: seq<Worker>, held: seq<seq<real>>, i: int): int -> real {
    j => if 0 <= j < |pool| && j < |held| && 0 <= i < |held[j]| && !pool[j].Done?
         then held[j][i] + (if pool[j].Busy? then Gain(g, i)(pool[j].node) else 0.0)
         else 0.0
  }

  ghost function Entry(sent: seq<seq<real>>, i: int): int -> real {
    k => if 0 <= k < |sent| && 0 <= i < |sent[k]| then sent[k][i] else 0.0
  }

  ghost predicate Widths(n: nat, tables: seq<seq<real>>) {
    forall j | 0 <= j < |tables| :: |tables[j]| == n
  }

  /** Nothing is lost and nothing is counted twice: the results sent and the results still held make up the sources
      handed out so far. */
  ghost predicate Accounted(g: SimpleGraph, pool: seq<Worker>, held: seq<seq<real>>, sent: seq<seq<real>>, next: nat) {
    && |held| == |pool| && Widths(|g.adj|, held) && Widths(|g.adj|, sent)
    && forall i | 0 <= i < |g.adj| ::
         Sum(|sent|, Entry(sent, i)) + Sum(|pool|, Owed(g, pool, held, i)) == Sum(next, Gain(g, i))
  }

  lemma AccountedStart(g: SimpleGraph, pool: seq<Worker>, held: seq<seq<real>>)
    requires |held| == |pool| && Widths(|g.adj|, held)
    requires forall j | 0 <= j < |pool| :: pool[j] == Idle
    requires forall j, i | 0 <= j < |pool| && 0 <= i < |g.adj| :: held[j][i] == 0.0
    ensures Accounted(g, pool, held, [], 0)
  {
    forall i | 0 <= i < |g.adj| ensures Sum(|pool|, Owed(g, pool, held, i)) == 0.0 {
      SumZero(|pool|, Owed(g, pool, held, i));
    }
  }

  lemma HandOutAccounted(g: SimpleGraph, pool: seq<Worker>, held: seq<seq<real>>, sent: seq<seq<real>>, next: nat, j: int)
    requires Accounted(g, pool, held, sent, next)
    requires 0 <= j < |pool| && pool[j] == Idle
    ensures Accounted(g, pool[j := Busy(next)], held, sent, next + 1)
  {
    hide Gain;
    forall i | 0 <= i < |g.adj|
      ensures Sum(|sent|, Entry(sent, i)) + Sum(|pool|, Owed(g, pool[j := Busy(next)], held, i))
              == Sum(next + 1, Gain(g, i))
    {
      SumPoint(|pool|, j, Owed(g, pool, held, i), Owed(g, pool[j := Busy(next)], held, i));
    }
  }

  lemma ComputedAccounted(g: SimpleGraph, pool: seq<Worker>, held: seq<seq<real>>, sent: seq<seq<real>>, next: nat, j: int,
                          table: seq<real>)
    requires Accounted(g, pool, held, sent, next)
    requires 0 <= j < |pool| && pool[j].Busy? && |table| == |g.adj|
    requires forall i | 0 <= i < |g.adj| :: table[i] == held[j][i] + Gain(g, i)(pool[j].node)
    ensures Accounted(g, pool[j := Idle], held[j := table], sent, next)
  {
    hide Gain, Sum;
    forall i | 0 <= i < |g.adj|
      ensures Sum(|pool|, Owed(g, pool[j := Idle], held[j := table], i)) == Sum(|pool|, Owed(g, pool, held, i))
    {
      SumExt(|pool|, Owed(g, pool[j := Idle], held[j := table], i), Owed(g, pool, held, i));
    }
  }

  lemma SentAccounted(g: SimpleGraph, pool: seq<Worker>, held: seq<seq<real>>, sent: seq<seq<real>>, next: nat, j: int)
    requires Accounted(g, pool, held, sent, next)
    requires 0 <= j < |pool| && pool[j] == Idle
    ensures Accounted(g, pool[j := Done], held, sent + [held[j]], next)
  {
    hide Gain;
    var more := sent + [held[j]];
    forall i | 0 <= i < |g.adj|
      ensures Sum(|more|, Entry(more, i)) + Sum(|pool|, Owed(g, pool[j := Done], held, i)) == Sum(next, Gain(g, i))
    {
      SumExt(|sent|, Entry(more, i), Entry(sent, i));
      SumPoint(|pool|, j, Owed(g, pool, held, i), Owed(g, pool[j := Done], held, i));
    }
  }

  lemma AllSent(g: SimpleGraph, pool: seq<Worker>, held: seq<seq<real>>, sent: seq<seq<real>>, next: nat, i: int)
    requires Accounted(g, pool, held, sent, next)
    requires forall j | 0 <= j < |pool| :: pool[j].Done?
    requires 0 <= i < |g.adj|
    ensures Sum(|sent|, Entry(sent, i)) == Sum(next, Gain(g, i))
  {
    SumZero(|pool|, Owed(g, pool, held, i));
  }

  ghost predicate TablesHold(tables: seq<array<real>>, held: seq<seq<real>>, n: nat)
    reads tables
  {
    && |tables| == |held|
    && (forall j | 0 <= j < |tables| :: tables[j].Length == n && tables[j][..] == held[j])
    && (forall j, k | 0 <= j < k < |tables| :: tables[j] != tables[k])
  }

  method NewTables(n: nat, workers: nat) returns (tables: seq<array<real>>, ghost held: seq<seq<real>>)
    ensures fresh(tables) && TablesHold(tables, held, n) && |tables| == workers
    ensures forall j, i | 0 <= j < workers && 0 <= i < n :: held[j][i] == 0.0
  {
    tables, held := [], [];
    for k := 0 to workers
      invariant fresh(tables) && TablesHold(tables, held, n) && |tables| == k
      invariant forall j, i | 0 <= j < k && 0 <= i < n :: held[j][i] == 0.0
    {
      var partial := new real[n](_ => 0.0);
      tables, held := tables + [partial], held + [partial[..]];
    }
  }

  lemma GainedAll(g: SimpleGraph, s: int, before: seq<real>, after: seq<real>)
    requires 0 <= s < |g.adj| && |before| == |after| == |g.adj|
    requires after[s] == before[s]
    requires forall w | 0 <= w < |g.adj| && w != s :: after[w] == before[w] + Dependency(g, s, w)
    ensures forall i | 0 <= i < |g.adj| :: after[i] == before[i] + Gain(g, i)(s)
  {
  }

  // ----- the pool -----

  /** What holds between any two steps of the pool. */
  ghost predicate PoolInv(g: SimpleGraph, pool: seq<Worker>, held: seq<seq<real>>, partials: seq<seq<real>>, next: int) {
    && 0 <= next <= |g.adj|
    && (forall j | 0 <= j < |pool| && pool[j].Busy? :: 0 <= pool[j].node < |g.adj|)
    && (forall j | 0 <= j < |pool| && pool[j].Done? :: next == |g.adj|)
    && |partials| + Running(pool) == |pool|
    && Accounted(g, pool, held, partials, next)
  }

  ghost function WorkLeft(g: SimpleGraph, pool: seq<Worker>, next: int): int {
    2 * (|g.adj| - next) + StepsLeft(pool)
  }

  /** The channel for partial results has a slot for every worker that has not sent yet: none ever waits to send. */
  lemma NoWorkerBlocks(g: SimpleGraph, pool: seq<Worker>, held: seq<seq<real>>, partials: seq<seq<real>>, next: int, j: int)
    requires PoolInv(g, pool, held, partials, next)
    requires 0 <= j < |pool| && !pool[j].Done?
    ensures |partials| < |pool|
  {
    hide Accounted;
    RunningWorker(pool, j);
  }

  lemma StartPool(g: SimpleGraph, pool: seq<Worker>, held: seq<seq<real>>)
    requires |held| == |pool| && Widths(|g.adj|, held)
    requires pool == seq(|pool|, _ => Idle)
    requires forall j, i | 0 <= j < |pool| && 0 <= i < |g.adj| :: held[j][i] == 0.0
    ensures PoolInv(g, pool, held, [], 0)
  {
    hide Accounted;
    AllRunning(|pool|);
    AccountedStart(g, pool, held);
  }

  lemma HandOut(g: SimpleGraph, pool: seq<Worker>, held: seq<seq<real>>, partials: seq<seq<real>>, next: int, j: int)
    requires PoolInv(g, pool, held, partials, next) && next < |g.adj|
    requires 0 <= j < |pool| && pool[j].Idle?
    ensures PoolInv(g, pool[j := Busy(next)], held, partials, next + 1)
    ensures 0 <= WorkLeft(g, pool[j := Busy(next)], next + 1) < WorkLeft(g, pool, next)
  {
    hide Accounted;
    HandOutAccounted(g, pool, held, partials, next, j);
    PoolUpdate(pool, j, Busy(next));
  }

  lemma Compute(g: SimpleGraph, pool: seq<Worker>, held: seq<seq<real>>, partials: seq<seq<real>>, next: int, j: int,
                table: seq<real>)
    requires PoolInv(g, pool, held, partials, next)
    requires 0 <= j < |pool| == |held| && pool[j].Busy? && |held[j]| == |table| == |g.adj|
    requires table[pool[j].node] == held[j][pool[j].node]
    requires forall w | 0 <= w < |g.adj| && w != pool[j].node :: table[w] == held[j][w] + Dependency(g, pool[j].node, w)
    ensures PoolInv(g, pool[j := Idle], held[j := table], partials, next)
    ensures 0 <= WorkLeft(g, pool[j := Idle], next) < WorkLeft(g, pool, next)
  {
    hide Accounted, Dependency;
    GainedAll(g, pool[j].node, held[j], table);
    ComputedAccounted(g, pool, held, partials, next, j, table);
    PoolUpdate(pool, j, Idle);
  }

  lemma Send(g: SimpleGraph, pool: seq<Worker>, held: seq<seq<real>>, partials: seq<seq<real>>, next: int, j: int)
    requires PoolInv(g, pool, held, partials, next) && next == |g.adj|
    requires 0 <= j < |pool| == |held| && pool[j].Idle?
    ensures PoolInv(g, pool[j := Done], held, partials + [held[j]], next)
    ensures 0 <= WorkLeft(g, pool[j := Done], next) < WorkLeft(g, pool, next)
  {
    hide Accounted;
    SentAccounted(g, pool, held, partials, next, j);
    PoolUpdate(pool, j, Done);
  }

  lemma Finish(g: SimpleGraph, pool: seq<Worker>, held: seq<seq<real>>, partials: seq<seq<real>>, next: int)
    requires PoolInv(g, pool, held, partials, next) && |pool| > 0
    requires forall j | 0 <= j < |pool| :: pool[j].Done?
    ensures |partials| == |pool| && Widths(|g.adj|, partials)
    ensures forall i | 0 <= i < |g.adj| :: Sum(|partials|, Entry(partials, i)) == Sum(|g.adj|, Gain(g, i))
  {
    hide Sum, Gain, Entry, Owed;
    NobodyRunning(pool);
    assert pool[0].Done?;
    forall i | 0 <= i < |g.adj| ensures Sum(|partials|, Entry(partials, i)) == Sum(|g.adj|, Gain(g, i)) {
      AllSent(g, pool, held, partials, next, i);
    }
  }

  /** Runs the pool until every worker has sent its partial result. The scheduler is free: any waiting worker may get
      the next node, any busy one may finish, any one may find the work channel closed and send. */
  method RunWorkers(g: SimpleGraph, workers: nat) returns (partials: seq<seq<real>>)
    requires WellFormed(g) && workers > 0
    ensures |partials| == workers
    ensures Widths(|g.adj|, partials)
    ensures forall i | 0 <= i < |g.adj| :: Sum(|partials|, Entry(partials, i)) == Sum(|g.adj|, Gain(g, i))
  {
    hide PoolInv, WorkLeft, Sum, Gain, Entry;
    var tables, held := NewTables(|g.nodes|, workers);
    var pool := seq(workers, _ => Idle);
    var next := 0;
    partials := [];
    StartPool(g, pool, held);
    while exists j | 0 <= j < workers :: !pool[j].Done?
      invariant |pool| == workers
      invariant TablesHold(tables, held, |g.adj|) && fresh(tables) && |held| == workers
      invariant PoolInv(g, pool, held, partials, next)
      decreases WorkLeft(g, pool, next)
    {
      PoolRanges(g, pool, held, partials, next);
      ghost var r :| 0 <= r < workers && !pool[r].Done?;
      NoWorkerBlocks(g, pool, held, partials, next, r);
      if
      case next < |g.adj| && exists j | 0 <= j < workers :: pool[j].Idle? =>
        var j :| 0 <= j < workers && pool[j].Idle?;
        HandOut(g, pool, held, partials, next, j);
        pool, next := pool[j := Busy(next)], next + 1;
      case exists j | 0 <= j < workers :: pool[j].Busy? =>
        var j :| 0 <= j < workers && pool[j].Busy?;
        BetweennessCentrality(g, pool[j].node, tables[j]);
        Compute(g, pool, held, partials, next, j, tables[j][..]);
        pool, held := pool[j := Idle], held[j := tables[j][..]];
      case next == |g.adj| && |partials| < workers && exists j | 0 <= j < workers :: pool[j].Idle? =>
        var j :| 0 <= j < workers && pool[j].Idle?;
        Send(g, pool, held, partials, next, j);
        pool, partials := pool[j := Done], partials + [tables[j][..]];
    }
    Finish(g, pool, held, partials, next);
  }

  lemma PoolRanges(g: SimpleGraph, pool: seq<Worker>, held: seq<seq<real>>, partials: seq<seq<real>>, next: int)
    requires PoolInv(g, pool, held, partials, next)
    ensures 0 <= next <= |g.adj|
    ensures forall j | 0 <= j < |pool| && pool[j].Busy? :: 0 <= pool[j].node < |g.adj|
  {
  }

  /** Adds up the partial results, in whatever order they arrived. */
  method Collect(n: nat, partials: seq<seq<real>>) returns (centrality: array<real>)
    requires Widths(n, partials)
    ensures fresh(centrality) && centrality.Length == n
    ensures forall i | 0 <= i < n :: centrality[i] == Sum(|partials|, Entry(partials, i))
  {
    centrality := new real[n](_ => 0.0);
    for k := 0 to |partials|
      invariant forall i | 0 <= i < n :: centrality[i] == Sum(k, Entry(partials, i))
    {
      for m := 0 to |partials[k]|
        invariant forall i | 0 <= i < m :: centrality[i] == Sum(k + 1, Entry(partials, i))
        invariant forall i | m <= i < n :: centrality[i] == Sum(k, Entry(partials, i))
      {
        centrality[m] := centrality[m] + partials[k][m];
      }
    }
  }

  /** Half the total over all sources. */
  ghost function HalfTotal(g: SimpleGraph, u: int): real {
    Sum(|g.adj|, Gain(g, u)) / 2.0
  }

  lemma HalfTotalIsBetweenness(g: SimpleGraph, u: int)
    requires WellFormed(g) && 0 <= u < |g.adj|
    ensures HalfTotal(g, u) >= 0.0
    ensures Symmetric(g) ==> HalfTotal(g, u) == BetweennessOf(g, u)
  {
    hide Sum;
    forall s | 0 <= s < |g.adj| ensures Gain(g, u)(s) >= 0.0 {
      GainNonNegative(g, u, s);
    }
    SumNonNegative(|g.adj|, Gain(g, u));
    if Symmetric(g) {
      GainsCountPairsTwice(g, u);
    }
  }

  lemma HalfOfCollected(g: SimpleGraph, partials: seq<seq<real>>, u: int)
    requires Sum(|partials|, Entry(partials, u)) == Sum(|g.adj|, Gain(g, u))
    ensures HalfTotal(g, u) == Sum(|partials|, Entry(partials, u)) / 2.0
  {
  }

  /** The extremes that normalisation uses: zero is always among the values compared. */
  ghost predicate Extremes(values: seq<real>, min: real, max: real) {
    && (forall i | 0 <= i < |values| :: min <= values[i] <= max)
    && (min == 0.0 || exists i | 0 <= i < |values| :: values[i] == min)
    && (max == 0.0 || exists i | 0 <= i < |values| :: values[i] == max)
    && min <= 0.0 <= max
  }

  type Positive = n: int | n > 0 witness 1

  class Metric {
    const workers: Positive
    var centrality: map<NodeID, real>
    var min: real
    var max: real

    constructor (workers: Positive)
      ensures this.workers == workers && centrality == map[] && min == max == 0.0
    {
      this.workers := workers;
      centrality, min, max := map[], 0.0, 0.0;
    }

    /** There must be at least one worker. */
    static method New(workers: int) returns (bc: Metric?)
      ensures bc == null <==> workers < 1
      ensures bc != null ==> bc.workers == workers && bc.centrality == map[] && fresh(bc)
    {
      if workers < 1 {
        return null;
      }
      bc := new Metric(workers);
    }

    /** Recomputes the metric; a graph that cannot be read changes nothing. */
    method Refresh(cache: SimpleGraph, readable: bool) returns (ok: bool)
      requires WellFormed(cache)
      modifies this
      ensures ok == readable
      ensures !ok ==> centrality == old(centrality) && min == old(min) && max == old(max)
      ensures ok ==> centrality.Keys == set u | 0 <= u < |cache.nodes| :: cache.nodes[u]
      ensures ok ==> forall u | 0 <= u < |cache.nodes| :: centrality[cache.nodes[u]] == HalfTotal(cache, u)
      ensures ok && Symmetric(cache) ==>
                forall u | 0 <= u < |cache.nodes| :: centrality[cache.nodes[u]] == BetweennessOf(cache, u)
      ensures ok ==> min == 0.0 && Ranged()
    {
      hide Sum, Gain, Entry, BetweennessOf, Symmetric, HalfTotal;
      if !readable {
        return false;
      }
      var partials := RunWorkers(cache, workers);
      var total := Collect(|cache.nodes|, partials);
      forall u | 0 <= u < |cache.nodes|
        ensures HalfTotal(cache, u) == total[u] / 2.0 && total[u] >= 0.0
        ensures Symmetric(cache) ==> HalfTotal(cache, u) == BetweennessOf(cache, u)
      {
        HalfTotalIsBetweenness(cache, u);
        HalfOfCollected(cache, partials, u);
      }
      Store(cache, total);
      return true;
    }

    /** Stores half of every total, and the range of the halves. */
    method Store(cache: SimpleGraph, total: array<real>)
      requires WellFormed(cache) && total.Length == |cache.nodes|
      requires forall u | 0 <= u < |cache.nodes| :: total[u] >= 0.0
      modifies this
      ensures centrality.Keys == set u | 0 <= u < |cache.nodes| :: cache.nodes[u]
      ensures forall u | 0 <= u < |cache.nodes| :: centrality[cache.nodes[u]] == total[u] / 2.0
      ensures min == 0.0 && Ranged()
    {
      min, max := FindExtremes(total);
      ghost var lowest, highest := min, max;
      min := min / 2.0;
      max := max / 2.0;
      centrality := Halves(cache.nodes, total);
      HalvedRange(cache.nodes, total[..], lowest, highest, centrality);
    }

    /** Every stored value is between min and max, and if max is not zero some node has it. */
    ghost predicate Ranged()
      reads this
    {
      && min <= 0.0 <= max
      && (forall k | k in centrality :: min <= centrality[k] <= max)
      && (max != 0.0 ==> exists k | k in centrality :: centrality[k] == max)
    }

    /** The stored values, or the same values scaled to [0, 1]. */
    method GetMetric(normalize: bool) returns (result: map<NodeID, real>)
      ensures result.Keys == centrality.Keys
      ensures !normalize ==> result == centrality
      ensures normalize ==> Rescaled(result, centrality, min, max)
      ensures normalize && Ranged() && min == 0.0 ==>
                forall k | k in result :: 0.0 <= result[k] <= 1.0 && result[k] * max == centrality[k]
      ensures normalize && Ranged() && min == 0.0 && max > 0.0 ==> exists k | k in result :: result[k] == 1.0
    {
      hide Rescaled;
      var z := 0.0;
      if max - min > 0.0 {
        z := 1.0 / (max - min);
      }
      result := ScaleAll(centrality, normalize, min, z);
      if normalize {
        AllRescaled(result, centrality, min, max, z);
      }
      if normalize && Ranged() && min == 0.0 {
        Normalized(centrality, max, z, result);
      }
    }
  }

  /** The shift and scale applied to one stored value. */
  function Scaled(normalize: bool, v: real, min: real, z: real): real {
    if normalize then (v - min) * z else v
  }

  method ScaleAll(values: map<NodeID, real>, normalize: bool, min: real, z: real) returns (result: map<NodeID, real>)
    ensures result.Keys == values.Keys
    ensures forall k | k in result :: result[k] == Scaled(normalize, values[k], min, z)
  {
    hide Scaled;
    result := map[];
    var left := values.Keys;
    while left != {}
      invariant left <= values.Keys && result.Keys == values.Keys - left
      invariant forall k | k in result :: result[k] == Scaled(normalize, values[k], min, z)
    {
      var k :| k in left;
      result := result[k := Scaled(normalize, values[k], min, z)];
      left := left - {k};
    }
  }

  /** Divides by two, as every pair was counted from both ends, and keys the values by node. */
  method Halves(nodes: seq<NodeID>, total: array<real>) returns (centrality: map<NodeID, real>)
    requires |nodes| == total.Length
    requires forall u, v | 0 <= u < v < |nodes| :: nodes[u] != nodes[v]
    ensures centrality.Keys == set k | 0 <= k < |nodes| :: nodes[k]
    ensures forall k | 0 <= k < |nodes| :: centrality[nodes[k]] == total[k] / 2.0
  {
    centrality := map[];
    for u := 0 to total.Length
      invariant centrality.Keys == set k | 0 <= k < u :: nodes[k]
      invariant forall k | 0 <= k < u :: centrality[nodes[k]] == total[k] / 2.0
    {
      centrality := centrality[nodes[u] := total[u] / 2.0];
    }
  }

  method FindExtremes(values: array<real>) returns (min: real, max: real)
    ensures Extremes(values[..], min, max)
  {
    min, max := 0.0, 0.0;
    for i := 0 to values.Length
      invariant Extremes(values[..i], min, max)
    {
      var v := values[i];
      ghost var before := values[..i];
      assert values[..i + 1] == before + [v];
      assert forall j | 0 <= j < i :: (before + [v])[j] == before[j];
      assert (before + [v])[i] == v;
      if v < min {
        min := v;
      } else if v > max {
        max := v;
      }
    }
    assert values[..values.Length] == values[..];
  }

  lemma HalvedRange(nodes: seq<NodeID>, total: seq<real>, lowest: real, highest: real, centrality: map<NodeID, real>)
    requires |nodes| == |total| && Extremes(total, lowest, highest)
    requires forall u | 0 <= u < |total| :: total[u] >= 0.0
    requires centrality.Keys == set k | 0 <= k < |total| :: nodes[k]
    requires forall k | 0 <= k < |total| :: centrality[nodes[k]] == total[k] / 2.0
    ensures lowest == 0.0
    ensures forall k | k in centrality :: 0.0 <= centrality[k] <= highest / 2.0
    ensures highest != 0.0 ==> exists k | k in centrality :: centrality[k] == highest / 2.0
  {
    if highest != 0.0 {
      var i :| 0 <= i < |total| && total[i] == highest;
      assert nodes[i] in centrality.Keys;
    }
  }

  lemma Normalized(centrality: map<NodeID, real>, max: real, z: real, result: map<NodeID, real>)
    requires result.Keys == centrality.Keys
    requires max >= 0.0 && forall k | k in centrality :: 0.0 <= centrality[k] <= max
    requires max != 0.0 ==> exists k | k in centrality :: centrality[k] == max
    requires z == if max > 0.0 then 1.0 / max else 0.0
    requires forall k | k in result :: result[k] == Scaled(true, centrality[k], 0.0, z)
    ensures forall k | k in result :: 0.0 <= result[k] <= 1.0 && result[k] * max == centrality[k]
    ensures max > 0.0 ==> exists k | k in result :: result[k] == 1.0
  {
    forall k | k in result ensures 0.0 <= result[k] <= 1.0 && result[k] * max == centrality[k] {
      ScaleDown(centrality[k], max, z);
    }
    if max > 0.0 {
      var k :| k in centrality && centrality[k] == max;
      assert k in result && result[k] == 1.0;
    }
  }

  /** The range is stretched to [0, 1]; if it is empty every value is zero. */
  ghost predicate Rescaled(result: map<NodeID, real>, values: map<NodeID, real>, min: real, max: real) {
    && result.Keys == values.Keys
    && (max <= min ==> forall k | k in result :: result[k] == 0.0)
    && (max > min ==> forall k | k in result :: result[k] * (max - min) == values[k] - min)
  }

  lemma AllRescaled(result: map<NodeID, real>, values: map<NodeID, real>, min: real, max: real, z: real)
    requires result.Keys == values.Keys
    requires forall k | k in result :: result[k] == Scaled(true, values[k], min, z)
    requires z == if max - min > 0.0 then 1.0 / (max - min) else 0.0
    ensures Rescaled(result, values, min, max)
  {
    forall k | k in result
      ensures max <= min ==> result[k] == 0.0
      ensures max > min ==> result[k] * (max - min) == values[k] - min
    {
      Unscaled(values[k] - min, max - min, z);
    }
  }

  lemma Unscaled(x: real, range: real, z: real)
    requires z == if range > 0.0 then 1.0 / range else 0.0
    ensures range <= 0.0 ==> x * z == 0.0
    ensures range > 0.0 ==> x * z * range == x
  {
    if range > 0.0 {
      assert z * range == 1.0;
      assert x * z * range == x * (z * range);
    }
  }

  lemma ScaleDown(x: real, max: real, z: real)
    requires 0.0 <= x <= max && z == if max > 0.0 then 1.0 / max else 0.0
    ensures 0.0 <= x * z <= 1.0 && x * z * max == x
  {
    if max > 0.0 {
      assert z * max == 1.0 && z > 0.0;
      assert x * z <= max * z;
      assert x * z * max == x * (z * max);
    }
  }
}
