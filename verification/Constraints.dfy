/** The autopilot's limits, and how one dispatch sizes its channel candidates within them. */
module Constraints {
  import opened Choice
  import opened Sets

  datatype LocalChannel = LocalChannel(chanID: nat, balance: nat, node: NodeID)

  datatype Limits = Limits(minChanSize: nat, maxChanSize: nat, chanLimit: nat, maxPendingOpens: nat, allocation: real)
  {
    ghost predicate Valid() {
      chanLimit < 0x10000 && maxPendingOpens < 0x10000 && 0.0 <= allocation <= 1.0
    }
  }

  ghost function Balances(channels: seq<LocalChannel>): nat {
    if channels == [] then 0 else Balances(channels[..|channels| - 1]) + channels[|channels| - 1].balance
  }

  /** Conversion to an integer amount drops the fraction. */
  function Truncate(x: real): nat
    requires x >= 0.0
  {
    x.Floor
  }

  /** The part of all funds that may be in channels. */
  function Share(allocation: real, total: nat): real {
    allocation * total as real
  }

  method SumBalances(channels: seq<LocalChannel>) returns (total: nat)
    ensures total == Balances(channels)
  {
    total := 0;
    for i := 0 to |channels|
      invariant total == Balances(channels[..i])
    {
      assert channels[..i + 1][..i] == channels[..i];
      total := total + channels[i].balance;
    }
    assert channels[..|channels|] == channels;
  }

  lemma {:induction false} BalancesConcat(a: seq<LocalChannel>, b: seq<LocalChannel>)
    ensures Balances(a + b) == Balances(a) + Balances(b)
    decreases |b|
  {
    if b == [] {
      assert a + b == a;
    } else {
      var m := |b| - 1;
      assert (a + b)[..|a + b| - 1] == a + b[..m];
      BalancesConcat(a, b[..m]);
    }
  }

  /** The largest amount that keeps the channels within their share of all funds, and the free channel slots. Nothing is
      available once the limit or the share is reached; without any funds the fraction is undefined and nothing is
      available either. */
  method ChannelBudget(limits: Limits, channels: seq<LocalChannel>, funds: nat) returns (available: nat, slots: nat)
    requires limits.Valid()
    ensures available <= funds
    ensures slots > 0 <==> |channels| < limits.chanLimit
                           && Balances(channels) as real < Share(limits.allocation, funds + Balances(channels))
    ensures slots == 0 ==> available == 0
    ensures slots > 0 ==> |channels| + slots == limits.chanLimit
    ensures slots > 0 ==>
              (available + Balances(channels)) as real <= Share(limits.allocation, funds + Balances(channels))
              < (available + Balances(channels)) as real + 1.0
  {
    hide Share, Balances;
    if |channels| >= limits.chanLimit {
      return 0, 0;
    }
    var additional := limits.chanLimit - |channels|;
    var inChannels := SumBalances(channels);
    var total := funds + inChannels;
    FractionBelow(inChannels, total, limits.allocation);
    var needMore := total > 0 && inChannels as real / total as real < limits.allocation;
    if !needMore {
      return 0, 0;
    }
    TargetBounds(limits.allocation, total, inChannels);
    var target := Truncate(Share(limits.allocation, total));
    return target - inChannels, additional;
  }

  lemma FractionBelow(part: nat, total: nat, allocation: real)
    requires part <= total && 0.0 <= allocation
    ensures (total > 0 && part as real / total as real < allocation) <==> part as real < Share(allocation, total)
  {
    if total > 0 {
      ScaleUp(part as real / total as real, allocation, total as real);
    } else {
      assert allocation * 0.0 == 0.0;
    }
  }

  lemma ScaleUp(f: real, allocation: real, total: real)
    requires total > 0.0
    ensures f < allocation <==> f * total < allocation * total
  {
    if f < allocation {
      assert (allocation - f) * total > 0.0;
    } else {
      assert (f - allocation) * total >= 0.0;
    }
  }

  lemma TargetBounds(allocation: real, total: nat, part: nat)
    requires 0.0 <= allocation <= 1.0 && part as real < Share(allocation, total)
    ensures Share(allocation, total) >= 0.0
    ensures part <= Truncate(Share(allocation, total)) <= total
    ensures Truncate(Share(allocation, total)) as real <= Share(allocation, total)
            < Truncate(Share(allocation, total)) as real + 1.0
  {
    assert (1.0 - allocation) * total as real >= 0.0;
  }

  // ----- sizing -----

  ghost function TotalSize<K>(c: map<K, nat>): nat {
    if c == map[] then 0
    else var k :| k in c; c[k] + TotalSize(c - {k})
  }

  lemma {:induction false} TotalSizeWithout<K>(c: map<K, nat>, k: K)
    requires k in c
    ensures TotalSize(c) == c[k] + TotalSize(c - {k})
  {
    var j :| j in c && TotalSize(c) == c[j] + TotalSize(c - {j});
    if j != k {
      TotalSizeWithout(c - {j}, k);
      TotalSizeWithout(c - {k}, j);
      assert c - {j} - {k} == c - {k} - {j};
    }
  }

  /** What is in the channels of a map. */
  ghost function InChannels<K>(m: map<K, LocalChannel>): nat {
    TotalSize(BalancesOf(m))
  }

  ghost function BalancesOf<K>(m: map<K, LocalChannel>): (sizes: map<K, nat>)
    ensures sizes.Keys == m.Keys
  {
    map k | k in m :: m[k].balance
  }

  lemma InChannelsWithout<K>(m: map<K, LocalChannel>, k: K)
    requires k in m
    ensures InChannels(m) == m[k].balance + InChannels(m - {k})
  {
    TotalSizeWithout(BalancesOf(m), k);
    assert BalancesOf(m) - {k} == BalancesOf(m - {k});
  }

  lemma TotalSizeAdd(c: map<NodeID, nat>, k: NodeID, size: nat)
    requires k !in c
    ensures TotalSize(c[k := size]) == TotalSize(c) + size
  {
    TotalSizeWithout(c[k := size], k);
    assert c[k := size] - {k} == c;
  }

  ghost predicate Sized(limits: Limits, c: map<NodeID, nat>, available: nat) {
    && (forall k | k in c :: limits.minChanSize <= c[k] <= limits.maxChanSize)
    && TotalSize(c) <= available
  }

  /** Every channel has the full size, but for one that takes what is left, and the empty ones after it. */
  ghost predicate Filled(c: map<NodeID, nat>, size: nat, available: nat) {
    && (forall k | k in c :: c[k] == size || (c[k] < size && TotalSize(c) == available))
    && (forall j, k | j in c && k in c && 0 < c[j] < size && 0 < c[k] < size :: j == k)
  }

  /** Gives every chosen node a channel of the full size while the funds allow it, the next one what is left, and stops when
      not even the smallest size is left. */
  method SizeCandidates(limits: Limits, chosen: set<NodeID>, available: nat, chanSize: nat)
    returns (candidates: map<NodeID, nat>)
    requires limits.minChanSize <= chanSize <= limits.maxChanSize && chanSize <= available
    ensures candidates.Keys <= chosen
    ensures Sized(limits, candidates, available)
    ensures Filled(candidates, chanSize, available)
    ensures candidates.Keys == chosen || available - TotalSize(candidates) < limits.minChanSize
    ensures candidates == map[] <==> chosen == {}
  {
    hide TotalSize;
    candidates := map[];
    var left, funds, size := chosen, available, chanSize;
    NoSize();
    while left != {}
      invariant candidates.Keys == chosen - left && left <= chosen
      invariant Sized(limits, candidates, available)
      invariant TotalSize(candidates) + funds == available
      invariant limits.minChanSize <= size <= limits.maxChanSize
      invariant Filled(candidates, chanSize, available)
      invariant if size == chanSize then chanSize == 0 || forall k | k in candidates :: candidates[k] == chanSize
                else funds == 0 && size < chanSize
      invariant candidates == map[] ==> left == chosen && funds == available && size == chanSize
      decreases left
    {
      var k :| k in left;
      if funds < size {
        size := funds;
      }
      funds := funds - size;
      if size < limits.minChanSize {
        break;
      }
      TotalSizeAdd(candidates, k, size);
      candidates := candidates[k := size];
      left := left - {k};
    }
  }

  lemma NoSize()
    ensures TotalSize<NodeID>(map[]) == 0
  {
  }

  /** There is a free slot, and enough of the share is left for the smallest channel. */
  ghost predicate Room(limits: Limits, channels: seq<LocalChannel>, balance: nat) {
    && |channels| < limits.chanLimit
    && limits.minChanSize <= limits.maxChanSize
    && (Balances(channels) + 1) as real <= Share(limits.allocation, balance + Balances(channels))
    && (Balances(channels) + limits.minChanSize) as real <= Share(limits.allocation, balance + Balances(channels))
  }

  /** The share is used up but for less than the amount. */
  ghost predicate UsedUp(limits: Limits, channels: seq<LocalChannel>, balance: nat, c: map<NodeID, nat>, amount: nat) {
    Share(limits.allocation, balance + Balances(channels)) < (Balances(channels) + TotalSize(c) + amount) as real
  }

  /** What the controller does between reading its state and launching directives: budget, weighted choice, sizing. The
      draws are what the generator yields; as long as they do not settle the choice, nothing is decided. Once they do,
      somebody is picked exactly if there is room and somebody with weight: as many as slots and weights allow, or as the
      share can pay for, each with the largest channel, but for one with what is left. */
  method PlanDispatch(limits: Limits, channels: seq<LocalChannel>, balance: nat, scores: map<NodeID, NodeScore>,
                      draws: seq<real>)
    returns (candidates: map<NodeID, nat>, decided: bool)
    requires limits.Valid()
    requires forall k | k in scores :: scores[k].score >= 0.0
    requires InUnit(draws)
    ensures candidates.Keys <= scores.Keys
    ensures NonZero(draws) == |draws| ==> candidates.Keys <= Positive(scores)
    ensures NonZero(draws) >= |Positive(scores)| ==> decided
    ensures !decided ==> candidates == map[]
    ensures decided ==> (candidates != map[] <==> Room(limits, channels, balance) && Positive(scores) != {})
    ensures decided && Room(limits, channels, balance) && NonZero(draws) == |draws| ==>
              |candidates| == Min(limits.chanLimit - |channels|, |Positive(scores)|)
              || UsedUp(limits, channels, balance, candidates, limits.minChanSize)
    ensures forall k | k in candidates ::
              candidates[k] == limits.maxChanSize || UsedUp(limits, channels, balance, candidates, 1)
    ensures forall j, k | j in candidates && k in candidates
                          && 0 < candidates[j] < limits.maxChanSize && 0 < candidates[k] < limits.maxChanSize :: j == k
    ensures Sized(limits, candidates, balance)
    ensures candidates != map[] ==> |channels| + |candidates| <= limits.chanLimit
    ensures candidates != map[] ==>
              (Balances(channels) + TotalSize(candidates)) as real <= Share(limits.allocation, balance + Balances(channels))
  {
    hide Balances, Positive, Share, NonZero, Progress, TotalSize, InUnit;
    candidates, decided := map[], true;
    NoSize();
    var available, slots := ChannelBudget(limits, channels, balance);
    if slots == 0 || available == 0 || available < limits.minChanSize {
      return;
    }
    var chanSize := limits.maxChanSize;
    if available < chanSize {
      chanSize := available;
    }
    if chanSize < limits.minChanSize {
      return;
    }
    var chosen, used;
    ghost var order;
    chosen, used, decided, order := ChooseN(slots, scores, draws);
    if !decided {
      return;
    }
    candidates := SizeCandidates(limits, chosen.Keys, available, chanSize);
    SubsetSize(candidates.Keys, chosen.Keys);
    AllNonZero(draws, used);
    PositiveKeys(scores, chosen);
    OneTakesAll(candidates, available);
  }

  /** When one channel has all that there is, no other one has anything. */
  lemma OneTakesAll(c: map<NodeID, nat>, available: nat)
    ensures TotalSize(c) <= available ==> forall j, k | j in c && k in c && c[j] == available && c[k] > 0 :: j == k
    ensures forall k | k in c :: c[k] <= TotalSize(c)
  {
    forall k | k in c ensures c[k] <= TotalSize(c) {
      TotalSizeWithout(c, k);
    }
    forall j, k | j in c && k in c && c[j] == available && c[k] > 0 && TotalSize(c) <= available ensures j == k {
      TotalSizeWithout(c, j);
      if j != k {
        TotalSizeWithout(c - {j}, k);
      }
    }
  }

  /** If no draw is zero, none of the first ones is. */
  lemma {:induction false} AllNonZero(draws: seq<real>, used: nat)
    requires used <= |draws|
    ensures NonZero(draws) == |draws| ==> NonZero(draws[..used]) == used
  {
    var m := |draws| - 1;
    if used <= m {
      AllNonZero(draws[..m], used);
      assert draws[..m][..used] == draws[..used];
    } else {
      assert draws[..used] == draws;
    }
  }

  lemma PositiveKeys(s: map<NodeID, NodeScore>, chosen: map<NodeID, NodeScore>)
    requires forall k | k in chosen :: k in s
    ensures (forall k | k in chosen :: s[k].score > 0.0) ==> chosen.Keys <= Positive(s)
  {
  }
}
