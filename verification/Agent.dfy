/** The autopilot agent: the sections its controller and its directives run under the mutex. */
module Agent {
  import opened Choice
  import opened Constraints
  import opened AgentState

  /** A node of the channel graph as the agent sees it. */
  datatype GraphNode = GraphNode(id: NodeID, hasAddress: bool)

  /** The channels of a list by their ids; of two with the same id the later one. */
  ghost function ChannelsById(channels: seq<LocalChannel>): map<nat, LocalChannel> {
    if channels == [] then map[]
    else
      var last := channels[|channels| - 1];
      ChannelsById(channels[..|channels| - 1])[last.chanID := last]
  }

  class Agent {
    const self: NodeID
    const limits: Limits
    var chanState: map<nat, LocalChannel>
    var totalBalance: nat
    var failedNodes: set<NodeID>
    var pendingConns: set<NodeID>
    var pendingOpens: map<NodeID, LocalChannel>
    var controller: Controller
    var directives: map<nat, Directive>
    var nextDirective: nat

    ghost function State(): State
      reads this
    {
      AgentState.State(limits, chanState, totalBalance, failedNodes, pendingConns, pendingOpens, controller, directives,
                       nextDirective)
    }

    constructor (self: NodeID, limits: Limits, initial: seq<LocalChannel>)
      ensures this.self == self && State() == Initial(limits, ChannelsById(initial))
    {
      this.self, this.limits := self, limits;
      totalBalance, failedNodes, pendingConns, pendingOpens := 0, {}, {}, map[];
      controller, directives, nextDirective := Waiting, map[], 0;
      chanState := map[];
      new;
      for i := 0 to |initial|
        invariant State() == Initial(limits, ChannelsById(initial[..i]))
      {
        assert initial[..i + 1][..i] == initial[..i];
        chanState := chanState[initial[i].chanID := initial[i]];
      }
      assert initial[..|initial|] == initial;
    }

    // ----- signals to the controller -----

    method OnChannelOpen(c: LocalChannel)
      requires Enabled(State(), ChannelOpened(c))
      modifies this`chanState, this`pendingOpens
      ensures State() == Step(old(State()), ChannelOpened(c))
      ensures chanState == old(chanState)[c.chanID := c] && pendingOpens == old(pendingOpens) - {c.node}
    {
      chanState := chanState[c.chanID := c];
      pendingOpens := pendingOpens - {c.node};
    }

    method OnChannelClose(closed: seq<nat>)
      requires controller == Waiting
      modifies this`chanState
      ensures Enabled(old(State()), ChannelsClosed(set i | 0 <= i < |closed| :: closed[i]))
      ensures State() == Step(old(State()), ChannelsClosed(set i | 0 <= i < |closed| :: closed[i]))
      ensures forall c :: c in chanState <==> c in old(chanState) && c !in closed
      ensures forall c | c in chanState :: chanState[c] == old(chanState)[c]
    {
      for k := 0 to |closed|
        invariant chanState == old(chanState) - set i | 0 <= i < k :: closed[i]
      {
        chanState := chanState - {closed[k]};
      }
    }

    method UpdateBalance(balance: nat)
      requires Enabled(State(), BalanceRead(balance))
      modifies this`totalBalance
      ensures State() == Step(old(State()), BalanceRead(balance)) && totalBalance == balance
    {
      totalBalance := balance;
    }

    // ----- one round of the controller -----

    /** Exactly the nodes with a channel, open or being opened, those being connected to, and those that failed. */
    method MergeSkips() returns (skips: set<NodeID>)
      ensures skips == MergeNodeMaps(State())
      ensures forall n :: n in skips <==> n in pendingOpens || n in pendingConns || n in failedNodes || HasChannel(chanState, n)
    {
      var connected: set<NodeID>, left := {}, chanState.Keys;
      while left != {}
        invariant left <= chanState.Keys
        invariant connected == set c | c in chanState && c !in left :: chanState[c].node
      {
        var c :| c in left;
        left := left - {c};
        connected := connected + {chanState[c].node};
      }
      skips := pendingOpens.Keys + pendingConns + connected + failedNodes;
      assert forall n :: n in connected <==> HasChannel(chanState, n);
    }

    /** All channels, confirmed and pending, each once. */
    method MergeChanState() returns (total: seq<LocalChannel>, ghost ids: seq<nat>, ghost nodes: seq<NodeID>)
      ensures AllChannels(total, ids, nodes, chanState, pendingOpens)
      ensures |total| == |chanState| + |pendingOpens|
      ensures Balances(total) == InChannels(chanState) + InChannels(pendingOpens)
    {
      hide ValuesInOrder, Balances, InChannels;
      var active, pending;
      active, ids := MapValues(chanState);
      pending, nodes := MapValues(pendingOpens);
      ValuesBalance(active, ids, chanState);
      ValuesBalance(pending, nodes, pendingOpens);
      BalancesConcat(active, pending);
      ListedLength(active, ids, chanState);
      total := active + pending;
      assert total[..|ids|] == active && total[|ids|..] == pending;
    }

    /** The nodes the heuristic is asked about. */
    method Eligible(graph: seq<GraphNode>, skips: set<NodeID>) returns (nodes: set<NodeID>)
      ensures EligibleNodes(self, graph, skips, nodes)
    {
      nodes := {};
      for i := 0 to |graph|
        invariant forall n :: n in nodes <==> n != self && n !in skips && GraphNode(n, true) in graph[..i]
      {
        assert graph[..i + 1] == graph[..i] + [graph[i]];
        if graph[i].id != self && graph[i].hasAddress && graph[i].id !in skips {
          nodes := nodes + {graph[i].id};
        }
      }
      assert graph[..|graph|] == graph;
    }

    /** The controller's decision: whom to open channels to, and of what size. The channels were read under an earlier
        lock. The heuristic is asked about all reachable nodes but the agent itself and those it is busy with, connected to,
        or has failed with, and scores only nodes it is asked about. Somebody is picked exactly if there is room and
        somebody with weight, and everything picked is within the limits together with the channels read. Nothing happens
        while the draws have not settled the choice. */
    method PickCandidates(channels: seq<LocalChannel>, graph: seq<GraphNode>,
                          heuristic: set<NodeID> -> map<NodeID, NodeScore>, draws: seq<real>)
      returns (candidates: map<NodeID, nat>, decided: bool, ghost asked: set<NodeID>)
      requires controller == Waiting && limits.Valid()
      requires ScoresOnlyAsked(heuristic)
      requires InUnit(draws)
      modifies this`controller
      ensures decided ==> Enabled(old(State()), Pick(candidates)) && State() == Step(old(State()), Pick(candidates))
      ensures decided ==> controller == Picked(candidates)
      ensures !decided ==> State() == old(State()) && candidates == map[]
      ensures forall n :: n in asked <==> GraphNode(n, true) in graph && Free(n)
      ensures candidates.Keys <= heuristic(asked).Keys
      ensures forall n | n in candidates :: GraphNode(n, true) in graph && Free(n)
      ensures decided ==>
                (candidates != map[] <==> Room(limits, channels, totalBalance) && Positive(heuristic(asked)) != {})
      ensures Sized(limits, candidates, totalBalance)
      ensures candidates != map[] ==> |channels| + |candidates| <= limits.chanLimit
      ensures candidates != map[] ==>
                (Balances(channels) + TotalSize(candidates)) as real
                <= Share(limits.allocation, totalBalance + Balances(channels))
    {
      hide Share, Balances, Sized, MergeNodeMaps, Positive, ScoresOnlyAsked, TotalSize, InUnit, NonZero, Room, UsedUp;
      var skips := MergeSkips();
      var nodes := Eligible(graph, skips);
      asked := nodes;
      Asked(heuristic, nodes);
      var scores := heuristic(nodes);
      candidates, decided := PlanDispatch(limits, channels, totalBalance, scores, draws);
      if decided {
        controller := Picked(candidates);
      }
    }

    /** Not the agent itself, and neither busy, connected nor failed. */
    ghost predicate Free(n: NodeID)
      reads this
    {
      n != self && n !in failedNodes && n !in pendingConns && n !in pendingOpens && !HasChannel(chanState, n)
    }

    /** One round without any directive in between: the agent's own channels, those being opened included, stay within the
        channel limit and the share of all its funds. */
    method Dispatch(graph: seq<GraphNode>, heuristic: set<NodeID> -> map<NodeID, NodeScore>, draws: seq<real>)
      returns (candidates: map<NodeID, nat>, decided: bool)
      requires controller == Waiting && limits.Valid()
      requires ScoresOnlyAsked(heuristic)
      requires InUnit(draws)
      modifies this`controller
      ensures decided ==> Enabled(old(State()), Pick(candidates)) && State() == Step(old(State()), Pick(candidates))
      ensures !decided ==> State() == old(State()) && candidates == map[]
      ensures forall n | n in candidates :: GraphNode(n, true) in graph && Free(n)
      ensures Sized(limits, candidates, totalBalance)
      ensures candidates != map[] ==> |chanState| + |pendingOpens| + |candidates| <= limits.chanLimit
      ensures candidates != map[] ==>
                var inChannels := InChannels(chanState) + InChannels(pendingOpens);
                (inChannels + TotalSize(candidates)) as real <= Share(limits.allocation, totalBalance + inChannels)
    {
      hide Share, Balances, Sized, InChannels, TotalSize, AllChannels, ScoresOnlyAsked, InUnit, Step, Enabled, Free;
      hide AgentState.MergeNodeMaps, ConnectedNodes, BalancesOf, Room, Positive;
      var total;
      ghost var ids, nodes, asked;
      total, ids, nodes := MergeChanState();
      candidates, decided, asked := PickCandidates(total, graph, heuristic, draws);
    }

    /** Launches a directive for every candidate, unless the pending opens are at their limit. */
    method LaunchCandidates() returns (ghost order: seq<NodeID>)
      requires controller.Picked?
      modifies this
      ensures Enabled(old(State()), Launch(order)) && State() == Step(old(State()), Launch(order))
    {
      hide LaunchOne;
      var candidates := controller.candidates;
      order := [];
      var left := candidates.Keys;
      if |pendingOpens| % 0x10000 >= limits.maxPendingOpens {
        order := ListKeys(left);
        controller := Waiting;
        return;
      }
      ghost var start := State();
      while left != {}
        invariant left <= candidates.Keys
        invariant forall n :: n in order <==> n in candidates && n !in left
        invariant forall i, j | 0 <= i < j < |order| :: order[i] != order[j]
        invariant State() == LaunchAll(start, candidates, order)
        decreases left
      {
        var n :| n in left;
        left := left - {n};
        LaunchAllAppend(start, candidates, order, n);
        order := order + [n];
        StartDirective(n, candidates[n]);
      }
      controller := Waiting;
    }

    /** A directive is started for a candidate that is not being connected to. */
    method StartDirective(n: NodeID, amount: nat)
      modifies this`pendingConns, this`directives, this`nextDirective
      ensures State() == LaunchOne(old(State()), n, amount)
    {
      if n !in pendingConns {
        pendingConns := pendingConns + {n};
        directives := directives[nextDirective := Directive(n, amount, Connecting)];
        nextDirective := nextDirective + 1;
      }
    }

    // ----- the sections of a directive -----

    method OnConnectFailure(d: nat)
      requires Enabled(State(), ConnectFailed(d))
      modifies this
      ensures State() == Step(old(State()), ConnectFailed(d))
      ensures pendingConns == old(pendingConns) - {old(directives)[d].node}
      ensures failedNodes == old(failedNodes) + {old(directives)[d].node}
      ensures pendingOpens == old(pendingOpens) && directives == old(directives) - {d}
    {
      var nodeID := directives[d].node;
      pendingConns := pendingConns - {nodeID};
      failedNodes := failedNodes + {nodeID};
      directives := directives - {d};
    }

    /** The peer is connected: the channel is opened only if a slot is still free. */
    method OnConnected(d: nat) returns (open: bool)
      requires Enabled(State(), Connected(d))
      modifies this
      ensures open == !NoSlot(old(State()))
      ensures State() == Step(old(State()), Connected(d))
      ensures pendingConns == old(pendingConns) - {old(directives)[d].node} && failedNodes == old(failedNodes)
      ensures var directive := old(directives)[d];
              if open
              then pendingOpens == old(pendingOpens)[directive.node := LocalChannel(0, directive.amount, directive.node)]
                   && directives == old(directives)[d := Directive(directive.node, directive.amount, Opening)]
              else pendingOpens == old(pendingOpens) && directives == old(directives) - {d}
    {
      var nodeID := directives[d].node;
      if |pendingOpens| % 0x10000 >= limits.maxPendingOpens {
        pendingConns := pendingConns - {nodeID};
        directives := directives - {d};
        return false;
      }
      pendingConns := pendingConns - {nodeID};
      pendingOpens := pendingOpens[nodeID := LocalChannel(0, directives[d].amount, nodeID)];
      directives := directives[d := directives[d].(phase := Opening)];
      return true;
    }

    method OnOpenResult(d: nat, ok: bool)
      requires Enabled(State(), OpenStarted(d))
      modifies this
      ensures Enabled(old(State()), OpenFailed(d))
      ensures State() == Step(old(State()), if ok then OpenStarted(d) else OpenFailed(d))
      ensures directives == old(directives) - {d} && pendingConns == old(pendingConns)
      ensures pendingOpens == if ok then old(pendingOpens) else old(pendingOpens) - {old(directives)[d].node}
      ensures failedNodes == if ok then old(failedNodes) else old(failedNodes) + {old(directives)[d].node}
    {
      if !ok {
        var nodeID := directives[d].node;
        pendingOpens := pendingOpens - {nodeID};
        failedNodes := failedNodes + {nodeID};
      }
      directives := directives - {d};
    }
  }

  ghost predicate HasChannel(chans: map<nat, LocalChannel>, n: NodeID) {
    exists c :: c in chans && chans[c].node == n
  }

  /** All nodes of the graph with an address, other than the agent's own and the skipped ones. */
  ghost predicate EligibleNodes(self: NodeID, graph: seq<GraphNode>, skips: set<NodeID>, nodes: set<NodeID>) {
    forall n :: n in nodes <==> n != self && n !in skips && GraphNode(n, true) in graph
  }

  /** A heuristic scores no node that it was not asked about, and gives no negative scores. */
  ghost predicate ScoresOnlyAsked(heuristic: set<NodeID> -> map<NodeID, NodeScore>) {
    forall nodes :: heuristic(nodes).Keys <= nodes && forall n | n in heuristic(nodes) :: heuristic(nodes)[n].score >= 0.0
  }

  lemma Asked(heuristic: set<NodeID> -> map<NodeID, NodeScore>, nodes: set<NodeID>)
    requires ScoresOnlyAsked(heuristic)
    ensures heuristic(nodes).Keys <= nodes
    ensures forall n | n in heuristic(nodes) :: heuristic(nodes)[n].score >= 0.0
  {
  }

  method ListKeys(keys: set<NodeID>) returns (ghost order: seq<NodeID>)
    ensures Lists(order, keys)
  {
    order := [];
    ghost var left := keys;
    while left != {}
      invariant left <= keys
      invariant forall n :: n in order <==> n in keys && n !in left
      invariant forall i, j | 0 <= i < j < |order| :: order[i] != order[j]
      decreases left
    {
      ghost var n :| n in left;
      left := left - {n};
      order := order + [n];
    }
  }

  lemma {:induction false} LaunchAllAppend(s: AgentState.State, candidates: map<NodeID, nat>, order: seq<NodeID>, n: NodeID)
    requires n in candidates && forall k | k in order :: k in candidates
    ensures forall k | k in order + [n] :: k in candidates
    ensures LaunchAll(s, candidates, order + [n]) == LaunchOne(LaunchAll(s, candidates, order), n, candidates[n])
    decreases |order|
  {
    if order == [] {
      assert ([] + [n])[1..] == [];
    } else {
      LaunchAllAppend(LaunchOne(s, order[0], candidates[order[0]]), candidates, order[1..], n);
      assert (order + [n])[1..] == order[1..] + [n];
    }
  }

  // ----- the channels of a map -----

  /** The values of a map in some iteration order of its keys. */
  ghost predicate ValuesInOrder<K(!new), V>(values: seq<V>, order: seq<K>, m: map<K, V>) {
    && |values| == |order|
    && (forall k :: k in order <==> k in m)
    && (forall i, j | 0 <= i < j < |order| :: order[i] != order[j])
    && (forall i | 0 <= i < |order| :: order[i] in m && values[i] == m[order[i]])
  }

  ghost predicate AllChannels(total: seq<LocalChannel>, ids: seq<nat>, nodes: seq<NodeID>, active: map<nat, LocalChannel>,
                              pending: map<NodeID, LocalChannel>) {
    && |total| == |ids| + |nodes|
    && ValuesInOrder(total[..|ids|], ids, active)
    && ValuesInOrder(total[|ids|..], nodes, pending)
  }

  lemma {:induction false} ValuesBalance<K(!new)>(values: seq<LocalChannel>, order: seq<K>, m: map<K, LocalChannel>)
    requires ValuesInOrder(values, order, m)
    ensures Balances(values) == InChannels(m)
    decreases |order|
  {
    hide InChannels;
    if order == [] {
      NoChannels(m);
    } else {
      var n := |order| - 1;
      LastValue(values, order, m);
      ValuesBalance(values[..n], order[..n], m - {order[n]});
      InChannelsWithout(m, order[n]);
    }
  }

  lemma NoChannels<K(!new)>(m: map<K, LocalChannel>)
    requires forall k :: k !in m
    ensures InChannels(m) == 0
  {
    hide BalancesOf;
    assert BalancesOf(m) == map[];
  }

  lemma LastValue<K(!new), V>(values: seq<V>, order: seq<K>, m: map<K, V>)
    requires ValuesInOrder(values, order, m) && order != []
    ensures var n := |order| - 1;
            && order[n] in m && values[n] == m[order[n]]
            && ValuesInOrder(values[..n], order[..n], m - {order[n]})
  {
    var n := |order| - 1;
    assert order == order[..n] + [order[n]];
    assert order[n] !in order[..n];
  }

  lemma ListedLength<K(!new), V>(values: seq<V>, order: seq<K>, m: map<K, V>)
    requires ValuesInOrder(values, order, m)
    ensures |values| == |order|
  {
  }

  method MapValues<K(==, !new), V>(m: map<K, V>) returns (values: seq<V>, ghost order: seq<K>)
    ensures ValuesInOrder(values, order, m) && |values| == |m|
  {
    values, order := [], [];
    var left := m.Keys;
    while left != {}
      invariant left <= m.Keys && |values| + |left| == |m|
      invariant |values| == |order|
      invariant forall k :: k in order <==> k in m && k !in left
      invariant forall i, j | 0 <= i < j < |order| :: order[i] != order[j]
      invariant forall i | 0 <= i < |order| :: order[i] in m && values[i] == m[order[i]]
    {
      var k :| k in left;
      left := left - {k};
      values, order := values + [m[k]], order + [k];
    }
  }
}
