/** The autopilot agent as a state machine: the controller and any number of directives take turns, one section under
    the mutex at a time. */
module AgentState {
  import opened Choice
  import opened Constraints

  /** A directive is connecting to its node, or has a channel being opened. */
  datatype Phase = Connecting | Opening

  datatype Directive = Directive(node: NodeID, amount: nat, phase: Phase)

  /** The controller waits for a signal, or has picked candidates under an earlier lock and is about to launch them. */
  datatype Controller = Waiting | Picked(candidates: map<NodeID, nat>)

  datatype State = State(
    limits: Limits,
    chanState: map<nat, LocalChannel>,
    totalBalance: nat,
    failedNodes: set<NodeID>,
    pendingConns: set<NodeID>,
    pendingOpens: map<NodeID, LocalChannel>,
    controller: Controller,
    directives: map<nat, Directive>,
    nextDirective: nat)

  datatype Event =
    | ChannelOpened(channel: LocalChannel)
    | ChannelsClosed(ids: set<nat>)
    | BalanceRead(balance: nat)
    | Pick(candidates: map<NodeID, nat>)
    | Launch(order: seq<NodeID>)
    | ConnectFailed(d: nat)
    | Connected(d: nat)
    | OpenFailed(d: nat)
    | OpenStarted(d: nat)
    | Abandoned(d: nat)

  function ConnectedNodes(chans: map<nat, LocalChannel>): set<NodeID> {
    set c | c in chans :: chans[c].node
  }

  function MergeNodeMaps(s: State): set<NodeID> {
    s.pendingOpens.Keys + s.pendingConns + ConnectedNodes(s.chanState) + s.failedNodes
  }

  /** The comparison is made on 16 bits. */
  predicate NoSlot(s: State) {
    |s.pendingOpens| % 0x10000 >= s.limits.maxPendingOpens
  }

  function LaunchOne(s: State, n: NodeID, amount: nat): State {
    if n in s.pendingConns then s
    else s.(pendingConns := s.pendingConns + {n},
            directives := s.directives[s.nextDirective := Directive(n, amount, Connecting)],
            nextDirective := s.nextDirective + 1)
  }

  /** Starts a directive for every candidate that is not being connected to already. */
  function LaunchAll(s: State, candidates: map<NodeID, nat>, order: seq<NodeID>): State
    requires forall n | n in order :: n in candidates
    decreases |order|
  {
    if order == [] then s
    else LaunchAll(LaunchOne(s, order[0], candidates[order[0]]), candidates, order[1..])
  }

  /** A map's keys in some iteration order, each once. */
  ghost predicate Lists(order: seq<NodeID>, keys: set<NodeID>) {
    && (forall n :: n in order <==> n in keys)
    && (forall i, j | 0 <= i < j < |order| :: order[i] != order[j])
  }

  ghost predicate Enabled(s: State, e: Event) {
    match e
    case ChannelOpened(_) => s.controller == Waiting
    case ChannelsClosed(_) => s.controller == Waiting
    case BalanceRead(_) => s.controller == Waiting
    case Pick(candidates) => s.controller == Waiting && candidates.Keys !! MergeNodeMaps(s)
    case Launch(order) => s.controller.Picked? && Lists(order, s.controller.candidates.Keys)
    case ConnectFailed(d) => d in s.directives && s.directives[d].phase == Connecting
    case Connected(d) => d in s.directives && s.directives[d].phase == Connecting
    case OpenFailed(d) => d in s.directives && s.directives[d].phase == Opening
    case OpenStarted(d) => d in s.directives && s.directives[d].phase == Opening
    case Abandoned(d) => d in s.directives && s.directives[d].phase == Connecting
  }

  function Step(s: State, e: Event): State
    requires Enabled(s, e)
  {
    match e
    case ChannelOpened(c) =>
      s.(chanState := s.chanState[c.chanID := c], pendingOpens := s.pendingOpens - {c.node})
    case ChannelsClosed(ids) => s.(chanState := s.chanState - ids)
    case BalanceRead(balance) => s.(totalBalance := balance)
    case Pick(candidates) => s.(controller := Picked(candidates))
    case Launch(order) =>
      var t := if NoSlot(s) then s else LaunchAll(s, s.controller.candidates, order);
      t.(controller := Waiting)
    case ConnectFailed(d) =>
      var n := s.directives[d].node;
      s.(pendingConns := s.pendingConns - {n}, failedNodes := s.failedNodes + {n}, directives := s.directives - {d})
    case Connected(d) =>
      var n := s.directives[d].node;
      if NoSlot(s) then s.(pendingConns := s.pendingConns - {n}, directives := s.directives - {d})
      else s.(pendingConns := s.pendingConns - {n},
              pendingOpens := s.pendingOpens[n := LocalChannel(0, s.directives[d].amount, n)],
              directives := s.directives[d := s.directives[d].(phase := Opening)])
    case OpenFailed(d) =>
      var n := s.directives[d].node;
      s.(pendingOpens := s.pendingOpens - {n}, failedNodes := s.failedNodes + {n}, directives := s.directives - {d})
    case OpenStarted(d) => s.(directives := s.directives - {d})
    case Abandoned(d) => s.(directives := s.directives - {d})
  }

  // ----- safety -----

  /** Never more pending opens than allowed, and no node is both being connected to and having a channel opened. */
  ghost predicate Bounded(s: State) {
    && s.limits.Valid()
    && |s.pendingOpens| <= s.limits.maxPendingOpens
    && s.pendingConns !! s.pendingOpens.Keys
  }

  /** Every connecting directive holds its node, and no node is held by two. */
  ghost predicate OnePerNode(s: State) {
    && (forall d | d in s.directives :: d < s.nextDirective)
    && (forall d | d in s.directives && s.directives[d].phase == Connecting :: s.directives[d].node in s.pendingConns)
    && (forall d, e | d in s.directives && e in s.directives
                      && s.directives[d].phase == Connecting && s.directives[e].phase == Connecting
                      && s.directives[d].node == s.directives[e].node :: d == e)
  }

  /** What was picked under the earlier lock is still free when it is launched. */
  ghost predicate StillFree(s: State) {
    s.controller.Picked? ==>
      s.controller.candidates.Keys !! s.pendingConns && s.controller.candidates.Keys !! s.pendingOpens.Keys
  }

  ghost predicate Inv(s: State) {
    Bounded(s) && OnePerNode(s) && StillFree(s)
  }

  /** While |pendingOpens| is within its bound the 16-bit comparison is exact. */
  lemma NoSlotExact(s: State)
    requires Bounded(s)
    ensures NoSlot(s) <==> |s.pendingOpens| >= s.limits.maxPendingOpens
  {
  }

  ghost predicate Held(s: State, order: seq<NodeID>) {
    forall n | n in order :: n in s.pendingConns
  }

  lemma {:induction false} LaunchAllInv(s: State, candidates: map<NodeID, nat>, order: seq<NodeID>)
    requires forall n | n in order :: n in candidates
    requires Bounded(s) && OnePerNode(s)
    requires forall n | n in order :: n !in s.pendingOpens
    ensures Bounded(LaunchAll(s, candidates, order)) && OnePerNode(LaunchAll(s, candidates, order))
    decreases |order|
  {
    if order != [] {
      LaunchAllInv(LaunchOne(s, order[0], candidates[order[0]]), candidates, order[1..]);
    }
  }

  lemma ConnectedInv(s: State, d: nat)
    requires Inv(s) && Enabled(s, Connected(d))
    ensures Inv(Step(s, Connected(d)))
  {
    var n, t := s.directives[d].node, Step(s, Connected(d));
    NoSlotExact(s);
    if !NoSlot(s) {
      assert t.pendingOpens.Keys == s.pendingOpens.Keys + {n};
    }
  }

  lemma KeysFewer(m: map<NodeID, LocalChannel>, n: NodeID)
    ensures |m - {n}| <= |m|
  {
    assert (m - {n}).Keys == m.Keys - {n};
  }

  lemma StepInv(s: State, e: Event)
    requires Inv(s) && Enabled(s, e)
    ensures Inv(Step(s, e))
  {
    match e
    case ChannelOpened(c) => KeysFewer(s.pendingOpens, c.node);
    case Launch(order) =>
      if !NoSlot(s) {
        LaunchAllInv(s, s.controller.candidates, order);
      }
    case Connected(d) => ConnectedInv(s, d);
    case OpenFailed(d) => KeysFewer(s.pendingOpens, s.directives[d].node);
    case _ =>
  }

  function Initial(limits: Limits, chans: map<nat, LocalChannel>): State {
    State(limits, chans, 0, {}, {}, map[], Waiting, map[], 0)
  }

  ghost predicate IsRun(s: State, events: seq<Event>)
    decreases |events|
  {
    events == [] || (Enabled(s, events[0]) && IsRun(Step(s, events[0]), events[1..]))
  }

  function After(s: State, events: seq<Event>): State
    requires IsRun(s, events)
    decreases |events|
  {
    if events == [] then s else After(Step(s, events[0]), events[1..])
  }

  lemma {:induction false} RunInv(s: State, events: seq<Event>)
    requires Inv(s) && IsRun(s, events)
    ensures Inv(After(s, events))
    decreases |events|
  {
    hide Inv, Step, Enabled;
    if events != [] {
      StepInv(s, events[0]);
      RunInv(Step(s, events[0]), events[1..]);
    }
  }

  /** Whatever the interleaving of the controller with the directives, the bounds hold. */
  lemma EveryRunIsSafe(limits: Limits, chans: map<nat, LocalChannel>, events: seq<Event>)
    requires limits.Valid() && IsRun(Initial(limits, chans), events)
    ensures var s := After(Initial(limits, chans), events);
            && |s.pendingOpens| <= limits.maxPendingOpens
            && s.pendingConns !! s.pendingOpens.Keys
            && OnePerNode(s) && StillFree(s)
  {
    hide IsRun, After, Step;
    RunInv(Initial(limits, chans), events);
    LimitsFixed(Initial(limits, chans), events);
  }

  lemma {:induction false} LaunchAllLimits(s: State, candidates: map<NodeID, nat>, order: seq<NodeID>)
    requires forall n | n in order :: n in candidates
    ensures LaunchAll(s, candidates, order).limits == s.limits
    decreases |order|
  {
    if order != [] {
      LaunchAllLimits(LaunchOne(s, order[0], candidates[order[0]]), candidates, order[1..]);
    }
  }

  lemma {:induction false} LimitsFixed(s: State, events: seq<Event>)
    requires IsRun(s, events)
    ensures After(s, events).limits == s.limits
    decreases |events|
  {
    if events != [] {
      if events[0].Launch? {
        LaunchAllLimits(s, s.controller.candidates, events[0].order);
      }
      LimitsFixed(Step(s, events[0]), events[1..]);
    }
  }

  /** Although the skip set was read under an earlier lock, none of the candidates is being connected to when they are
      launched: each gets its own directive. */
  lemma {:induction false} LaunchStartsAll(s: State, candidates: map<NodeID, nat>, order: seq<NodeID>)
    requires forall n | n in order :: n in candidates && n !in s.pendingConns
    requires forall i, j | 0 <= i < j < |order| :: order[i] != order[j]
    ensures LaunchAll(s, candidates, order).nextDirective == s.nextDirective + |order|
    ensures Held(LaunchAll(s, candidates, order), order)
    ensures s.pendingConns <= LaunchAll(s, candidates, order).pendingConns
    decreases |order|
  {
    if order != [] {
      var n := order[0];
      assert forall i | 1 <= i < |order| :: order[1..][i - 1] == order[i];
      LaunchStartsAll(LaunchOne(s, n, candidates[n]), candidates, order[1..]);
      assert order == [n] + order[1..];
    }
  }

  lemma {:induction false} LaunchKeeps(s: State, candidates: map<NodeID, nat>, order: seq<NodeID>, d: nat)
    requires forall n | n in order :: n in candidates
    requires d in s.directives && d < s.nextDirective
    ensures d in LaunchAll(s, candidates, order).directives
    ensures LaunchAll(s, candidates, order).directives[d] == s.directives[d]
    decreases |order|
  {
    if order != [] {
      LaunchKeeps(LaunchOne(s, order[0], candidates[order[0]]), candidates, order[1..], d);
    }
  }

  lemma {:induction false} LaunchGives(s: State, candidates: map<NodeID, nat>, order: seq<NodeID>, i: nat)
    requires forall n | n in order :: n in candidates && n !in s.pendingConns
    requires forall i, j | 0 <= i < j < |order| :: order[i] != order[j]
    requires i < |order|
    ensures var d, t := s.nextDirective + i, LaunchAll(s, candidates, order);
            d in t.directives && t.directives[d] == Directive(order[i], candidates[order[i]], Connecting)
    decreases |order|
  {
    var t := LaunchOne(s, order[0], candidates[order[0]]);
    assert forall k | 1 <= k < |order| :: order[1..][k - 1] == order[k];
    if i == 0 {
      LaunchKeeps(t, candidates, order[1..], s.nextDirective);
    } else {
      LaunchGives(t, candidates, order[1..], i - 1);
    }
  }

  lemma {:induction false} LaunchTouches(s: State, candidates: map<NodeID, nat>, order: seq<NodeID>)
    requires forall n | n in order :: n in candidates
    ensures var t := LaunchAll(s, candidates, order);
            && t == s.(pendingConns := t.pendingConns, directives := t.directives, nextDirective := t.nextDirective)
            && t.pendingConns == s.pendingConns + (set n | n in order)
    decreases |order|
  {
    if order != [] {
      assert order == [order[0]] + order[1..];
      LaunchTouches(LaunchOne(s, order[0], candidates[order[0]]), candidates, order[1..]);
    }
  }

  /** At the limit of pending opens nothing is launched. Otherwise every candidate is marked, and gets a new directive of its
      own with the amount picked for it. */
  lemma LaunchIsFresh(s: State, order: seq<NodeID>)
    requires Inv(s) && Enabled(s, Launch(order))
    ensures var t, candidates := Step(s, Launch(order)), s.controller.candidates;
            if |s.pendingOpens| >= s.limits.maxPendingOpens then t == s.(controller := Waiting)
            else
              && t == s.(pendingConns := s.pendingConns + candidates.Keys, directives := t.directives,
                         nextDirective := s.nextDirective + |candidates|, controller := Waiting)
              && (forall i | 0 <= i < |order| :: StartedAt(t.directives, s.nextDirective + i, order[i], candidates))
              && (forall d | d in s.directives :: d in t.directives && t.directives[d] == s.directives[d])
  {
    hide LaunchAll, StartedAt;
    FreeSlot(s);
    if !NoSlot(s) {
      LaunchAllEffect(s, s.controller.candidates, order);
    }
  }

  lemma LaunchAllEffect(s: State, candidates: map<NodeID, nat>, order: seq<NodeID>)
    requires Lists(order, candidates.Keys)
    requires forall n | n in order :: n in candidates && n !in s.pendingConns
    requires forall d | d in s.directives :: d < s.nextDirective
    ensures var t := LaunchAll(s, candidates, order);
            && t == s.(pendingConns := s.pendingConns + candidates.Keys, directives := t.directives,
                       nextDirective := s.nextDirective + |candidates|)
            && (forall i | 0 <= i < |order| :: StartedAt(t.directives, s.nextDirective + i, order[i], candidates))
            && (forall d | d in s.directives :: d in t.directives && t.directives[d] == s.directives[d])
  {
    hide LaunchAll, StartedAt, Held;
    var t := LaunchAll(s, candidates, order);
    LaunchTouches(s, candidates, order);
    LaunchStartsAll(s, candidates, order);
    ListLength(order, candidates.Keys);
    assert (set n | n in order) == candidates.Keys;
    forall i | 0 <= i < |order| ensures StartedAt(t.directives, s.nextDirective + i, order[i], candidates) {
      LaunchStarts(s, candidates, order, i);
    }
    forall d | d in s.directives ensures d in t.directives && t.directives[d] == s.directives[d] {
      LaunchKeeps(s, candidates, order, d);
    }
  }

  lemma FreeSlot(s: State)
    requires Bounded(s) && OnePerNode(s)
    ensures NoSlot(s) <==> |s.pendingOpens| >= s.limits.maxPendingOpens
    ensures forall d | d in s.directives :: d < s.nextDirective
  {
    NoSlotExact(s);
  }

  lemma LaunchStarts(s: State, candidates: map<NodeID, nat>, order: seq<NodeID>, i: nat)
    requires forall n | n in order :: n in candidates && n !in s.pendingConns
    requires forall i, j | 0 <= i < j < |order| :: order[i] != order[j]
    requires i < |order|
    ensures StartedAt(LaunchAll(s, candidates, order).directives, s.nextDirective + i, order[i], candidates)
  {
    LaunchGives(s, candidates, order, i);
    assert order[i] in order;
  }

  ghost predicate StartedAt(directives: map<nat, Directive>, d: nat, n: NodeID, candidates: map<NodeID, nat>) {
    d in directives && n in candidates && directives[d] == Directive(n, candidates[n], Connecting)
  }

  /** What each other section does to the fields. */
  lemma SectionEffects(s: State, e: Event)
    requires Inv(s) && Enabled(s, e)
    ensures var t := Step(s, e);
            match e
            case ChannelOpened(c) =>
              t == s.(chanState := s.chanState[c.chanID := c], pendingOpens := s.pendingOpens - {c.node})
            case ChannelsClosed(ids) => t == s.(chanState := s.chanState - ids)
            case BalanceRead(balance) => t == s.(totalBalance := balance)
            case Pick(candidates) =>
              && t == s.(controller := Picked(candidates))
              && (forall n | n in candidates :: n !in s.failedNodes && n !in s.pendingConns && n !in s.pendingOpens)
              && (forall c | c in s.chanState :: s.chanState[c].node !in candidates)
            case Launch(_) => t.controller == Waiting
            case ConnectFailed(d) =>
              var n := s.directives[d].node;
              && t.pendingConns == s.pendingConns - {n} && t.failedNodes == s.failedNodes + {n}
              && t.pendingOpens == s.pendingOpens && d !in t.directives
            case Connected(d) =>
              var n := s.directives[d].node;
              && t.pendingConns == s.pendingConns - {n} && t.failedNodes == s.failedNodes
              && if |s.pendingOpens| >= s.limits.maxPendingOpens then t.pendingOpens == s.pendingOpens && d !in t.directives
                 else t.pendingOpens == s.pendingOpens[n := LocalChannel(0, s.directives[d].amount, n)]
                      && d in t.directives && t.directives[d].phase == Opening
            case OpenFailed(d) =>
              var n := s.directives[d].node;
              && t.pendingOpens == s.pendingOpens - {n} && t.failedNodes == s.failedNodes + {n}
              && t.pendingConns == s.pendingConns && d !in t.directives
            case OpenStarted(d) => t == s.(directives := s.directives - {d})
            case Abandoned(d) => t == s.(directives := s.directives - {d})
  {
    NoSlotExact(s);
    if e.Pick? {
      forall c | c in s.chanState ensures s.chanState[c].node !in e.candidates {
        assert s.chanState[c].node in MergeNodeMaps(s);
      }
    }
  }

  /** A node that has failed is never picked again, however the run goes on. */
  lemma {:induction false} FailedStaysOut(s: State, events: seq<Event>, n: NodeID, candidates: map<NodeID, nat>)
    requires IsRun(s, events) && n in s.failedNodes
    ensures n in After(s, events).failedNodes
    ensures Enabled(After(s, events), Pick(candidates)) ==> n !in candidates
    decreases |events|
  {
    if events != [] {
      StepKeepsFailed(s, events[0]);
      FailedStaysOut(Step(s, events[0]), events[1..], n, candidates);
    } else if n in candidates {
      assert n in MergeNodeMaps(s);
    }
  }

  lemma StepKeepsFailed(s: State, e: Event)
    requires Enabled(s, e)
    ensures s.failedNodes <= Step(s, e).failedNodes
  {
    if e.Launch? {
      LaunchTouches(s, s.controller.candidates, e.order);
    }
  }

  lemma {:induction false} ListLength(order: seq<NodeID>, keys: set<NodeID>)
    requires Lists(order, keys)
    ensures |order| == |keys|
  {
    if order == [] {
      assert keys == {};
    } else {
      var m := |order| - 1;
      assert order == order[..m] + [order[m]];
      ListLength(order[..m], keys - {order[m]});
    }
  }
}
