/** The preimage beacon: a cache of preimages with subscribers. Adding preimages writes the cache before the lock is taken,
    and goroutines fill the subscribers' channels after it is let go. */
module BeaconState {
  import opened Options
  import opened Shares

  type Preimage = Share
  type Hash = Share
  type Id = nat
  type Call = nat

  const CAPACITY := 10

  /** A preimage put into a channel by the goroutine of one call. */
  datatype Sent = Sent(call: Call, preimage: Preimage)

  /** A subscriber: all that was ever put into its channel, how much of that was taken out, and the goroutines that serve
      it, by call, with what they have still to send. A subscriber whose interceptor failed was never handed out. */
  datatype Client = Client(handed: bool, quit: bool, sent: seq<Sent>, taken: nat, runners: map<Call, seq<Preimage>>)

  /** A call that has notified, and whom. */
  datatype Completed = Completed(batch: seq<Preimage>, to: set<Id>)

  datatype State = State(cache: map<Hash, Preimage>, clientCounter: Id, subscribers: set<Id>, clients: map<Id, Client>,
                         calls: Call, pending: map<Call, seq<Preimage>>, done: map<Call, Completed>)

  datatype Event =
    | Subscribe(intercepted: bool)
    | Cancel(id: Id)
    | Write(batch: seq<Preimage>, ok: bool)
    | Notify(call: Call)
    | Send(call: Call, id: Id)
    | Stop(call: Call, id: Id)
    | Receive(id: Id)

  const START := State(map[], 0, {}, map[], 0, map[], map[])

  // ----- the steps -----

  /** A subscription can be cancelled once, by whoever was handed it; a goroutine sends when there is room, and may stop
      once its client has quit. */
  predicate Enabled(s: State, e: Event) {
    match e
    case Subscribe(intercepted) => true
    case Cancel(id) => id in s.clients && s.clients[id].handed && !s.clients[id].quit
    case Write(batch, ok) => true
    case Notify(call) => call in s.pending
    case Send(call, id) => id in s.clients && call in s.clients[id].runners && s.clients[id].runners[call] != []
                           && |s.clients[id].sent| < s.clients[id].taken + CAPACITY
    case Stop(call, id) => id in s.clients && call in s.clients[id].runners && s.clients[id].quit
    case Receive(id) => id in s.clients && s.clients[id].handed && s.clients[id].taken < |s.clients[id].sent|
  }

  function Cached(sha: Digest, cache: map<Hash, Preimage>, batch: seq<Preimage>): map<Hash, Preimage> {
    if batch == [] then cache
    else
      var last := batch[|batch| - 1];
      Cached(sha, cache, batch[..|batch| - 1])[sha(last) := last]
  }

  /** Nothing is done for an empty batch, and nothing after a failed write. */
  function WriteStep(sha: Digest, s: State, batch: seq<Preimage>, ok: bool): State {
    if batch == [] || !ok then s
    else s.(cache := Cached(sha, s.cache, batch), pending := s.pending[s.calls := batch], calls := s.calls + 1)
  }

  function Served(client: Client, call: Call, batch: seq<Preimage>): Client {
    client.(runners := client.runners[call := batch])
  }

  function NotifyStep(s: State, call: Call): State
    requires call in s.pending
  {
    s.(pending := s.pending - {call},
       done := s.done[call := Completed(s.pending[call], s.subscribers)],
       clients := map id | id in s.clients ::
         if id in s.subscribers then Served(s.clients[id], call, s.pending[call]) else s.clients[id])
  }

  function SentOne(client: Client, call: Call): Client
    requires call in client.runners && client.runners[call] != []
  {
    var left := client.runners[call];
    client.(sent := client.sent + [Sent(call, left[0])],
            runners := if |left| == 1 then client.runners - {call} else client.runners[call := left[1..]])
  }

  function Step(sha: Digest, s: State, e: Event): State
    requires Enabled(s, e)
  {
    match e
    case Subscribe(intercepted) =>
      s.(clientCounter := s.clientCounter + 1, subscribers := s.subscribers + {s.clientCounter},
         clients := s.clients[s.clientCounter := Client(intercepted, false, [], 0, map[])])
    case Cancel(id) =>
      s.(subscribers := s.subscribers - {id}, clients := s.clients[id := s.clients[id].(quit := true)])
    case Write(batch, ok) => WriteStep(sha, s, batch, ok)
    case Notify(call) => NotifyStep(s, call)
    case Send(call, id) => s.(clients := s.clients[id := SentOne(s.clients[id], call)])
    case Stop(call, id) => s.(clients := s.clients[id := s.clients[id].(runners := s.clients[id].runners - {call})])
    case Receive(id) => s.(clients := s.clients[id := s.clients[id].(taken := s.clients[id].taken + 1)])
  }

  // ----- the invariant -----

  /** What one call put into a channel, in order. */
  function From(sent: seq<Sent>, call: Call): seq<Preimage> {
    if sent == [] then []
    else
      var last := sent[|sent| - 1];
      From(sent[..|sent| - 1], call) + (if last.call == call then [last.preimage] else [])
  }

  function Left(client: Client, call: Call): seq<Preimage> {
    if call in client.runners then client.runners[call] else []
  }

  ghost predicate Notified(s: State, id: Id, call: Call) {
    call in s.done && id in s.done[call].to
  }

  /** What a call has sent to a client and what it has still to send is its batch, unless the client has quit, when it is a
      first part of the batch; a call that did not notify the client sends it nothing. */
  ghost predicate InOrder(s: State, id: Id, call: Call)
    requires id in s.clients
  {
    var client := s.clients[id];
    if Notified(s, id, call) then
      && (call in client.runners ==> client.runners[call] != [])
      && (call in client.runners || !client.quit ==> From(client.sent, call) + Left(client, call) == s.done[call].batch)
      && From(client.sent, call) <= s.done[call].batch
    else From(client.sent, call) == [] && call !in client.runners
  }

  ghost predicate Deliveries(s: State) {
    forall id, call: Call | id in s.clients :: InOrder(s, id, call)
  }

  ghost predicate Channels(s: State) {
    forall id | id in s.clients ::
      && s.clients[id].taken <= |s.clients[id].sent| <= s.clients[id].taken + CAPACITY
      && (!s.clients[id].handed ==> s.clients[id].taken == 0 && !s.clients[id].quit)
  }

  ghost predicate Known(s: State) {
    && (forall id: Id :: id in s.clients <==> id < s.clientCounter)
    && (forall id: Id :: id in s.subscribers <==> id in s.clients && !s.clients[id].quit)
    && (forall call | call in s.pending :: call < s.calls && call !in s.done)
    && (forall call | call in s.done :: call < s.calls && s.done[call].to <= s.clients.Keys)
  }

  ghost predicate Written(sha: Digest, s: State) {
    && (forall x | x in s.cache :: sha(s.cache[x]) == x)
    && (forall call, p | call in s.pending && p in s.pending[call] :: sha(p) in s.cache)
    && (forall call, p | call in s.done && p in s.done[call].batch :: sha(p) in s.cache)
    && (forall call | call in s.pending :: s.pending[call] != [])
    && (forall call | call in s.done :: s.done[call].batch != [])
  }

  ghost predicate Inv(sha: Digest, s: State) {
    Known(s) && Written(sha, s) && Channels(s) && Deliveries(s)
  }

  lemma {:induction false} CachedKeeps(sha: Digest, cache: map<Hash, Preimage>, batch: seq<Preimage>)
    requires forall x | x in cache :: sha(cache[x]) == x
    ensures forall x | x in Cached(sha, cache, batch) :: sha(Cached(sha, cache, batch)[x]) == x
    ensures forall x | x in cache :: x in Cached(sha, cache, batch)
    ensures forall p | p in batch :: sha(p) in Cached(sha, cache, batch)
  {
    if batch != [] {
      var n := |batch| - 1;
      CachedKeeps(sha, cache, batch[..n]);
      assert batch == batch[..n] + [batch[n]];
    }
  }

  lemma KnownKept(sha: Digest, s: State, e: Event)
    requires Known(s) && Enabled(s, e)
    ensures Known(Step(sha, s, e))
  {
    hide Cached;
  }

  lemma WrittenKept(sha: Digest, s: State, e: Event)
    requires Written(sha, s) && Enabled(s, e)
    ensures Written(sha, Step(sha, s, e))
  {
    hide Cached, SentOne;
    if e.Write? {
      CachedKeeps(sha, s.cache, e.batch);
    }
  }

  lemma ChannelsKept(sha: Digest, s: State, e: Event)
    requires Channels(s) && Enabled(s, e)
    ensures Channels(Step(sha, s, e))
  {
    hide Cached;
  }

  lemma FromNothing(call: Call)
    ensures From([], call) == []
  {
  }

  lemma FromOne(sent: seq<Sent>, one: Sent, call: Call)
    ensures From(sent + [one], call) == From(sent, call) + (if one.call == call then [one.preimage] else [])
  {
    assert (sent + [one])[..|sent|] == sent;
  }

  lemma SendInOrder(sha: Digest, s: State, e: Event, call: Call)
    requires e.Send? && Enabled(s, e) && InOrder(s, e.id, call)
    ensures InOrder(Step(sha, s, e), e.id, call)
  {
    hide From;
    var client := s.clients[e.id];
    FromOne(client.sent, Sent(e.call, client.runners[e.call][0]), call);
    if call == e.call {
      var left := client.runners[call];
      assert From(client.sent, call) + left == From(client.sent, call) + [left[0]] + left[1..];
    }
  }

  lemma SubscribeInOrder(sha: Digest, s: State, e: Event)
    requires e.Subscribe? && Known(s) && Deliveries(s)
    ensures Deliveries(Step(sha, s, e))
  {
    hide From;
    var t := Step(sha, s, e);
    forall id, call: Call | id in t.clients ensures InOrder(t, id, call) {
      if id == s.clientCounter {
        assert !Notified(s, id, call);
        FromNothing(call);
      } else {
        assert InOrder(s, id, call);
      }
    }
  }

  lemma NotifyInOrder(sha: Digest, s: State, e: Event)
    requires e.Notify? && Enabled(s, e) && Known(s) && Written(sha, s) && Deliveries(s)
    ensures Deliveries(Step(sha, s, e))
  {
    hide From;
    var t := Step(sha, s, e);
    forall id, call: Call | id in t.clients ensures InOrder(t, id, call) {
      assert InOrder(s, id, call);
      if call == e.call {
        assert !Notified(s, id, call);
        assert From(t.clients[id].sent, call) == [];
      }
    }
  }

  /** The events that change no more than one client, and neither what it was sent nor whom a call notified. */
  lemma OthersInOrder(sha: Digest, s: State, e: Event)
    requires e.Cancel? || e.Stop? || e.Receive? || e.Write?
    requires Enabled(s, e) && Deliveries(s)
    ensures Deliveries(Step(sha, s, e))
  {
    hide From, Cached;
    var t := Step(sha, s, e);
    forall id, call: Call | id in t.clients ensures InOrder(t, id, call) {
      assert InOrder(s, id, call);
    }
  }

  lemma StepInv(sha: Digest, s: State, e: Event)
    requires Inv(sha, s) && Enabled(s, e)
    ensures Inv(sha, Step(sha, s, e))
  {
    hide Step, Known, Written, Channels, Deliveries, Enabled;
    KnownKept(sha, s, e);
    WrittenKept(sha, s, e);
    ChannelsKept(sha, s, e);
    if e.Subscribe? {
      SubscribeInOrder(sha, s, e);
    } else if e.Notify? {
      NotifyInOrder(sha, s, e);
    } else if e.Send? {
      SendDeliveries(sha, s, e);
    } else {
      OthersInOrder(sha, s, e);
    }
  }

  lemma SendDeliveries(sha: Digest, s: State, e: Event)
    requires e.Send? && Enabled(s, e) && Deliveries(s)
    ensures Deliveries(Step(sha, s, e))
  {
    hide From, SentOne;
    var t := Step(sha, s, e);
    forall id, call: Call | id in t.clients ensures InOrder(t, id, call) {
      assert InOrder(s, id, call);
      if id == e.id {
        SendInOrder(sha, s, e, call);
      }
    }
  }

  // ----- runs -----

  predicate IsRun(sha: Digest, s: State, events: seq<Event>)
    decreases |events|
  {
    events == [] || (Enabled(s, events[0]) && IsRun(sha, Step(sha, s, events[0]), events[1..]))
  }

  function After(sha: Digest, s: State, events: seq<Event>): State
    requires IsRun(sha, s, events)
    decreases |events|
  {
    if events == [] then s else After(sha, Step(sha, s, events[0]), events[1..])
  }

  lemma StartInv(sha: Digest)
    ensures Inv(sha, START)
  {
  }

  lemma {:induction false} RunInv(sha: Digest, s: State, events: seq<Event>)
    requires Inv(sha, s) && IsRun(sha, s, events)
    ensures Inv(sha, After(sha, s, events))
    decreases |events|
  {
    hide Inv, Step, Enabled;
    if events != [] {
      StepInv(sha, s, events[0]);
      RunInv(sha, Step(sha, s, events[0]), events[1..]);
    }
  }

  /** In every run, what an uncancelled client's channel has been sent is made up of the batches of the calls that notified
      it, each in order, each complete once its goroutine is through, and of nothing else. */
  lemma EveryRunDeliversInOrder(sha: Digest, events: seq<Event>, id: Id, call: Call)
    requires IsRun(sha, START, events)
    requires var s := After(sha, START, events); id in s.clients && !s.clients[id].quit
    ensures var s := After(sha, START, events);
            var client := s.clients[id];
            && From(client.sent, call) + Left(client, call) == (if Notified(s, id, call) then s.done[call].batch else [])
            && |client.sent| <= client.taken + CAPACITY
    ensures var s := After(sha, START, events);
            forall i | 0 <= i < |s.clients[id].sent| :: Notified(s, id, s.clients[id].sent[i].call)
  {
    hide From, After, IsRun;
    StartInv(sha);
    RunInv(sha, START, events);
    var s := After(sha, START, events);
    assert InOrder(s, id, call);
    forall i | 0 <= i < |s.clients[id].sent| ensures Notified(s, id, s.clients[id].sent[i].call) {
      assert InOrder(s, id, s.clients[id].sent[i].call);
      SentIsFrom(s.clients[id].sent, i);
    }
  }

  lemma {:induction false} SentIsFrom(sent: seq<Sent>, i: nat)
    requires i < |sent|
    ensures sent[i].preimage in From(sent, sent[i].call)
  {
    var n := |sent| - 1;
    if i < n {
      SentIsFrom(sent[..n], i);
    }
  }

  lemma {:induction false} FromIsSent(sent: seq<Sent>, call: Call, p: Preimage)
    requires p in From(sent, call)
    ensures Sent(call, p) in sent
  {
    if sent != [] {
      var n := |sent| - 1;
      assert sent == sent[..n] + [sent[n]];
      if p in From(sent[..n], call) {
        FromIsSent(sent[..n], call, p);
      }
    }
  }

  // ----- no preimage is lost -----

  /** What no step takes back. */
  ghost predicate Grown(s: State, t: State, id: Id) {
    && id in s.clients && id in t.clients && (s.clients[id].quit ==> t.clients[id].quit)
    && (forall x | x in s.cache :: x in t.cache)
    && (forall call | call in s.done :: call in t.done && t.done[call] == s.done[call])
    && (forall call | call in t.done && call !in s.done :: id in t.done[call].to || t.clients[id].quit)
  }

  lemma StepGrows(sha: Digest, s: State, e: Event, id: Id)
    requires Inv(sha, s) && Enabled(s, e) && id in s.clients
    ensures Grown(s, Step(sha, s, e), id)
  {
    hide Cached, Deliveries;
    if e.Write? {
      CachedKeeps(sha, s.cache, e.batch);
    }
  }

  lemma {:induction false} RunGrows(sha: Digest, s: State, events: seq<Event>, id: Id)
    requires Inv(sha, s) && IsRun(sha, s, events) && id in s.clients
    ensures Grown(s, After(sha, s, events), id)
    decreases |events|
  {
    hide Inv, Step, Enabled;
    if events != [] {
      var next := Step(sha, s, events[0]);
      StepInv(sha, s, events[0]);
      StepGrows(sha, s, events[0], id);
      RunGrows(sha, next, events[1..], id);
    }
  }

  function Lookup(s: State, hash: Hash): Option<Preimage> {
    if hash in s.cache then Some(s.cache[hash]) else None
  }

  /** A client that has subscribed looks up a hash; some call adds a preimage of it, before or after, and has completed by
      the end. Then the lookup found a preimage of the hash, or the call notified the client, or the client has cancelled. */
  lemma NoLostNotification(sha: Digest, before: seq<Event>, after: seq<Event>, id: Id, call: Call, p: Preimage)
    requires IsRun(sha, START, before) && IsRun(sha, After(sha, START, before), after)
    requires id in After(sha, START, before).clients
    requires var t := After(sha, After(sha, START, before), after); call in t.done && p in t.done[call].batch
    ensures var s := After(sha, START, before);
            var t := After(sha, s, after);
            && id in t.clients
            && (|| (Lookup(s, sha(p)).Some? && sha(Lookup(s, sha(p)).value) == sha(p))
                || id in t.done[call].to
                || t.clients[id].quit)
  {
    hide IsRun, After, Deliveries, Channels, Known;
    var s := After(sha, START, before);
    var t := After(sha, s, after);
    StartInv(sha);
    RunInv(sha, START, before);
    RunGrows(sha, s, after, id);
  }

  /** So once the client's goroutines are through and its channel is empty, it has either found or received a preimage. */
  lemma NoLostPreimage(sha: Digest, before: seq<Event>, after: seq<Event>, id: Id, call: Call, p: Preimage)
    requires IsRun(sha, START, before) && IsRun(sha, After(sha, START, before), after)
    requires id in After(sha, START, before).clients && Lookup(After(sha, START, before), sha(p)).None?
    requires var t := After(sha, After(sha, START, before), after);
             call in t.done && p in t.done[call].batch && id in t.clients && !t.clients[id].quit
             && t.clients[id].runners == map[] && t.clients[id].taken == |t.clients[id].sent|
    ensures var client := After(sha, After(sha, START, before), after).clients[id];
            Sent(call, p) in client.sent[..client.taken]
  {
    hide IsRun, After, Channels, Known, Written, From;
    var s := After(sha, START, before);
    var t := After(sha, s, after);
    NoLostNotification(sha, before, after, id, call, p);
    StartInv(sha);
    RunInv(sha, START, before);
    RunInv(sha, s, after);
    assert InOrder(t, id, call);
    FromIsSent(t.clients[id].sent, call, p);
  }

  /** A goroutine is never stuck while its client goes on reading or has quit. */
  lemma RunnerGoesOn(sha: Digest, s: State, id: Id, call: Call)
    requires Inv(sha, s) && id in s.clients && s.clients[id].handed && call in s.clients[id].runners
    ensures Enabled(s, Send(call, id)) || Enabled(s, Receive(id))
    ensures s.clients[id].quit ==> Enabled(s, Stop(call, id))
  {
    hide From;
    assert InOrder(s, id, call);
  }

  /** A subscriber whose interceptor failed is never given up: nobody can cancel it or read from it, so it is notified by
      every later call, and no more than ten preimages ever reach its channel. */
  lemma RefusedStaysSubscribed(sha: Digest, before: seq<Event>, after: seq<Event>, id: Id)
    requires IsRun(sha, START, before) && IsRun(sha, After(sha, START, before), after)
    requires var s := After(sha, START, before); id in s.clients && !s.clients[id].handed
    ensures var t := After(sha, After(sha, START, before), after);
            id in t.clients && id in t.subscribers && |t.clients[id].sent| <= CAPACITY
            && forall call | call in t.done && call !in After(sha, START, before).done :: id in t.done[call].to
  {
    hide IsRun, After, Deliveries, Written;
    var s := After(sha, START, before);
    StartInv(sha);
    RunInv(sha, START, before);
    RunInv(sha, s, after);
    RunGrows(sha, s, after, id);
    RunKeepsRefused(sha, s, after, id);
  }

  lemma StepKeepsRefused(sha: Digest, s: State, e: Event, id: Id)
    requires Enabled(s, e) && Known(s) && id in s.clients && !s.clients[id].handed
    ensures id in Step(sha, s, e).clients && !Step(sha, s, e).clients[id].handed
  {
    hide Cached;
  }

  lemma {:induction false} RunKeepsRefused(sha: Digest, s: State, events: seq<Event>, id: Id)
    requires IsRun(sha, s, events) && Known(s) && id in s.clients && !s.clients[id].handed
    ensures var t := After(sha, s, events); id in t.clients && !t.clients[id].handed
    decreases |events|
  {
    hide Step, Known, Enabled;
    if events != [] {
      KnownKept(sha, s, events[0]);
      StepKeepsRefused(sha, s, events[0], id);
      RunKeepsRefused(sha, Step(sha, s, events[0]), events[1..], id);
    }
  }

  /** The client was never handed out, and its channel is full. */
  ghost predicate Blocked(s: State, id: Id) {
    id in s.clients && !s.clients[id].handed && |s.clients[id].sent| == CAPACITY
  }

  /** Nothing of the client moves any more. */
  ghost predicate Frozen(s: State, t: State, id: Id) {
    && id in s.clients && id in t.clients
    && t.clients[id].handed == s.clients[id].handed && t.clients[id].sent == s.clients[id].sent
    && forall call | call in s.clients[id].runners ::
         call in t.clients[id].runners && t.clients[id].runners[call] == s.clients[id].runners[call]
  }

  lemma BlockedStep(sha: Digest, s: State, e: Event, id: Id)
    requires Inv(sha, s) && Blocked(s, id) && Enabled(s, e)
    ensures Frozen(s, Step(sha, s, e), id)
  {
    hide Cached, Written, Deliveries;
    if e.Notify? {
      assert e.call !in s.clients[id].runners by { PendingNotServed(s, id, e.call); }
    }
  }

  lemma PendingNotServed(s: State, id: Id, call: Call)
    requires Known(s) && Deliveries(s) && id in s.clients && call in s.pending
    ensures call !in s.clients[id].runners
  {
    hide From;
    assert InOrder(s, id, call);
  }

  lemma {:induction false} BlockedRun(sha: Digest, s: State, events: seq<Event>, id: Id)
    requires Inv(sha, s) && Blocked(s, id) && IsRun(sha, s, events)
    ensures Frozen(s, After(sha, s, events), id)
    decreases |events|
  {
    hide Inv, Step, Enabled;
    if events != [] {
      StepInv(sha, s, events[0]);
      BlockedStep(sha, s, events[0], id);
      BlockedRun(sha, Step(sha, s, events[0]), events[1..], id);
    }
  }

  /** Once ten preimages are unread in the channel of such a subscriber, none of its goroutines ever moves or ends again,
      and every later call leaves one more behind, with its whole batch. */
  lemma RefusedBlocksForGood(sha: Digest, before: seq<Event>, after: seq<Event>, id: Id, call: Call)
    requires IsRun(sha, START, before) && IsRun(sha, After(sha, START, before), after)
    requires Blocked(After(sha, START, before), id)
    ensures var s := After(sha, START, before);
            var t := After(sha, s, after);
            && Frozen(s, t, id)
            && !Enabled(t, Send(call, id)) && !Enabled(t, Stop(call, id))
            && (call in t.done && call !in s.done ==>
                  call in t.clients[id].runners && t.clients[id].runners[call] == t.done[call].batch)
  {
    hide IsRun, After, From;
    var s := After(sha, START, before);
    var t := After(sha, s, after);
    StartInv(sha);
    RunInv(sha, START, before);
    RunInv(sha, s, after);
    BlockedRun(sha, s, after, id);
    assert InOrder(s, id, call) && InOrder(t, id, call);
    if call in t.done && call !in s.done {
      RunGrows(sha, s, after, id);
    }
  }

  // ----- what each step does -----

  /** What one step leaves alone unless it is about a client. */
  ghost predicate SameCalls(s: State, t: State) {
    t.cache == s.cache && t.calls == s.calls && t.pending == s.pending && t.done == s.done
  }

  lemma SubscribeEffect(sha: Digest, s: State, intercepted: bool)
    requires Known(s)
    ensures var t, id := Step(sha, s, Subscribe(intercepted)), s.clientCounter;
            && id !in s.clients && id in t.subscribers && t.clientCounter == id + 1
            && t.subscribers == s.subscribers + {id}
            && t.clients == s.clients[id := Client(intercepted, false, [], 0, map[])]
            && SameCalls(s, t)
  {
  }

  /** A cancelled client is told to quit, and no longer subscribed. */
  lemma CancelEffect(sha: Digest, s: State, id: Id)
    requires id in s.clients && s.clients[id].handed && !s.clients[id].quit
    ensures var t := Step(sha, s, Cancel(id));
            && id !in t.subscribers && t.subscribers == s.subscribers - {id}
            && id in t.clients && t.clients[id].quit && t.clients[id] == s.clients[id].(quit := true)
            && (forall c | c in s.clients && c != id :: c in t.clients && t.clients[c] == s.clients[c])
            && SameCalls(s, t)
  {
  }

  /** After a successful write every preimage of the batch is found by its digest, and the call is about to notify. */
  lemma WriteEffect(sha: Digest, s: State, batch: seq<Preimage>, ok: bool)
    requires Known(s) && Written(sha, s)
    ensures var t := Step(sha, s, Write(batch, ok));
            if ok && batch != [] then
              && s.calls !in s.pending && s.calls !in s.done
              && t.pending == s.pending[s.calls := batch] && t.calls == s.calls + 1
              && t.clients == s.clients && t.subscribers == s.subscribers && t.done == s.done
              && (forall p | p in batch :: Lookup(t, sha(p)).Some? && sha(Lookup(t, sha(p)).value) == sha(p))
              && (forall x | x in s.cache :: x in t.cache)
            else t == s
  {
    hide Cached;
    CachedKeeps(sha, s.cache, batch);
  }

  /** The call is done, and every subscriber has a goroutine of it with the whole batch. */
  lemma NotifyEffect(sha: Digest, s: State, call: Call)
    requires call in s.pending
    ensures var t := Step(sha, s, Notify(call));
            && call in t.done && t.done[call] == Completed(s.pending[call], s.subscribers)
            && t.done == s.done[call := t.done[call]] && t.pending == s.pending - {call}
            && t.cache == s.cache && t.subscribers == s.subscribers && t.clients.Keys == s.clients.Keys
            && (forall id | id in s.clients ::
                  t.clients[id] == if id in s.subscribers
                                   then s.clients[id].(runners := s.clients[id].runners[call := s.pending[call]])
                                   else s.clients[id])
  {
  }

  /** The first preimage left goes to the end of the channel; with the last one the goroutine ends. */
  lemma SendEffect(sha: Digest, s: State, call: Call, id: Id)
    requires id in s.clients && call in s.clients[id].runners && s.clients[id].runners[call] != []
    requires |s.clients[id].sent| - s.clients[id].taken < 10
    ensures var t, left := Step(sha, s, Send(call, id)), s.clients[id].runners[call];
            && t == s.(clients := s.clients[id := t.clients[id]])
            && t.clients[id].sent == s.clients[id].sent + [Sent(call, left[0])]
            && Left(t.clients[id], call) == left[1..]
            && (call in t.clients[id].runners <==> |left| > 1)
            && t.clients[id].taken == s.clients[id].taken && t.clients[id].quit == s.clients[id].quit
  {
  }

  lemma StopEffect(sha: Digest, s: State, call: Call, id: Id)
    requires id in s.clients && call in s.clients[id].runners && s.clients[id].quit
    ensures var t := Step(sha, s, Stop(call, id));
            t == s.(clients := s.clients[id := s.clients[id].(runners := s.clients[id].runners - {call})])
  {
  }

  lemma ReceiveEffect(sha: Digest, s: State, id: Id)
    requires id in s.clients && s.clients[id].handed && s.clients[id].taken < |s.clients[id].sent|
    ensures var t := Step(sha, s, Receive(id));
            t == s.(clients := s.clients[id := s.clients[id].(taken := s.clients[id].taken + 1)])
  {
  }

  /** A client that has cancelled is notified by no later call. */
  lemma {:induction false} CancelledIsLeftAlone(sha: Digest, s: State, events: seq<Event>, id: Id)
    requires Known(s) && IsRun(sha, s, events) && id in s.clients && s.clients[id].quit
    ensures var t := After(sha, s, events);
            && id in t.clients && t.clients[id].quit && id !in t.subscribers
            && forall call | call in t.done && call !in s.done :: id !in t.done[call].to
    decreases |events|
  {
    hide Step, Enabled, Known;
    if events != [] {
      var t := Step(sha, s, events[0]);
      KnownKept(sha, s, events[0]);
      QuitStep(sha, s, events[0], id);
      CancelledIsLeftAlone(sha, t, events[1..], id);
      CallsStay(sha, t, events[1..]);
    } else {
      QuitUnsubscribed(s, id);
    }
  }

  lemma QuitUnsubscribed(s: State, id: Id)
    requires Known(s) && id in s.clients && s.clients[id].quit
    ensures id !in s.subscribers
  {
  }

  lemma QuitStep(sha: Digest, s: State, e: Event, id: Id)
    requires Known(s) && Enabled(s, e) && id in s.clients && s.clients[id].quit
    ensures var t := Step(sha, s, e);
            && id in t.clients && t.clients[id].quit
            && forall call | call in t.done && call !in s.done :: id !in t.done[call].to
  {
    hide Cached;
  }

  /** A call that is done stays done, with the same subscribers notified. */
  lemma {:induction false} CallsStay(sha: Digest, s: State, events: seq<Event>)
    requires Known(s) && IsRun(sha, s, events)
    ensures forall call | call in s.done ::
              call in After(sha, s, events).done && After(sha, s, events).done[call] == s.done[call]
    decreases |events|
  {
    hide Step, Enabled, Known;
    if events != [] {
      KnownKept(sha, s, events[0]);
      CallStays(sha, s, events[0]);
      CallsStay(sha, Step(sha, s, events[0]), events[1..]);
    }
  }

  lemma CallStays(sha: Digest, s: State, e: Event)
    requires Known(s) && Enabled(s, e)
    ensures forall call | call in s.done :: call in Step(sha, s, e).done && Step(sha, s, e).done[call] == s.done[call]
  {
    hide Cached, SentOne;
  }
}
