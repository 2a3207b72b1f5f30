/** The preimage beacon object. What runs under one lock, or between two, is one method. */
module PreimageBeacon {
  import opened BeaconState
  import opened Options
  import opened Shares

  class Beacon {
    const sha: Digest
    var cache: map<Hash, Preimage>
    var clientCounter: Id
    var subscribers: set<Id>
    var clients: map<Id, Client>
    var calls: Call
    var pending: map<Call, seq<Preimage>>
    ghost var done: map<Call, Completed>

    ghost function State(): State
      reads this
    {
      BeaconState.State(cache, clientCounter, subscribers, clients, calls, pending, done)
    }

    constructor (sha: Digest)
      ensures State() == START && this.sha == sha && Inv(sha, State())
    {
      this.sha := sha;
      cache, clientCounter, subscribers, clients, calls, pending, done := map[], 0, {}, map[], 0, map[], map[];
      new;
      StartInv(sha);
    }

    /** When the interceptor fails nothing is returned, but the subscriber has been registered. */
    method SubscribeUpdates(intercepted: bool) returns (sub: Option<Id>)
      modifies this
      ensures State() == Step(sha, old(State()), Subscribe(intercepted))
      ensures sub == if intercepted then Some(old(clientCounter)) else None
    {
      var clientID := clientCounter;
      clients := clients[clientID := Client(intercepted, false, [], 0, map[])];
      subscribers := subscribers + {clientID};
      clientCounter := clientCounter + 1;
      if !intercepted {
        return None;
      }
      return Some(clientID);
    }

    /** Called by whoever was handed the subscription. A second call closes a closed channel, and panics. */
    method CancelSubscription(clientID: Id) returns (panics: bool)
      requires clientID in clients && clients[clientID].handed && Known(State())
      modifies this
      ensures panics <==> !Enabled(old(State()), Cancel(clientID))
      ensures State() == if panics then old(State()) else Step(sha, old(State()), Cancel(clientID))
    {
      subscribers := subscribers - {clientID};
      if clients[clientID].quit {
        assert subscribers == old(subscribers);
        return true;
      }
      clients := clients[clientID := clients[clientID].(quit := true)];
      return false;
    }

    /** With the invariant, whatever is found hashes to what was asked for. */
    method LookupPreimage(payHash: Hash) returns (preimage: Option<Preimage>)
      ensures preimage == Lookup(State(), payHash)
      ensures Written(sha, State()) && preimage.Some? ==> sha(preimage.value) == payHash
    {
      if payHash !in cache {
        return None;
      }
      return Some(cache[payHash]);
    }

    /** The part of AddPreimages before the lock: the preimages are copied, then written to the cache. */
    method WritePreimages(preimages: array<Preimage>, cacheOk: bool) returns (ok: bool)
      modifies this
      ensures State() == Step(sha, old(State()), Write(old(preimages[..]), cacheOk))
      ensures ok <==> preimages.Length == 0 || cacheOk
    {
      hide Cached;
      if preimages.Length == 0 {
        return true;
      }
      var preimageCopies: seq<Preimage> := [];
      for i := 0 to preimages.Length
        invariant preimageCopies == preimages[..i]
      {
        preimageCopies := preimageCopies + [preimages[i]];
      }
      assert preimageCopies == preimages[..];
      if !cacheOk {
        return false;
      }
      cache := AddSha256Witnesses(sha, cache, preimageCopies);
      pending, calls := pending[calls := preimageCopies], calls + 1;
      return true;
    }

    /** The part of AddPreimages under the lock: a goroutine is started for each subscriber. */
    method NotifySubscribers(call: Call)
      requires call in pending && Known(State())
      modifies this
      ensures State() == Step(sha, old(State()), Notify(call))
    {
      hide Served;
      ghost var before := clients;
      var preimageCopies := pending[call];
      var left := subscribers;
      assert clients == map id | id in before :: before[id];
      while left != {}
        modifies this`clients
        invariant left <= subscribers <= before.Keys
        invariant clients == map id | id in before ::
                    if id in subscribers - left then Served(before[id], call, preimageCopies) else before[id]
        decreases left
      {
        var id :| id in left;
        left := left - {id};
        clients := clients[id := Served(clients[id], call, preimageCopies)];
      }
      pending := pending - {call};
      done := done[call := Completed(preimageCopies, subscribers)];
    }

    /** One turn of a goroutine's loop; when both cases of the select are ready, either may be picked. */
    method SendNext(call: Call, id: Id, quitPicked: bool)
      requires Enabled(State(), if quitPicked then Stop(call, id) else Send(call, id))
      modifies this`clients
      ensures State() == Step(sha, old(State()), if quitPicked then Stop(call, id) else Send(call, id))
    {
      if quitPicked {
        clients := clients[id := clients[id].(runners := clients[id].runners - {call})];
        return;
      }
      var left := clients[id].runners[call];
      var runners := clients[id].runners - {call};
      if |left| > 1 {
        runners := runners[call := left[1..]];
        assert runners == clients[id].runners[call := left[1..]];
      }
      clients := clients[id := clients[id].(sent := clients[id].sent + [Sent(call, left[0])], runners := runners)];
    }
  }

  method AddSha256Witnesses(sha: Digest, cache: map<Hash, Preimage>, preimages: seq<Preimage>)
    returns (after: map<Hash, Preimage>)
    ensures after == Cached(sha, cache, preimages)
  {
    after := cache;
    for i := 0 to |preimages|
      invariant after == Cached(sha, cache, preimages[..i])
    {
      after := after[sha(preimages[i]) := preimages[i]];
      assert preimages[..i + 1][..i] == preimages[..i];
    }
    assert preimages[..|preimages|] == preimages;
  }
}
