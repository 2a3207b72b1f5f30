/** What the sections of the server do to its fields, in consistent states. */
module PeerEffects {
  import opened Options
  import opened PeerState
  import opened PeerSafety

  // ----- connections -----

  /** The connection is closed, and nothing else happens. */
  ghost predicate Refused(s: State, t: State, conn: nat) {
    t == s.(world := s.world.(handedIn := s.world.handedIn + {conn}, closedConns := s.world.closedConns + {conn}))
  }

  /** No request and no retry channel is left for the key; the retry channel there was is closed, once. */
  ghost predicate Cancelled(s: State, t: State, key: Key) {
    && t.persistentConnReqs == s.persistentConnReqs - {key}
    && t.persistentRetryCancels == s.persistentRetryCancels - {key}
    && t.world.closes
       == s.world.closes + (if key in s.persistentRetryCancels then multiset{s.persistentRetryCancels[key]} else multiset{})
  }

  /** What a connection never touches. */
  ghost predicate SamePersistence(s: State, t: State) {
    && t.persistentPeers == s.persistentPeers && t.persistentPeerAddrs == s.persistentPeerAddrs
    && t.peerDisconnectedListeners == s.peerDisconnectedListeners
    && t.world.closedConns == s.world.closedConns && t.world.offline == s.world.offline
  }

  /** The connection has become a new peer, indexed under the key by its direction and watched. */
  ghost predicate Attached(s: State, t: State, key: Key, c: Pending) {
    && key in t.peersByPub
    && var p := t.peersByPub[key];
       && p !in s.world.attached
       && p.key == key && p.conn == c.conn && p.viaRequest == c.viaRequest && p.inbound == c.inbound
       && t.peersByPub == s.peersByPub[key := p]
       && t.inboundPeers == (if c.inbound then s.inboundPeers[key := p] else s.inboundPeers)
       && t.outboundPeers == (if c.inbound then s.outboundPeers else s.outboundPeers[key := p])
       && t.world.attached == s.world.attached + {p} && t.world.watchers == s.world.watchers + {p}
       && t.ignorePeerTermination == s.ignorePeerTermination
       && t.scheduledPeerConnection == s.scheduledPeerConnection
       && t.world.handedIn == s.world.handedIn + {c.conn}
  }

  /** The connection waits for the peer it replaces, which is no longer indexed. */
  ghost predicate Replaced(s: State, t: State, key: Key, c: Pending) {
    && key in s.peersByPub
    && t.peersByPub == s.peersByPub - {key}
    && t.inboundPeers == s.inboundPeers - {key} && t.outboundPeers == s.outboundPeers - {key}
    && t.ignorePeerTermination == s.ignorePeerTermination + {s.peersByPub[key]}
    && t.scheduledPeerConnection == s.scheduledPeerConnection[key := c]
    && t.world.attached == s.world.attached && t.world.watchers == s.world.watchers
    && t.world.handedIn == s.world.handedIn + {c.conn}
  }

  /** An inbound connection is closed exactly if there is an outbound peer or a connection already waiting. Otherwise it
      becomes a peer at once if there is none, and waits to replace the inbound peer that there is. */
  lemma InboundEffect(s: State, key: Key, conn: nat)
    requires Inv(s) && conn !in s.world.handedIn
    ensures var t := Step(s, InboundConnected(key, conn));
            && (conn in t.world.closedConns <==> key in s.outboundPeers || key in s.scheduledPeerConnection)
            && (conn in t.world.closedConns ==> Refused(s, t, conn))
            && (conn !in t.world.closedConns ==>
                  && Cancelled(s, t, key) && SamePersistence(s, t)
                  && if key in s.inboundPeers then Replaced(s, t, key, Pending(conn, false, true))
                     else Attached(s, t, key, Pending(conn, false, true)))
  {
    hide Indexed, Watched, Connections, Channels, Listeners, PeerConnected, Replace, CancelConnReqs, Attached, Replaced;
    hide SamePersistence, Cancelled;
    NotClosedYet(s, conn);
    CancelEffect(s, key);
    var t, c := CancelConnReqs(s, key), Pending(conn, false, true);
    TakenApart(s, key);
    if key !in s.outboundPeers && key !in s.scheduledPeerConnection {
      if key in s.inboundPeers {
        ReplaceEffect(s, t, key, c);
      } else {
        ConnectEffect(s, t, key, c);
      }
    }
  }

  /** Likewise for an outbound one, which is closed also if it was requested and the request has been cancelled since. */
  lemma OutboundEffect(s: State, key: Key, conn: nat, viaRequest: bool)
    requires Inv(s) && conn !in s.world.handedIn
    ensures var t := Step(s, OutboundConnected(key, conn, viaRequest));
            && (conn in t.world.closedConns <==>
                key in s.inboundPeers || key in s.scheduledPeerConnection || (viaRequest && key !in s.persistentConnReqs))
            && (conn in t.world.closedConns ==> Refused(s, t, conn))
            && (conn !in t.world.closedConns ==>
                  && Cancelled(s, t, key) && SamePersistence(s, t)
                  && if key in s.outboundPeers then Replaced(s, t, key, Pending(conn, viaRequest, false))
                     else Attached(s, t, key, Pending(conn, viaRequest, false)))
  {
    hide Indexed, Watched, Connections, Channels, Listeners, PeerConnected, Replace, CancelConnReqs, Attached, Replaced;
    hide SamePersistence, Cancelled;
    NotClosedYet(s, conn);
    CancelEffect(s, key);
    var t, c := CancelConnReqs(s, key), Pending(conn, viaRequest, false);
    TakenApart(s, key);
    if key !in s.inboundPeers && key !in s.scheduledPeerConnection && (key in s.persistentConnReqs || !viaRequest) {
      if key in s.outboundPeers {
        ReplaceEffect(s, t, key, c);
      } else {
        ConnectEffect(s, t, key, c);
      }
    }
  }

  lemma NotClosedYet(s: State, conn: nat)
    requires Connections(s) && conn !in s.world.handedIn
    ensures conn !in s.world.closedConns
  {
  }

  lemma TakenApart(s: State, key: Key)
    requires Indexed(s)
    ensures key in s.peersByPub <==> key in s.inboundPeers || key in s.outboundPeers
    ensures key in s.inboundPeers ==> s.peersByPub[key].inbound && key !in s.outboundPeers
    ensures key in s.outboundPeers ==> !s.peersByPub[key].inbound && key !in s.inboundPeers
    ensures key in s.peersByPub ==> s.peersByPub[key].key == key
  {
    assert key in s.peersByPub.Keys <==> key in s.inboundPeers.Keys + s.outboundPeers.Keys;
  }

  lemma CancelEffect(s: State, key: Key)
    ensures var t := CancelConnReqs(s, key);
            Cancelled(s, t, key)
            && t == s.(persistentConnReqs := t.persistentConnReqs, persistentRetryCancels := t.persistentRetryCancels,
                       world := s.world.(closes := t.world.closes))
  {
    assert key !in s.persistentRetryCancels ==> s.persistentRetryCancels - {key} == s.persistentRetryCancels;
  }

  lemma ConnectEffect(s: State, t: State, key: Key, c: Pending)
    requires Watched(s)
    requires t == s.(persistentConnReqs := t.persistentConnReqs, persistentRetryCancels := t.persistentRetryCancels,
                     world := s.world.(closes := t.world.closes))
    ensures var u := PeerConnected(t, key, c);
            && Attached(s, u, key, c) && SamePersistence(s, u)
            && (Cancelled(s, t, key) ==> Cancelled(s, u, key))
  {
    assert NewPeer(t, key, c) !in s.world.attached;
  }

  lemma ReplaceEffect(s: State, t: State, key: Key, c: Pending)
    requires key in s.peersByPub && s.peersByPub[key].key == key
    requires if s.peersByPub[key].inbound then key in s.inboundPeers && key !in s.outboundPeers
             else key in s.outboundPeers && key !in s.inboundPeers
    requires t == s.(persistentConnReqs := t.persistentConnReqs, persistentRetryCancels := t.persistentRetryCancels,
                     world := s.world.(closes := t.world.closes))
    ensures var u := Replace(t, key, c);
            && Replaced(s, u, key, c) && SamePersistence(s, u)
            && (Cancelled(s, t, key) ==> Cancelled(s, u, key))
  {
    assert key !in s.outboundPeers ==> s.outboundPeers - {key} == s.outboundPeers;
    assert key !in s.inboundPeers ==> s.inboundPeers - {key} == s.inboundPeers;
  }

  // ----- a peer goes away -----

  /** The list has all it had before, in place, and then the addresses it lacked, as often as they were given. */
  ghost predicate Extended(known: seq<string>, before: seq<string>, addrs: seq<string>) {
    && before <= known
    && forall a :: multiset(known[|before|..])[a] == if a in before then 0 else multiset(addrs)[a]
  }

  /** The list under a key, empty if there is none. */
  ghost function ListAt(m: map<Key, seq<string>>, key: Key): seq<string> {
    if key in m then m[key] else []
  }

  lemma SameList(m: map<Key, seq<string>>, key: Key)
    ensures Lookup(m, key) == ListAt(m, key)
  {
  }

  lemma {:induction false} MissingCounted(addrs: seq<string>, existing: seq<string>, a: string)
    ensures multiset(Missing(addrs, existing))[a] == if a in existing then 0 else multiset(addrs)[a]
  {
    if addrs != [] {
      MissingCounted(addrs[1..], existing, a);
      assert addrs == [addrs[0]] + addrs[1..];
    }
  }

  /** There is a retry channel for the key, open, and only if there was none before is it a new one. */
  ghost predicate RetryReady(s: State, t: State, key: Key) {
    && key in t.persistentRetryCancels && t.persistentRetryCancels[key] !in t.world.closes
    && t.persistentRetryCancels
       == if key in s.persistentRetryCancels then s.persistentRetryCancels
          else s.persistentRetryCancels[key := s.world.nextChan]
  }

  ghost predicate OpenRetries(s: State) {
    && (forall k | k in s.persistentRetryCancels :: s.persistentRetryCancels[k] !in s.world.closes)
    && s.world.nextChan !in s.world.closes
  }

  lemma RetriesOpen(s: State)
    requires Channels(s)
    ensures OpenRetries(s)
  {
  }

  lemma StateRetriesOpen(s: State)
    requires Inv(s)
    ensures OpenRetries(s)
    ensures forall a :: OpenRetries(s.(persistentConnReqs := a))
  {
    hide Indexed, Watched, Connections, Listeners;
    RetriesOpen(s);
  }

  /** When a persistent peer goes away that nothing replaces, the addresses to reconnect to are added to those stored, and
      a retry is ready; any other peer leaves no trace. */
  lemma ReconnectPrepared(s: State, p: Peer, addrs: Option<seq<string>>)
    requires Inv(s) && p in s.world.watchers && p !in s.ignorePeerTermination
    ensures var t := Step(s, Terminated(p, addrs));
            && t.persistentPeers == s.persistentPeers && t.persistentConnReqs == s.persistentConnReqs
            && t.scheduledPeerConnection == s.scheduledPeerConnection
            && t.ignorePeerTermination == s.ignorePeerTermination
            && t.world.attached == s.world.attached && t.world.watchers == s.world.watchers - {p}
            && if p.key in s.persistentPeers && addrs.Some? then
                 && p.key in t.persistentPeerAddrs
                 && Extended(t.persistentPeerAddrs[p.key], ListAt(s.persistentPeerAddrs, p.key), addrs.value)
                 && t.persistentPeerAddrs == s.persistentPeerAddrs[p.key := t.persistentPeerAddrs[p.key]]
                 && RetryReady(s, t, p.key)
               else
                 t.persistentPeerAddrs == s.persistentPeerAddrs && t.persistentRetryCancels == s.persistentRetryCancels
  {
    hide Indexed, Watched, Connections, Channels, Listeners, NotifyOffline, RemovePeer, PrepareReconnect, RetryReady;
    var u := NotifyOffline(s, p);
    var v := RemovePeer(u, p);
    NotifyOfflineFields(s, p);
    NotifyOfflineKeepsRetries(s, p);
    RemovePeerFields(u, p);
    RemovePeerKeepsPersistence(u, p);
    SameChannels(u, v);
    RetriesOpen(v);
    PrepareEffect(s, v, p.key, addrs);
  }

  lemma NotifyOfflineKeepsRetries(s: State, p: Peer)
    requires Channels(s)
    ensures var t := NotifyOffline(s, p);
            && t.persistentPeers == s.persistentPeers && t.persistentConnReqs == s.persistentConnReqs
            && t.persistentPeerAddrs == s.persistentPeerAddrs && t.persistentRetryCancels == s.persistentRetryCancels
            && Channels(t)
  {
    hide Channels;
    NotifyOfflineChannels(s, p);
  }

  lemma RemovePeerKeepsPersistence(s: State, p: Peer)
    ensures var t := RemovePeer(s, p);
            && t.persistentPeers == s.persistentPeers && t.persistentConnReqs == s.persistentConnReqs
            && t.persistentPeerAddrs == s.persistentPeerAddrs && t.persistentRetryCancels == s.persistentRetryCancels
            && t.peerDisconnectedListeners == s.peerDisconnectedListeners
  {
  }

  lemma RetryEffect(s: State, v: State, key: Key)
    requires OpenRetries(v)
    requires v.persistentRetryCancels == s.persistentRetryCancels && v.world.nextChan == s.world.nextChan
    ensures var t := EnsureRetryCancel(v, key);
            && t == v.(persistentRetryCancels := t.persistentRetryCancels, world := t.world)
            && t.world == v.world.(nextChan := t.world.nextChan)
            && RetryReady(s, t, key)
  {
  }

  lemma PrepareEffect(s: State, v: State, key: Key, addrs: Option<seq<string>>)
    requires OpenRetries(v)
    requires v.persistentPeers == s.persistentPeers && v.persistentPeerAddrs == s.persistentPeerAddrs
    requires v.persistentRetryCancels == s.persistentRetryCancels && v.world.nextChan == s.world.nextChan
    ensures var t := PrepareReconnect(v, key, addrs);
            && t.persistentPeers == v.persistentPeers && t.persistentConnReqs == v.persistentConnReqs
            && t.scheduledPeerConnection == v.scheduledPeerConnection && t.ignorePeerTermination == v.ignorePeerTermination
            && t.world.attached == v.world.attached && t.world.watchers == v.world.watchers
            && if key in s.persistentPeers && addrs.Some? then
                 && key in t.persistentPeerAddrs
                 && Extended(t.persistentPeerAddrs[key], ListAt(s.persistentPeerAddrs, key), addrs.value)
                 && t.persistentPeerAddrs == s.persistentPeerAddrs[key := t.persistentPeerAddrs[key]]
                 && RetryReady(s, t, key)
               else
                 t.persistentPeerAddrs == s.persistentPeerAddrs && t.persistentRetryCancels == s.persistentRetryCancels
  {
    hide Missing, Lookup, ListAt, EnsureRetryCancel, RetryReady;
    if key in s.persistentPeers && addrs.Some? {
      SameList(s.persistentPeerAddrs, key);
      var known := ListAt(v.persistentPeerAddrs, key) + Missing(addrs.value, ListAt(v.persistentPeerAddrs, key));
      RetryEffect(s, v.(persistentPeerAddrs := v.persistentPeerAddrs[key := known]), key);
      var before, t := ListAt(s.persistentPeerAddrs, key), PrepareReconnect(v, key, addrs);
      assert t.persistentPeerAddrs[key] == before + Missing(addrs.value, before);
      assert t.persistentPeerAddrs[key][|before|..] == Missing(addrs.value, before);
      forall a ensures multiset(Missing(addrs.value, before))[a] == if a in before then 0 else multiset(addrs.value)[a] {
        MissingCounted(addrs.value, before, a);
      }
    }
  }

  /** The addresses tried: what is advertised; else the last address, unless it is that of an inbound peer behind Tor. */
  lemma AddrsTried(p: Peer, advertised: Advertised, last: string, tor: bool)
    ensures var addrs := ReconnectAddrs(p, advertised, last, tor);
            && (addrs == None <==> advertised == NoAddr && p.inbound && tor)
            && (advertised.Addrs? ==> addrs == Some(advertised.addrs))
            && (!advertised.Addrs? && addrs.Some? ==> addrs.value == [last])
  {
  }

  /** When a peer that was being replaced is gone, the connection that waited becomes a peer, and nothing but that, the
      waiting and the offline channels of the key changes. */
  lemma TakeOverEffect(s: State, p: Peer, addrs: Option<seq<string>>)
    requires Inv(s) && p in s.ignorePeerTermination
    ensures p.key in s.scheduledPeerConnection
    ensures var t, c := Step(s, Terminated(p, addrs)), s.scheduledPeerConnection[p.key];
            && p.key in t.peersByPub
            && var q := t.peersByPub[p.key];
               && q.key == p.key && q.conn == c.conn && q.viaRequest == c.viaRequest && q.inbound == c.inbound
               && q !in s.world.attached
               && t.peersByPub == s.peersByPub[p.key := q]
               && t.inboundPeers == (if c.inbound then s.inboundPeers[p.key := q] else s.inboundPeers)
               && t.outboundPeers == (if c.inbound then s.outboundPeers else s.outboundPeers[p.key := q])
               && t.world.watchers == s.world.watchers - {p} + {q}
    ensures var t := Step(s, Terminated(p, addrs));
            && t.ignorePeerTermination == s.ignorePeerTermination - {p}
            && t.scheduledPeerConnection == s.scheduledPeerConnection - {p.key}
            && t.persistentPeers == s.persistentPeers && t.persistentPeerAddrs == s.persistentPeerAddrs
            && t.persistentConnReqs == s.persistentConnReqs && t.persistentRetryCancels == s.persistentRetryCancels
  {
    hide Indexed, Connections, Channels, Listeners, NotifyOffline, PeerConnected, Attached;
    var u := NotifyOffline(s, p);
    NotifyOfflineFields(s, p);
    NotifyOfflineKeepsRetries(s, p);
    var v := u.(ignorePeerTermination := u.ignorePeerTermination - {p},
                scheduledPeerConnection := u.scheduledPeerConnection - {p.key});
    var c := s.scheduledPeerConnection[p.key];
    FreshPeer(s, v, p.key, c);
    PeerConnectedFields(v, p.key, c);
    PeerConnectedKeepsPersistence(v, p.key, c);
  }

  lemma FreshPeer(s: State, v: State, key: Key, c: Pending)
    requires Watched(s) && v.world.nextPeer == s.world.nextPeer
    ensures NewPeer(v, key, c) !in s.world.attached
  {
  }

  lemma PeerConnectedKeepsPersistence(s: State, key: Key, c: Pending)
    ensures var t := PeerConnected(s, key, c);
            && t.persistentPeers == s.persistentPeers && t.persistentConnReqs == s.persistentConnReqs
            && t.persistentPeerAddrs == s.persistentPeerAddrs && t.persistentRetryCancels == s.persistentRetryCancels
  {
  }

  // ----- reconnecting -----

  /** The first sequence is the second one with some elements left out. */
  ghost predicate PartOf(a: seq<string>, b: seq<string>) {
    a == [] || (b != [] && if a[0] == b[0] then PartOf(a[1..], b[1..]) else PartOf(a, b[1..]))
  }

  lemma {:induction false} WantedCounted(requests: seq<string>, wanted: set<string>, a: string)
    ensures multiset(StillWanted(requests, wanted))[a] == if a in requests && a in wanted then 1 else 0
  {
    if requests != [] {
      assert requests == [requests[0]] + requests[1..];
      if requests[0] in wanted {
        WantedCounted(requests[1..], wanted - {requests[0]}, a);
      } else {
        WantedCounted(requests[1..], wanted, a);
      }
    }
  }

  lemma {:induction false} WantedInOrder(requests: seq<string>, wanted: set<string>)
    ensures PartOf(StillWanted(requests, wanted), requests)
  {
    if requests != [] {
      if requests[0] in wanted {
        WantedInOrder(requests[1..], wanted - {requests[0]});
        assert StillWanted(requests, wanted)[1..] == StillWanted(requests[1..], wanted - {requests[0]});
      } else {
        WantedInOrder(requests[1..], wanted);
        var kept := StillWanted(requests[1..], wanted);
        if kept != [] {
          WantedCounted(requests[1..], wanted, kept[0]);
          assert kept[0] in multiset(kept);
        }
      }
    }
  }

  /** When a retry is due, exactly the requests for addresses still stored are kept, one for each and in order, and a retry
      channel is ready; nothing else changes. */
  lemma RequestsKept(s: State, key: Key)
    requires Inv(s)
    ensures var t := Step(s, RetryDue(key));
            && key in t.persistentConnReqs
            && t == s.(persistentConnReqs := s.persistentConnReqs[key := t.persistentConnReqs[key]],
                       persistentRetryCancels := t.persistentRetryCancels, world := t.world)
            && t.world == s.world.(nextChan := t.world.nextChan)
            && RetryReady(s, t, key)
    ensures var kept := Step(s, RetryDue(key)).persistentConnReqs[key];
            var requests, stored := ListAt(s.persistentConnReqs, key), ListAt(s.persistentPeerAddrs, key);
            && PartOf(kept, requests)
            && forall a :: multiset(kept)[a] == if a in requests && a in stored then 1 else 0
  {
    hide Inv, PartOf, StillWanted, Lookup, ListAt, EnsureRetryCancel, RetryReady, OpenRetries;
    StateRetriesOpen(s);
    SameList(s.persistentConnReqs, key);
    SameList(s.persistentPeerAddrs, key);
    var kept := StillWanted(ListAt(s.persistentConnReqs, key), Elements(ListAt(s.persistentPeerAddrs, key)));
    RetryEffect(s, s.(persistentConnReqs := s.persistentConnReqs[key := kept]), key);
    var requests, stored := ListAt(s.persistentConnReqs, key), ListAt(s.persistentPeerAddrs, key);
    WantedInOrder(requests, Elements(stored));
    forall a
      ensures multiset(StillWanted(requests, Elements(stored)))[a] == if a in requests && a in stored then 1 else 0
    {
      WantedCounted(requests, Elements(stored), a);
    }
  }

  // ----- what callers ask for -----

  /** A request goes to the end of the list of its key. */
  lemma RequestEffect(s: State, key: Key, addr: string)
    ensures Step(s, RequestAdded(key, addr))
         == s.(persistentConnReqs := s.persistentConnReqs[key := ListAt(s.persistentConnReqs, key) + [addr]])
  {
  }

  /** A peer that is not connected becomes permanent, and its address is requested. */
  lemma PermanentEffect(s: State, key: Key, addr: string)
    ensures var t := Step(s, ConnectPermanently(key, addr));
            if key in s.peersByPub then t == s
            else t == s.(persistentPeers := s.persistentPeers[key := true],
                         persistentConnReqs := s.persistentConnReqs[key := ListAt(s.persistentConnReqs, key) + [addr]])
  {
  }

  /** A connected peer stays connected until its watcher runs, but is no longer asked for. */
  lemma DisconnectEffect(s: State, key: Key)
    ensures var t := Step(s, Disconnect(key));
            if key !in s.peersByPub then t == s
            else && Cancelled(s, t, key) && t.persistentPeers == s.persistentPeers - {key}
                 && t.peersByPub == s.peersByPub && t.persistentPeerAddrs == s.persistentPeerAddrs
                 && t.world == s.world.(closes := t.world.closes)
  {
    hide CancelConnReqs;
    CancelEffect(s, key);
  }

  /** Only a peer that is persistent but not permanent is given up, with its addresses and requests. */
  lemma PruneEffect(s: State, key: Key)
    ensures var t := Step(s, Pruned(key));
            if key in s.persistentPeers && !s.persistentPeers[key]
            then && Cancelled(s, t, key) && t.persistentPeers == s.persistentPeers - {key}
                 && t.persistentPeerAddrs == s.persistentPeerAddrs - {key}
                 && t.peersByPub == s.peersByPub && t.world == s.world.(closes := t.world.closes)
            else t == s
  {
    hide CancelConnReqs;
    CancelEffect(s.(persistentPeers := s.persistentPeers - {key}, persistentPeerAddrs := s.persistentPeerAddrs - {key}), key);
  }

  /** The caller's channel is a new one for the key; it is closed at once exactly if no peer is connected, and listed
      otherwise. */
  lemma ListenEffect(s: State, key: Key)
    requires Inv(s)
    ensures var t, c := Step(s, ListenOffline(key)), s.world.nextChan;
            && c !in s.world.offline && c !in s.world.closes
            && t.world.offline == s.world.offline[c := key]
            && (c in t.world.closes <==> key !in s.peersByPub)
            && (key in s.peersByPub ==>
                  && key in t.peerDisconnectedListeners && c in t.peerDisconnectedListeners[key]
                  && t.world.closes == s.world.closes)
            && t.peersByPub == s.peersByPub
  {
    hide Indexed, Watched, Connections, Listeners, RetryCancels, OfflineChannels, NotifyWhenOffline;
    NotifyWhenOfflineFields(s, key);
    if key in s.peersByPub {
      var l := Lookup(s.peerDisconnectedListeners, key);
      assert (l + [s.world.nextChan])[|l|] == s.world.nextChan;
    }
  }

  lemma AnnounceEffect(s: State, key: Key, announced: seq<string>)
    ensures Step(s, AddrsAnnounced(key, announced))
         == s.(persistentPeerAddrs := s.persistentPeerAddrs[key := announced])
  {
  }

  lemma WatchEffect(s: State, key: Key)
    ensures Step(s, ChannelWatched(key))
         == if key in s.persistentPeers then s else s.(persistentPeers := s.persistentPeers[key := false])
  {
  }

  /** Every peer known at the start is persistent then, without being permanent, and no address is forgotten. */
  lemma EstablishEffect(s: State, nodes: map<Key, seq<string>>, key: Key)
    ensures var t := Step(s, Established(nodes));
            && t == s.(persistentPeers := t.persistentPeers, persistentPeerAddrs := t.persistentPeerAddrs)
            && (key in t.persistentPeers <==> key in s.persistentPeers || key in nodes)
            && (key in t.persistentPeers ==>
                  t.persistentPeers[key] == if key in nodes then false else s.persistentPeers[key])
            && ListAt(t.persistentPeerAddrs, key) == ListAt(s.persistentPeerAddrs, key) + ListAt(nodes, key)
  {
    var t := Step(s, Established(nodes));
    assert ListAt(s.persistentPeerAddrs, key) + [] == ListAt(s.persistentPeerAddrs, key);
  }
}
