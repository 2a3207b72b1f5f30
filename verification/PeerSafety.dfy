/** What holds of the server's peer bookkeeping after every run. */
module PeerSafety {
  import opened Options
  import opened PeerState

  /** The index by key is the disjoint union of the two by direction. */
  ghost predicate Indexed(s: State) {
    && s.inboundPeers.Keys !! s.outboundPeers.Keys
    && s.peersByPub.Keys == s.inboundPeers.Keys + s.outboundPeers.Keys
    && (forall k | k in s.inboundPeers :: s.inboundPeers[k] == s.peersByPub[k] && s.peersByPub[k].inbound)
    && (forall k | k in s.outboundPeers :: s.outboundPeers[k] == s.peersByPub[k] && !s.peersByPub[k].inbound)
    && (forall k | k in s.peersByPub :: s.peersByPub[k].key == k)
  }

  /** Every watcher still due belongs to the peer indexed under its key, unless that peer is being replaced; and a
      connection is scheduled exactly for the keys of such replaced peers. */
  ghost predicate Watched(s: State) {
    && (forall p | p in s.world.watchers && p !in s.ignorePeerTermination ::
          p.key in s.peersByPub && s.peersByPub[p.key] == p)
    && (forall k | k in s.peersByPub :: s.peersByPub[k] in s.world.watchers && s.peersByPub[k] !in s.ignorePeerTermination)
    && s.ignorePeerTermination <= s.world.watchers <= s.world.attached
    && (forall p, q | p in s.ignorePeerTermination && q in s.ignorePeerTermination && p.key == q.key :: p == q)
    && (forall p | p in s.ignorePeerTermination :: p.key in s.scheduledPeerConnection)
    && (forall k | k in s.scheduledPeerConnection :: k !in s.peersByPub && ReplacedFor(s, k))
    && (forall p | p in s.world.attached :: p.id < s.world.nextPeer)
  }

  ghost predicate ReplacedFor(s: State, k: Key) {
    exists p :: p in s.ignorePeerTermination && p.key == k
  }

  /** Every connection handed in is closed, scheduled or attached, and only one of these. */
  ghost predicate Connections(s: State) {
    && (forall p, q | p in s.world.attached && q in s.world.attached && p.conn == q.conn :: p == q)
    && (forall j, k | j in s.scheduledPeerConnection && k in s.scheduledPeerConnection
                      && s.scheduledPeerConnection[j].conn == s.scheduledPeerConnection[k].conn :: j == k)
    && (forall p | p in s.world.attached :: p.conn in s.world.handedIn && p.conn !in s.world.closedConns)
    && (forall k | k in s.scheduledPeerConnection ::
          && s.scheduledPeerConnection[k].conn in s.world.handedIn
          && s.scheduledPeerConnection[k].conn !in s.world.closedConns)
    && (forall k, p | k in s.scheduledPeerConnection && p in s.world.attached ::
          s.scheduledPeerConnection[k].conn != p.conn)
    && s.world.closedConns <= s.world.handedIn
    && (forall c | c in s.world.handedIn :: c in s.world.closedConns || IsScheduled(s, c) || IsAttached(s, c))
  }

  ghost predicate IsScheduled(s: State, c: nat) {
    exists k :: k in s.scheduledPeerConnection && s.scheduledPeerConnection[k].conn == c
  }

  ghost predicate IsAttached(s: State, c: nat) {
    exists p :: p in s.world.attached && p.conn == c
  }

  /** No channel is closed twice. */
  ghost predicate ClosedOnce(s: State) {
    && (forall c | c in s.world.offline :: c < s.world.nextChan)
    && (forall c | c in s.world.closes :: c < s.world.nextChan)
    && (forall c :: s.world.closes[c] <= 1)
  }

  /** Every retry channel stored is open, and stored once. */
  ghost predicate RetryCancels(s: State) {
    && (forall k | k in s.persistentRetryCancels ::
          && s.persistentRetryCancels[k] < s.world.nextChan
          && s.persistentRetryCancels[k] !in s.world.closes
          && s.persistentRetryCancels[k] !in s.world.offline)
    && (forall j, k | j in s.persistentRetryCancels && k in s.persistentRetryCancels
                      && s.persistentRetryCancels[j] == s.persistentRetryCancels[k] :: j == k)
  }

  /** Every offline channel stored is open, and every open one is stored, once, under its key. */
  ghost predicate OfflineChannels(s: State) {
    && (forall k | k in s.peerDisconnectedListeners :: OpenList(s.world, k, s.peerDisconnectedListeners[k]))
    && (forall c | c in s.world.offline && c !in s.world.closes ::
          s.world.offline[c] in s.peerDisconnectedListeners && c in s.peerDisconnectedListeners[s.world.offline[c]])
  }

  /** Different open channels, all given out for the key. */
  ghost predicate OpenList(w: World, key: Key, l: seq<Chan>) {
    && (forall i | 0 <= i < |l| :: l[i] in w.offline && w.offline[l[i]] == key && l[i] !in w.closes)
    && (forall i, j | 0 <= i < j < |l| :: l[i] != l[j])
  }

  ghost predicate Channels(s: State) {
    ClosedOnce(s) && RetryCancels(s) && OfflineChannels(s)
  }

  /** Every key with offline channels stored has a watcher due that will close them. */
  ghost predicate Listeners(s: State) {
    forall k | k in s.peerDisconnectedListeners :: WatcherDue(s, k)
  }

  ghost predicate WatcherDue(s: State, k: Key) {
    exists p :: p in s.world.watchers && p.key == k
  }

  ghost predicate Inv(s: State) {
    Indexed(s) && Watched(s) && Connections(s) && Channels(s) && Listeners(s)
  }

  lemma InitialInv(localKey: Key, persistent: map<Key, bool>, addrs: map<Key, seq<string>>)
    ensures Inv(Initial(localKey, persistent, addrs))
  {
  }

  lemma CloseConnInv(s: State, conn: nat)
    requires Inv(s) && conn !in s.world.handedIn
    ensures Inv(CloseConn(s, conn))
  {
    hide Indexed, Watched, Connections, Channels, Listeners;
    var t := CloseConn(s, conn);
    CloseConnConnections(s, conn);
    SameIndex(s, t);
    SameChannels(s, t);
    SameWatchers(s, t);
  }

  lemma CloseConnConnections(s: State, conn: nat)
    requires Connections(s) && conn !in s.world.handedIn
    ensures Connections(CloseConn(s, conn))
  {
    var t := CloseConn(s, conn);
    forall c | c in t.world.handedIn ensures c in t.world.closedConns || IsScheduled(t, c) || IsAttached(t, c) {
      assert c in s.world.handedIn ==> c in s.world.closedConns || IsScheduled(s, c) || IsAttached(s, c);
    }
  }

  lemma SameWatchers(s: State, t: State)
    requires Listeners(s) && t.peerDisconnectedListeners.Keys <= s.peerDisconnectedListeners.Keys
    requires s.world.watchers <= t.world.watchers
    ensures Listeners(t)
  {
    forall k | k in t.peerDisconnectedListeners ensures WatcherDue(t, k) {
      assert WatcherDue(s, k);
    }
  }

  lemma CancelConnReqsInv(s: State, key: Key)
    requires Inv(s)
    ensures Inv(CancelConnReqs(s, key))
  {
    hide Indexed, Watched, Connections, Channels, Listeners;
    var t := CancelConnReqs(s, key);
    SameIndex(s, t);
    SameConnections(s, t);
    SameWatchers(s, t);
    CancelConnReqsChannels(s, key);
  }

  lemma CancelConnReqsChannels(s: State, key: Key)
    requires Channels(s)
    ensures Channels(CancelConnReqs(s, key))
  {
    if key in s.persistentRetryCancels {
      var c := s.persistentRetryCancels[key];
      assert CancelConnReqs(s, key).world.closes == s.world.closes[c := 1];
    }
  }

  lemma SameConnections(s: State, t: State)
    requires Connections(s)
    requires t.scheduledPeerConnection == s.scheduledPeerConnection
    requires t.world.attached == s.world.attached && t.world.handedIn == s.world.handedIn
    requires t.world.closedConns == s.world.closedConns
    ensures Connections(t)
  {
    forall c | c in t.world.handedIn ensures c in t.world.closedConns || IsScheduled(t, c) || IsAttached(t, c) {
      assert c in s.world.closedConns || IsScheduled(s, c) || IsAttached(s, c);
    }
  }

  lemma SameChannels(s: State, t: State)
    requires Channels(s)
    requires t.persistentRetryCancels == s.persistentRetryCancels
    requires t.peerDisconnectedListeners == s.peerDisconnectedListeners
    requires t.world.offline == s.world.offline && t.world.closes == s.world.closes
    requires t.world.nextChan == s.world.nextChan
    ensures Channels(t)
  {
  }

  // ----- a peer is connected -----

  lemma PeerConnectedFields(s: State, key: Key, c: Pending)
    ensures var t, p := PeerConnected(s, key, c), NewPeer(s, key, c);
            && t.peersByPub == s.peersByPub[key := p]
            && t.inboundPeers == (if p.inbound then s.inboundPeers[key := p] else s.inboundPeers)
            && t.outboundPeers == (if p.inbound then s.outboundPeers else s.outboundPeers[key := p])
            && t.ignorePeerTermination == s.ignorePeerTermination
            && t.scheduledPeerConnection == s.scheduledPeerConnection
            && t.world == s.world.(attached := s.world.attached + {p}, watchers := s.world.watchers + {p},
                                   handedIn := s.world.handedIn + {c.conn}, nextPeer := s.world.nextPeer + 1)
  {
  }

  lemma PeerConnectedIndexed(s: State, key: Key, c: Pending)
    requires Indexed(s) && key !in s.peersByPub
    ensures Indexed(PeerConnected(s, key, c))
  {
    hide PeerConnected, Indexed;
    PeerConnectedFields(s, key, c);
    if c.inbound {
      AddedInbound(s, PeerConnected(s, key, c), NewPeer(s, key, c));
    } else {
      AddedOutbound(s, PeerConnected(s, key, c), NewPeer(s, key, c));
    }
  }

  lemma AddedInbound(s: State, t: State, p: Peer)
    requires Indexed(s) && p.key !in s.peersByPub && p.inbound
    requires t.peersByPub == s.peersByPub[p.key := p]
    requires t.inboundPeers == s.inboundPeers[p.key := p] && t.outboundPeers == s.outboundPeers
    ensures Indexed(t)
  {
  }

  lemma AddedOutbound(s: State, t: State, p: Peer)
    requires Indexed(s) && p.key !in s.peersByPub && !p.inbound
    requires t.peersByPub == s.peersByPub[p.key := p]
    requires t.inboundPeers == s.inboundPeers && t.outboundPeers == s.outboundPeers[p.key := p]
    ensures Indexed(t)
  {
  }

  lemma PeerConnectedWatched(s: State, key: Key, c: Pending)
    requires Watched(s) && key !in s.peersByPub && key !in s.scheduledPeerConnection
    ensures Watched(PeerConnected(s, key, c))
  {
    hide PeerConnected, ReplacedFor;
    PeerConnectedFields(s, key, c);
    var t, p := PeerConnected(s, key, c), NewPeer(s, key, c);
    assert p !in s.world.attached;
    forall k | k in t.scheduledPeerConnection ensures k !in t.peersByPub && ReplacedFor(t, k) {
      SameReplaced(s, t, k);
    }
  }

  lemma SameReplaced(s: State, t: State, k: Key)
    requires t.ignorePeerTermination == s.ignorePeerTermination
    ensures ReplacedFor(t, k) <==> ReplacedFor(s, k)
  {
  }

  lemma PeerConnectedConnections(s: State, key: Key, c: Pending)
    requires Connections(s) && c.conn !in s.world.handedIn
    ensures Connections(PeerConnected(s, key, c))
  {
    hide PeerConnected;
    PeerConnectedFields(s, key, c);
    var t := PeerConnected(s, key, c);
    forall x | x in t.world.handedIn ensures x in t.world.closedConns || IsScheduled(t, x) || IsAttached(t, x) {
      if x == c.conn {
        assert NewPeer(s, key, c) in t.world.attached;
      } else {
        assert x in s.world.closedConns || IsScheduled(s, x) || IsAttached(s, x);
      }
    }
  }

  lemma PeerConnectedInv(s: State, key: Key, c: Pending)
    requires Inv(s) && key !in s.peersByPub && key !in s.scheduledPeerConnection
    requires c.conn !in s.world.handedIn
    ensures Inv(PeerConnected(s, key, c))
  {
    hide Indexed, Watched, Connections, Channels, Listeners;
    PeerConnectedIndexed(s, key, c);
    PeerConnectedWatched(s, key, c);
    PeerConnectedConnections(s, key, c);
    SameChannels(s, PeerConnected(s, key, c));
    SameWatchers(s, PeerConnected(s, key, c));
  }

  // ----- a peer is replaced -----

  lemma ReplaceFields(s: State, key: Key, c: Pending)
    requires key in s.peersByPub && s.peersByPub[key].key == key
    ensures var t, p := Replace(s, key, c), s.peersByPub[key];
            && t.peersByPub == s.peersByPub - {key}
            && t.inboundPeers == (if p.inbound then s.inboundPeers - {key} else s.inboundPeers)
            && t.outboundPeers == (if p.inbound then s.outboundPeers else s.outboundPeers - {key})
            && t.ignorePeerTermination == s.ignorePeerTermination + {p}
            && t.scheduledPeerConnection == s.scheduledPeerConnection[key := c]
            && t.persistentRetryCancels == s.persistentRetryCancels
            && t.peerDisconnectedListeners == s.peerDisconnectedListeners
            && t.world == s.world.(handedIn := s.world.handedIn + {c.conn})
  {
  }

  lemma ReplaceIndexed(s: State, key: Key, c: Pending)
    requires Indexed(s) && key in s.peersByPub
    ensures Indexed(Replace(s, key, c))
  {
    hide Replace;
    ReplaceFields(s, key, c);
  }

  lemma ReplaceWatched(s: State, key: Key, c: Pending)
    requires Watched(s) && key in s.peersByPub && key !in s.scheduledPeerConnection
    requires Keyed(s)
    ensures Watched(Replace(s, key, c))
  {
    hide Replace;
    ReplaceFields(s, key, c);
    var t, p := Replace(s, key, c), s.peersByPub[key];
    assert t.peersByPub == s.peersByPub - {key};
    assert p.key == key && p in t.ignorePeerTermination;
    forall k | k in t.scheduledPeerConnection
      ensures k !in t.peersByPub && ReplacedFor(t, k)
    {
      if k != key {
        assert ReplacedFor(s, k);
        var q :| q in s.ignorePeerTermination && q.key == k;
        assert q in t.ignorePeerTermination;
      }
    }
  }

  lemma ReplaceConnections(s: State, key: Key, c: Pending)
    requires Connections(s) && key in s.peersByPub && key !in s.scheduledPeerConnection
    requires Keyed(s)
    requires c.conn !in s.world.handedIn
    ensures Connections(Replace(s, key, c))
  {
    hide Replace;
    ReplaceFields(s, key, c);
    var t := Replace(s, key, c);
    forall x | x in t.world.handedIn ensures x in t.world.closedConns || IsScheduled(t, x) || IsAttached(t, x) {
      if x == c.conn {
        assert key in t.scheduledPeerConnection;
      } else if x in s.world.closedConns {
      } else if IsScheduled(s, x) {
        var k :| k in s.scheduledPeerConnection && s.scheduledPeerConnection[k].conn == x;
        assert k in t.scheduledPeerConnection && t.scheduledPeerConnection[k].conn == x;
      } else {
        assert IsAttached(s, x);
      }
    }
  }

  lemma ReplaceInv(s: State, key: Key, c: Pending)
    requires Inv(s) && key in s.peersByPub && key !in s.scheduledPeerConnection
    requires c.conn !in s.world.handedIn
    ensures Inv(Replace(s, key, c))
  {
    hide Indexed, Watched, Connections, Channels, Listeners;
    IndexedKeyed(s);
    ReplaceIndexed(s, key, c);
    ReplaceWatched(s, key, c);
    ReplaceConnections(s, key, c);
    ReplaceChannels(s, key, c);
  }

  ghost predicate Keyed(s: State) {
    forall k | k in s.peersByPub :: s.peersByPub[k].key == k
  }

  lemma IndexedKeyed(s: State)
    requires Indexed(s)
    ensures Keyed(s)
  {
  }

  lemma ReplaceChannels(s: State, key: Key, c: Pending)
    requires Channels(s) && Listeners(s) && key in s.peersByPub && Keyed(s)
    ensures Channels(Replace(s, key, c)) && Listeners(Replace(s, key, c))
  {
    hide Channels, Listeners, Replace;
    ReplaceFields(s, key, c);
    SameChannels(s, Replace(s, key, c));
    SameWatchers(s, Replace(s, key, c));
  }

  // ----- a watcher's turn comes -----

  /** After the offline channels of its key are closed, the watcher of p is gone. */
  lemma NotifyOfflineChannels(s: State, p: Peer)
    requires Channels(s)
    ensures Channels(NotifyOffline(s, p))
  {
    var t := NotifyOffline(s, p);
    if p.key in s.peerDisconnectedListeners {
      var l := s.peerDisconnectedListeners[p.key];
      NoDuplicates(l);
      assert forall c :: c in t.world.closes <==> c in s.world.closes || c in l;
    }
  }

  lemma {:induction false} NoDuplicates(l: seq<Chan>)
    requires forall i, j | 0 <= i < j < |l| :: l[i] != l[j]
    ensures forall c :: multiset(l)[c] == if c in l then 1 else 0
  {
    if l != [] {
      var m := |l| - 1;
      NoDuplicates(l[..m]);
      assert l == l[..m] + [l[m]];
    }
  }

  lemma NotifyOfflineListeners(s: State, p: Peer)
    requires Listeners(s)
    ensures Listeners(NotifyOffline(s, p))
  {
    var t := NotifyOffline(s, p);
    forall k | k in t.peerDisconnectedListeners ensures WatcherDue(t, k) {
      assert WatcherDue(s, k);
      var q :| q in s.world.watchers && q.key == k;
      assert q in t.world.watchers;
    }
  }

  /** The peer's own entry goes: it was the one indexed. */
  lemma RemovedWatched(s: State, p: Peer)
    requires Watched(s) && Keyed(s)
    requires p in s.world.watchers && p !in s.ignorePeerTermination
    ensures Watched(RemovePeer(NotifyOffline(s, p), p))
  {
    hide NotifyOffline, RemovePeer;
    NotifyOfflineFields(s, p);
    RemovePeerFields(NotifyOffline(s, p), p);
    var t := RemovePeer(NotifyOffline(s, p), p);
    forall k | k in t.scheduledPeerConnection ensures k !in t.peersByPub && ReplacedFor(t, k) {
      assert ReplacedFor(s, k);
    }
  }

  lemma RemovedIndexed(s: State, p: Peer)
    requires Indexed(s) && p.key in s.peersByPub && s.peersByPub[p.key] == p
    ensures Indexed(RemovePeer(NotifyOffline(s, p), p))
  {
  }

  lemma DueIsIndexed(s: State, p: Peer)
    requires Watched(s) && p in s.world.watchers && p !in s.ignorePeerTermination
    ensures p.key in s.peersByPub && s.peersByPub[p.key] == p
  {
  }

  /** The state in which the connection that waited for p is in hand. */
  ghost function InHand(s: State, p: Peer): State
    requires p.key in s.scheduledPeerConnection
  {
    var t := NotifyOffline(s, p);
    t.(ignorePeerTermination := t.ignorePeerTermination - {p},
       scheduledPeerConnection := t.scheduledPeerConnection - {p.key},
       world := t.world.(handedIn := t.world.handedIn - {s.scheduledPeerConnection[p.key].conn}))
  }

  lemma InHandWatched(s: State, p: Peer)
    requires Watched(s) && p in s.ignorePeerTermination
    ensures p.key in s.scheduledPeerConnection && Watched(InHand(s, p))
  {
    hide NotifyOffline;
    NotifyOfflineFields(s, p);
    var t := InHand(s, p);
    forall k | k in t.scheduledPeerConnection ensures ReplacedFor(t, k) {
      assert ReplacedFor(s, k);
      var q :| q in s.ignorePeerTermination && q.key == k;
      assert q in t.ignorePeerTermination;
    }
  }

  lemma InHandIndexed(s: State, p: Peer)
    requires Indexed(s) && p.key in s.scheduledPeerConnection
    ensures Indexed(InHand(s, p))
  {
    hide NotifyOffline;
    NotifyOfflineFields(s, p);
  }

  lemma InHandConnections(s: State, p: Peer)
    requires Connections(s) && p.key in s.scheduledPeerConnection
    ensures Connections(InHand(s, p))
  {
    var t := InHand(s, p);
    forall x | x in t.world.handedIn ensures x in t.world.closedConns || IsScheduled(t, x) || IsAttached(t, x) {
      if x in s.world.closedConns {
      } else if IsScheduled(s, x) {
        var k :| k in s.scheduledPeerConnection && s.scheduledPeerConnection[k].conn == x;
        assert k in t.scheduledPeerConnection && t.scheduledPeerConnection[k].conn == x;
      } else {
        assert IsAttached(s, x);
      }
    }
  }

  /** The watcher of a replaced peer attaches the connection that was scheduled. */
  lemma TakeOverInv(s: State, p: Peer)
    requires Inv(s) && p in s.ignorePeerTermination
    ensures Inv(TakeOver(NotifyOffline(s, p), p))
  {
    hide Indexed, Watched, Connections, Channels, Listeners;
    InHandWatched(s, p);
    InHandIndexed(s, p);
    InHandConnections(s, p);
    NotifyOfflineChannels(s, p);
    NotifyOfflineListeners(s, p);
    var t, c := InHand(s, p), s.scheduledPeerConnection[p.key];
    SameChannels(NotifyOffline(s, p), t);
    SameWatchers(NotifyOffline(s, p), t);
    KeyFree(s, p.key);
    PeerConnectedInv(t, p.key, c);
    ScheduledHanded(s, p.key);
    TakeOverIsConnect(s, p);
  }

  lemma KeyFree(s: State, key: Key)
    requires Watched(s) && key in s.scheduledPeerConnection
    ensures key !in s.peersByPub
  {
  }

  lemma TakeOverIsConnect(s: State, p: Peer)
    requires p.key in s.scheduledPeerConnection && s.scheduledPeerConnection[p.key].conn in s.world.handedIn
    ensures PeerConnected(InHand(s, p), p.key, s.scheduledPeerConnection[p.key]) == TakeOver(NotifyOffline(s, p), p)
  {
    var c := s.scheduledPeerConnection[p.key];
    assert InHand(s, p).world.handedIn + {c.conn} == s.world.handedIn + {c.conn} == s.world.handedIn;
  }

  lemma ScheduledHanded(s: State, key: Key)
    requires Connections(s) && key in s.scheduledPeerConnection
    ensures s.scheduledPeerConnection[key].conn in s.world.handedIn
  {
  }

  lemma EnsureRetryCancelInv(s: State, key: Key)
    requires Inv(s)
    ensures Inv(EnsureRetryCancel(s, key))
  {
    hide Indexed, Watched, Connections, Channels, Listeners;
    var t := EnsureRetryCancel(s, key);
    SameConnections(s, t);
    SameWatchers(s, t);
    SameIndex(s, t);
    EnsureRetryCancelChannels(s, key);
  }

  lemma EnsureRetryCancelChannels(s: State, key: Key)
    requires Channels(s)
    ensures Channels(EnsureRetryCancel(s, key))
  {
  }

  lemma SameIndex(s: State, t: State)
    requires Indexed(s) && Watched(s)
    requires t.peersByPub == s.peersByPub && t.inboundPeers == s.inboundPeers && t.outboundPeers == s.outboundPeers
    requires t.ignorePeerTermination == s.ignorePeerTermination && t.scheduledPeerConnection == s.scheduledPeerConnection
    requires t.world.watchers == s.world.watchers && t.world.attached == s.world.attached
    requires t.world.nextPeer == s.world.nextPeer
    ensures Indexed(t) && Watched(t)
  {
    forall k | k in t.scheduledPeerConnection ensures ReplacedFor(t, k) {
      assert ReplacedFor(s, k);
    }
  }

  lemma PeerTerminatedInv(s: State, p: Peer, addrs: Option<seq<string>>)
    requires Inv(s) && p in s.world.watchers
    ensures Inv(PeerTerminated(s, p, addrs))
  {
    hide Indexed, Watched, Connections, Channels, Listeners;
    if p in s.ignorePeerTermination {
      TakeOverInv(s, p);
    } else {
      var t := RemovePeer(NotifyOffline(s, p), p);
      DueIsIndexed(s, p);
      IndexedKeyed(s);
      RemovedIndexed(s, p);
      RemovedWatched(s, p);
      SameConnections(s, t);
      NotifyOfflineChannels(s, p);
      SameChannels(NotifyOffline(s, p), t);
      NotifyOfflineListeners(s, p);
      SameWatchers(NotifyOffline(s, p), t);
      PrepareReconnectInv(t, p.key, addrs);
    }
  }

  lemma PrepareReconnectInv(s: State, key: Key, addrs: Option<seq<string>>)
    requires Inv(s)
    ensures Inv(PrepareReconnect(s, key, addrs))
  {
    hide Indexed, Watched, Connections, Channels, Listeners;
    if key in s.persistentPeers && addrs.Some? {
      var existing := Lookup(s.persistentPeerAddrs, key);
      var t := s.(persistentPeerAddrs := s.persistentPeerAddrs[key := existing + Missing(addrs.value, existing)]);
      SameAll(s, t);
      EnsureRetryCancelInv(t, key);
    }
  }

  /** The fields about persistent peers carry no obligation of their own. */
  lemma SameAll(s: State, t: State)
    requires Inv(s)
    requires t == s.(persistentPeers := t.persistentPeers, persistentPeerAddrs := t.persistentPeerAddrs,
                     persistentConnReqs := t.persistentConnReqs)
    ensures Inv(t)
  {
    hide Indexed, Watched, Connections, Channels, Listeners;
    SameIndex(s, t);
    SameConnections(s, t);
    SameChannels(s, t);
    SameWatchers(s, t);
  }

  /** The state in which the channel for an offline notification has been made. */
  ghost function Listening(s: State, key: Key): State {
    s.(world := s.world.(nextChan := s.world.nextChan + 1, offline := s.world.offline[s.world.nextChan := key]))
  }

  lemma ListenerStored(s: State, key: Key)
    requires key in s.peersByPub
    ensures NotifyWhenOffline(s, key)
         == Listening(s, key).(peerDisconnectedListeners := s.peerDisconnectedListeners[
                                 key := Lookup(s.peerDisconnectedListeners, key) + [s.world.nextChan]])
  {
    hide Lookup;
  }

  lemma ListenerClosed(s: State, key: Key)
    requires key !in s.peersByPub
    ensures NotifyWhenOffline(s, key)
         == Listening(s, key).(world := Listening(s, key).world.(closes := s.world.closes + multiset{s.world.nextChan}))
  {
    hide Lookup;
  }

  lemma NotifyWhenOfflineFields(s: State, key: Key)
    ensures var t := NotifyWhenOffline(s, key);
            && t.peersByPub == s.peersByPub && t.inboundPeers == s.inboundPeers && t.outboundPeers == s.outboundPeers
            && t.ignorePeerTermination == s.ignorePeerTermination
            && t.scheduledPeerConnection == s.scheduledPeerConnection
            && t.world == Listening(s, key).world.(closes := t.world.closes)
    ensures var t := NotifyWhenOffline(s, key);
            if key in s.peersByPub then
              && t.peerDisconnectedListeners
                 == s.peerDisconnectedListeners[key := Lookup(s.peerDisconnectedListeners, key) + [s.world.nextChan]]
              && t.world.closes == s.world.closes
            else
              && t.peerDisconnectedListeners == s.peerDisconnectedListeners
              && t.world.closes == s.world.closes + multiset{s.world.nextChan}
  {
    hide NotifyWhenOffline, Lookup;
    if key in s.peersByPub {
      ListenerStored(s, key);
    } else {
      ListenerClosed(s, key);
    }
  }

  lemma NotifyWhenOfflineInv(s: State, key: Key)
    requires Inv(s)
    ensures Inv(NotifyWhenOffline(s, key))
  {
    hide Indexed, Watched, Connections, Channels, Listeners, NotifyWhenOffline;
    NotifyWhenOfflineFields(s, key);
    var t := NotifyWhenOffline(s, key);
    SameIndex(s, t);
    SameConnections(s, t);
    if key in s.peersByPub {
      ListenedChannels(s, key);
    } else {
      ClosedAtOnceChannels(s, key);
    }
    NotifyWhenOfflineListeners(s, key);
  }

  lemma NotifyWhenOfflineListeners(s: State, key: Key)
    requires Indexed(s) && Watched(s) && Listeners(s)
    ensures Listeners(NotifyWhenOffline(s, key))
  {
    hide NotifyWhenOffline;
    NotifyWhenOfflineFields(s, key);
    var t := NotifyWhenOffline(s, key);
    forall k | k in t.peerDisconnectedListeners ensures WatcherDue(t, k) {
      if k in s.peerDisconnectedListeners {
        assert WatcherDue(s, k);
      } else {
        assert s.peersByPub[key] in t.world.watchers && s.peersByPub[key].key == key;
      }
    }
  }

  lemma ClosedAtOnceChannels(s: State, key: Key)
    requires Channels(s) && key !in s.peersByPub
    ensures Channels(NotifyWhenOffline(s, key))
  {
    assert NotifyWhenOffline(s, key).world.closes == s.world.closes[s.world.nextChan := 1];
  }

  lemma ListenedChannels(s: State, key: Key)
    requires Channels(s) && key in s.peersByPub
    ensures Channels(NotifyWhenOffline(s, key))
  {
    hide OfflineChannels;
    ListenedOffline(s, key);
  }

  lemma ListenedOffline(s: State, key: Key)
    requires ClosedOnce(s) && OfflineChannels(s) && key in s.peersByPub
    ensures OfflineChannels(NotifyWhenOffline(s, key))
  {
    hide OpenList;
    var t, c, l := NotifyWhenOffline(s, key), s.world.nextChan, Lookup(s.peerDisconnectedListeners, key);
    forall k | k in t.peerDisconnectedListeners ensures OpenList(t.world, k, t.peerDisconnectedListeners[k]) {
      if k == key {
        OpenListAppend(s, key, l);
      } else {
        OpenListKeeps(s, k, s.peerDisconnectedListeners[k], key);
      }
    }
    assert (l + [c])[|l|] == c;
    assert forall x :: x in l ==> x in l + [c];
  }

  lemma OpenListKeeps(s: State, k: Key, l: seq<Chan>, key: Key)
    requires ClosedOnce(s) && OpenList(s.world, k, l)
    ensures OpenList(s.world.(nextChan := s.world.nextChan + 1, offline := s.world.offline[s.world.nextChan := key]), k, l)
  {
  }

  lemma OpenListAppend(s: State, key: Key, l: seq<Chan>)
    requires ClosedOnce(s) && OpenList(s.world, key, l)
    ensures OpenList(s.world.(nextChan := s.world.nextChan + 1, offline := s.world.offline[s.world.nextChan := key]),
                     key, l + [s.world.nextChan])
  {
  }

  // ----- all steps -----

  lemma InboundInv(s: State, key: Key, conn: nat)
    requires Inv(s) && conn !in s.world.handedIn
    ensures Inv(InboundPeerConnected(s, key, conn))
  {
    hide Indexed, Watched, Connections, Channels, Listeners;
    CloseConnInv(s, conn);
    var t := CancelConnReqs(s, key);
    CancelConnReqsInv(s, key);
    if key !in s.scheduledPeerConnection {
      if key !in s.peersByPub {
        PeerConnectedInv(t, key, Pending(conn, false, true));
      } else {
        ReplaceInv(t, key, Pending(conn, false, true));
      }
    }
  }

  lemma OutboundInv(s: State, key: Key, conn: nat, viaRequest: bool)
    requires Inv(s) && conn !in s.world.handedIn
    ensures Inv(OutboundPeerConnected(s, key, conn, viaRequest))
  {
    hide Indexed, Watched, Connections, Channels, Listeners;
    CloseConnInv(s, conn);
    var t := CancelConnReqs(s, key);
    CancelConnReqsInv(s, key);
    CloseConnInv(t, conn);
    if key !in s.scheduledPeerConnection {
      if key !in s.peersByPub {
        PeerConnectedInv(t, key, Pending(conn, viaRequest, false));
      } else {
        ReplaceInv(t, key, Pending(conn, viaRequest, false));
      }
    }
  }

  /** Every step keeps the invariant. */
  lemma StepInv(s: State, e: Event)
    requires Inv(s) && Enabled(s, e)
    ensures Inv(Step(s, e))
  {
    hide Inv, InboundPeerConnected, OutboundPeerConnected, PeerTerminated, NotifyWhenOffline;
    match e
    case InboundConnected(key, conn) => InboundInv(s, key, conn);
    case OutboundConnected(key, conn, viaRequest) => OutboundInv(s, key, conn, viaRequest);
    case Terminated(p, addrs) => PeerTerminatedInv(s, p, addrs);
    case RetryDue(key) =>
      var kept := StillWanted(Lookup(s.persistentConnReqs, key), Elements(Lookup(s.persistentPeerAddrs, key)));
      SameAll(s, s.(persistentConnReqs := s.persistentConnReqs[key := kept]));
      EnsureRetryCancelInv(s.(persistentConnReqs := s.persistentConnReqs[key := kept]), key);
    case RequestAdded(key, addr) => SameAll(s, AddRequest(s, key, addr));
    case ConnectPermanently(key, addr) => SameAll(s, ConnectToPeerPermanently(s, key, addr));
    case Disconnect(key) =>
      CancelConnReqsInv(s, key);
      var t := CancelConnReqs(s, key);
      SameAll(t, t.(persistentPeers := t.persistentPeers - {key}));
    case Pruned(key) =>
      var t := s.(persistentPeers := s.persistentPeers - {key}, persistentPeerAddrs := s.persistentPeerAddrs - {key});
      SameAll(s, t);
      CancelConnReqsInv(t, key);
    case ListenOffline(key) => NotifyWhenOfflineInv(s, key);
    case AddrsAnnounced(_, _) => SameAll(s, Step(s, e));
    case ChannelWatched(_) => SameAll(s, Step(s, e));
    case Established(_) => SameAll(s, Step(s, e));
  }

  lemma {:induction false} RunInv(s: State, events: seq<Event>)
    requires Inv(s) && IsRun(s, events)
    ensures Inv(After(s, events))
    decreases |events|
  {
    hide Inv, Step, Enabled;
    if events != [] {
      StepInv(s, events[0]);
      RunInv(Step(s, events[0]), events[1..]);
    }
  }

  // ----- what the invariant means for every run -----

  /** After every run from the start, the bookkeeping is consistent. */
  lemma EveryRunIsSafe(localKey: Key, persistent: map<Key, bool>, addrs: map<Key, seq<string>>, events: seq<Event>)
    requires IsRun(Initial(localKey, persistent, addrs), events)
    ensures Inv(After(Initial(localKey, persistent, addrs), events))
  {
    hide Inv, IsRun, After;
    InitialInv(localKey, persistent, addrs);
    RunInv(Initial(localKey, persistent, addrs), events);
  }

  /** A watcher of a peer that is not being replaced removes that peer and no other. */
  lemma WatcherRemovesItsOwn(s: State, p: Peer, addrs: Option<seq<string>>)
    requires Inv(s) && p in s.world.watchers && p !in s.ignorePeerTermination
    ensures p.key in s.peersByPub && s.peersByPub[p.key] == p
    ensures PeerTerminated(s, p, addrs).peersByPub == s.peersByPub - {p.key}
    ensures PeerTerminated(s, p, addrs).inboundPeers == s.inboundPeers - {p.key}
    ensures PeerTerminated(s, p, addrs).outboundPeers == s.outboundPeers - {p.key}
  {
    hide Connections, Channels, Listeners, PrepareReconnect;
    var i, o := s.inboundPeers, s.outboundPeers;
    DueIsIndexed(s, p);
    assert p.inbound ==> o - {p.key} == o;
    assert !p.inbound ==> i - {p.key} == i;
    PrepareReconnectIndexes(RemovePeer(NotifyOffline(s, p), p), p.key, addrs);
  }

  /** A connection that gets as far as the comparison of public keys meets a peer of its own direction, so the comparison
      never drops a connection: two opposite connections are told apart earlier, by who came first. */
  lemma TieBreakNeverReached(s: State, key: Key)
    requires Inv(s) && key in s.peersByPub
    ensures key !in s.outboundPeers ==> s.peersByPub[key].inbound
    ensures key !in s.inboundPeers ==> !s.peersByPub[key].inbound
  {
    hide Watched, Connections, Channels, Listeners;
    assert key in s.inboundPeers.Keys + s.outboundPeers.Keys;
  }

  lemma PrepareReconnectIndexes(s: State, key: Key, addrs: Option<seq<string>>)
    ensures PrepareReconnect(s, key, addrs).peersByPub == s.peersByPub
    ensures PrepareReconnect(s, key, addrs).inboundPeers == s.inboundPeers
    ensures PrepareReconnect(s, key, addrs).outboundPeers == s.outboundPeers
  {
  }

  ghost predicate IgnoredFor(s: State, p: Peer, key: Key) {
    p in s.ignorePeerTermination && p in s.world.watchers && p.key == key
  }

  /** A connection is scheduled for a key exactly when one replaced peer of that key still has a watcher due, and then
      there is one such peer only and no peer is connected under the key. */
  lemma ScheduledExactly(s: State, key: Key)
    requires Inv(s)
    ensures key in s.scheduledPeerConnection <==> exists p :: IgnoredFor(s, p, key)
    ensures forall p, q | IgnoredFor(s, p, key) && IgnoredFor(s, q, key) :: p == q
    ensures key in s.scheduledPeerConnection ==> key !in s.peersByPub
  {
    if key in s.scheduledPeerConnection {
      var p :| p in s.ignorePeerTermination && p.key == key;
      assert IgnoredFor(s, p, key);
    }
  }

  ghost predicate TakesOver(s: State, e: Event, key: Key) {
    e.Terminated? && e.peer.key == key && e.peer in s.ignorePeerTermination
  }

  /** What steps other than a watcher's leave alone: fates are final, scheduled connections wait, offline channels stay
      open. */
  ghost predicate Keeps(s: State, t: State) {
    && s.world.closedConns <= t.world.closedConns
    && s.world.attached <= t.world.attached
    && s.world.handedIn <= t.world.handedIn
    && (forall k | k in s.scheduledPeerConnection ::
          k in t.scheduledPeerConnection && t.scheduledPeerConnection[k] == s.scheduledPeerConnection[k])
    && (forall c | c in s.world.offline && c !in s.world.closes ::
          c in t.world.offline && t.world.offline[c] == s.world.offline[c] && c !in t.world.closes)
  }

  lemma CancelKeeps(s: State, key: Key)
    requires Channels(s)
    ensures Keeps(s, CancelConnReqs(s, key))
  {
  }

  lemma CloseConnKeeps(s: State, conn: nat)
    ensures Keeps(s, CloseConn(s, conn))
  {
  }

  lemma PeerConnectedKeeps(s: State, key: Key, c: Pending)
    ensures Keeps(s, PeerConnected(s, key, c))
  {
  }

  lemma ReplaceKeeps(s: State, key: Key, c: Pending)
    requires key in s.peersByPub && key !in s.scheduledPeerConnection
    ensures Keeps(s, Replace(s, key, c))
  {
    hide RemovePeer;
    RemovePeerFields(s, s.peersByPub[key]);
  }

  lemma RemovePeerFields(s: State, p: Peer)
    ensures RemovePeer(s, p).peersByPub == s.peersByPub - {p.key}
    ensures RemovePeer(s, p).ignorePeerTermination == s.ignorePeerTermination
    ensures RemovePeer(s, p).scheduledPeerConnection == s.scheduledPeerConnection
    ensures RemovePeer(s, p).world == s.world
  {
  }

  lemma NotifyWhenOfflineKeeps(s: State, key: Key)
    requires Channels(s)
    ensures Keeps(s, NotifyWhenOffline(s, key))
  {
    hide NotifyWhenOffline;
    NotifyWhenOfflineFields(s, key);
  }

  lemma KeepsTrans(s: State, t: State, u: State)
    requires Keeps(s, t) && Keeps(t, u)
    ensures Keeps(s, u)
  {
  }

  lemma InboundKeeps(s: State, key: Key, conn: nat)
    requires Channels(s)
    ensures Keeps(s, InboundPeerConnected(s, key, conn))
  {
    hide Channels, Keeps, CloseConn, PeerConnected, Replace;
    CloseConnKeeps(s, conn);
    CancelKeeps(s, key);
    var t, c := CancelConnReqs(s, key), Pending(conn, false, true);
    if key !in s.scheduledPeerConnection {
      if key !in s.peersByPub {
        PeerConnectedKeeps(t, key, c);
        KeepsTrans(s, t, PeerConnected(t, key, c));
      } else {
        ReplaceKeeps(t, key, c);
        KeepsTrans(s, t, Replace(t, key, c));
      }
    }
  }

  lemma OutboundKeeps(s: State, key: Key, conn: nat, viaRequest: bool)
    requires Channels(s)
    ensures Keeps(s, OutboundPeerConnected(s, key, conn, viaRequest))
  {
    hide Channels, Keeps, CloseConn, PeerConnected, Replace;
    CloseConnKeeps(s, conn);
    CancelKeeps(s, key);
    var t, c := CancelConnReqs(s, key), Pending(conn, viaRequest, false);
    CloseConnKeeps(t, conn);
    KeepsTrans(s, t, CloseConn(t, conn));
    if key !in s.scheduledPeerConnection {
      if key !in s.peersByPub {
        PeerConnectedKeeps(t, key, c);
        KeepsTrans(s, t, PeerConnected(t, key, c));
      } else {
        ReplaceKeeps(t, key, c);
        KeepsTrans(s, t, Replace(t, key, c));
      }
    }
  }

  lemma SameKeeps(s: State, t: State)
    requires t.world == s.world && t.scheduledPeerConnection == s.scheduledPeerConnection
    ensures Keeps(s, t)
  {
  }

  lemma EnsureRetryCancelKeeps(s: State, key: Key)
    ensures Keeps(s, EnsureRetryCancel(s, key))
  {
  }

  /** Only a watcher's step can attach a scheduled connection or close an offline channel. */
  lemma OtherStepKeeps(s: State, e: Event)
    requires Channels(s) && !e.Terminated?
    ensures Keeps(s, Step(s, e))
  {
    hide Channels, Keeps, InboundPeerConnected, OutboundPeerConnected, NotifyWhenOffline, CancelConnReqs;
    hide ConnectToPersistentPeer, DisconnectPeer;
    match e
    case InboundConnected(key, conn) => InboundKeeps(s, key, conn);
    case OutboundConnected(key, conn, viaRequest) => OutboundKeeps(s, key, conn, viaRequest);
    case RetryDue(key) => ReconnectKeeps(s, key);
    case RequestAdded(key, addr) => SameKeeps(s, Step(s, e));
    case ConnectPermanently(key, addr) => SameKeeps(s, Step(s, e));
    case Disconnect(key) => DisconnectKeeps(s, key);
    case Pruned(key) =>
      var t := s.(persistentPeers := s.persistentPeers - {key}, persistentPeerAddrs := s.persistentPeerAddrs - {key});
      SameKeeps(s, s);
      SameKeeps(s, t);
      PrunedKeeps(s, t, key);
    case ListenOffline(key) => NotifyWhenOfflineKeeps(s, key);
    case AddrsAnnounced(_, _) => SameKeeps(s, Step(s, e));
    case ChannelWatched(_) => SameKeeps(s, Step(s, e));
    case Established(_) => SameKeeps(s, Step(s, e));
  }

  lemma ReconnectKeeps(s: State, key: Key)
    ensures Keeps(s, ConnectToPersistentPeer(s, key))
  {
    hide Keeps, EnsureRetryCancel;
    var kept := StillWanted(Lookup(s.persistentConnReqs, key), Elements(Lookup(s.persistentPeerAddrs, key)));
    var t := s.(persistentConnReqs := s.persistentConnReqs[key := kept]);
    SameKeeps(s, t);
    EnsureRetryCancelKeeps(t, key);
    KeepsTrans(s, t, EnsureRetryCancel(t, key));
  }

  lemma DisconnectKeeps(s: State, key: Key)
    requires Channels(s)
    ensures Keeps(s, DisconnectPeer(s, key))
  {
    hide Channels, Keeps, CancelConnReqs;
    SameKeeps(s, s);
    CancelKeeps(s, key);
    var t := CancelConnReqs(s, key);
    SameKeeps(t, t.(persistentPeers := t.persistentPeers - {key}));
    KeepsTrans(s, t, t.(persistentPeers := t.persistentPeers - {key}));
  }

  lemma PrunedKeeps(s: State, t: State, key: Key)
    requires Channels(s) && Keeps(s, t)
    requires t == s.(persistentPeers := s.persistentPeers - {key}, persistentPeerAddrs := s.persistentPeerAddrs - {key})
    ensures Keeps(s, CancelConnReqs(t, key))
  {
    hide Channels, Keeps;
    SameChannels(s, t);
    CancelKeeps(t, key);
    KeepsTrans(s, t, CancelConnReqs(t, key));
  }

  /** A watcher's step closes the offline channels of its key and touches at most the connection scheduled there. */
  lemma TerminatedEffect(s: State, p: Peer, addrs: Option<seq<string>>)
    ensures PeerTerminated(s, p, addrs).world.closes == NotifyOffline(s, p).world.closes
    ensures s.world.closedConns == PeerTerminated(s, p, addrs).world.closedConns
    ensures s.world.attached <= PeerTerminated(s, p, addrs).world.attached
    ensures s.world.handedIn <= PeerTerminated(s, p, addrs).world.handedIn
    ensures forall k | k in s.scheduledPeerConnection && !(k == p.key && p in s.ignorePeerTermination) ::
              k in PeerTerminated(s, p, addrs).scheduledPeerConnection
              && PeerTerminated(s, p, addrs).scheduledPeerConnection[k] == s.scheduledPeerConnection[k]
  {
    hide PrepareReconnect, NotifyOffline, TakeOver, RemovePeer;
    var t := NotifyOffline(s, p);
    NotifyOfflineFields(s, p);
    if p in s.ignorePeerTermination {
      TakeOverFields(t, p);
    } else {
      RemovePeerFields(t, p);
      PrepareReconnectEffect(RemovePeer(t, p), p.key, addrs);
    }
  }

  lemma NotifyOfflineFields(s: State, p: Peer)
    ensures var t := NotifyOffline(s, p);
            && t.peersByPub == s.peersByPub && t.inboundPeers == s.inboundPeers && t.outboundPeers == s.outboundPeers
            && t.ignorePeerTermination == s.ignorePeerTermination
            && t.scheduledPeerConnection == s.scheduledPeerConnection
            && t.world == s.world.(closes := t.world.closes, watchers := s.world.watchers - {p})
  {
  }

  /** The scheduled connection, if there is one, is attached as a new peer under the key. */
  lemma TakeOverFields(s: State, p: Peer)
    ensures var t := TakeOver(s, p);
            && t.scheduledPeerConnection == s.scheduledPeerConnection - {p.key}
            && t.world.closes == s.world.closes && t.world.closedConns == s.world.closedConns
            && s.world.handedIn <= t.world.handedIn && s.world.attached <= t.world.attached
    ensures p.key in s.scheduledPeerConnection ==>
              var t, q := TakeOver(s, p), NewPeer(s, p.key, s.scheduledPeerConnection[p.key]);
              t.peersByPub == s.peersByPub[p.key := q] && t.world.attached == s.world.attached + {q}
  {
    hide PeerConnected;
    if p.key in s.scheduledPeerConnection {
      var t := s.(ignorePeerTermination := s.ignorePeerTermination - {p},
                  scheduledPeerConnection := s.scheduledPeerConnection - {p.key});
      PeerConnectedFields(t, p.key, s.scheduledPeerConnection[p.key]);
    }
  }

  lemma PrepareReconnectEffect(s: State, key: Key, addrs: Option<seq<string>>)
    ensures PrepareReconnect(s, key, addrs).world == s.world.(nextChan := PrepareReconnect(s, key, addrs).world.nextChan)
    ensures PrepareReconnect(s, key, addrs).scheduledPeerConnection == s.scheduledPeerConnection
  {
  }

  /** A scheduled connection stays scheduled until the watcher of the peer it replaces runs. */
  lemma ScheduledStays(s: State, e: Event, key: Key)
    requires Inv(s) && Enabled(s, e)
    requires key in s.scheduledPeerConnection && !TakesOver(s, e, key)
    ensures key in Step(s, e).scheduledPeerConnection
    ensures Step(s, e).scheduledPeerConnection[key] == s.scheduledPeerConnection[key]
  {
    hide Indexed, Watched, Connections, Channels, Listeners, Step;
    if e.Terminated? {
      TerminatedIsStep(s, e);
      TerminatedEffect(s, e.peer, e.addrs);
    } else {
      OtherStepKeeps(s, e);
    }
  }

  lemma TerminatedIsStep(s: State, e: Event)
    requires e.Terminated?
    ensures Step(s, e) == PeerTerminated(s, e.peer, e.addrs)
  {
  }

  /** That watcher, and nothing else, attaches it: the new peer is indexed under the key with the scheduled connection. */
  lemma ScheduledTakesOver(s: State, e: Event, key: Key)
    requires Inv(s) && Enabled(s, e)
    requires key in s.scheduledPeerConnection && TakesOver(s, e, key)
    ensures key !in Step(s, e).scheduledPeerConnection
    ensures key in Step(s, e).peersByPub
    ensures Step(s, e).peersByPub[key].conn == s.scheduledPeerConnection[key].conn
    ensures Step(s, e).peersByPub[key].inbound == s.scheduledPeerConnection[key].inbound
    ensures Step(s, e).peersByPub[key] !in s.world.attached
    ensures Step(s, e).world.attached == s.world.attached + {Step(s, e).peersByPub[key]}
  {
    hide Connections, Channels, Listeners, Indexed, Step, NotifyOffline, TakeOver;
    TerminatedIsStep(s, e);
    NotifyOfflineFields(s, e.peer);
    TakeOverFields(NotifyOffline(s, e.peer), e.peer);
  }

  ghost predicate RunAvoids(s: State, events: seq<Event>, key: Key)
    decreases |events|
  {
    events == [] || (!TakesOver(s, events[0], key) && RunAvoids(Step(s, events[0]), events[1..], key))
  }

  /** Over a whole run without that watcher's turn, the connection waits. */
  lemma {:induction false} ScheduledWaits(s: State, events: seq<Event>, key: Key)
    requires Inv(s) && IsRun(s, events) && RunAvoids(s, events, key)
    requires key in s.scheduledPeerConnection
    ensures key in After(s, events).scheduledPeerConnection
    ensures After(s, events).scheduledPeerConnection[key] == s.scheduledPeerConnection[key]
    decreases |events|
  {
    hide Inv, Step, Enabled, TakesOver;
    if events != [] {
      StepInv(s, events[0]);
      ScheduledStays(s, events[0], key);
      ScheduledWaits(Step(s, events[0]), events[1..], key);
    }
  }

  /** A connection handed in meets exactly one of three fates. */
  lemma OneFate(s: State, c: nat)
    requires Inv(s) && c in s.world.handedIn
    ensures c in s.world.closedConns || IsScheduled(s, c) || IsAttached(s, c)
    ensures !(c in s.world.closedConns && IsScheduled(s, c))
    ensures !(c in s.world.closedConns && IsAttached(s, c))
    ensures !(IsScheduled(s, c) && IsAttached(s, c))
  {
    hide Indexed, Watched, Channels, Listeners;
  }

  /** Closed and attached are final: no step undoes them. */
  lemma FatesAreFinal(s: State, e: Event)
    requires Inv(s)
    ensures s.world.closedConns <= Step(s, e).world.closedConns
    ensures s.world.attached <= Step(s, e).world.attached
    ensures s.world.handedIn <= Step(s, e).world.handedIn
  {
    hide Indexed, Watched, Connections, Channels, Listeners, Step, PeerTerminated;
    if e.Terminated? {
      TerminatedIsStep(s, e);
      TerminatedEffect(s, e.peer, e.addrs);
    } else {
      OtherStepKeeps(s, e);
    }
  }

  /** An open offline channel has a watcher due for its key, and is closed by exactly the next one that runs. */
  lemma OfflineClosedByWatcher(s: State, e: Event, c: Chan)
    requires Inv(s) && Enabled(s, e)
    requires c in s.world.offline && c !in s.world.closes
    ensures WatcherDue(s, s.world.offline[c])
    ensures c in Step(s, e).world.closes <==> e.Terminated? && e.peer.key == s.world.offline[c]
  {
    hide Indexed, Watched, Connections, Step, PeerTerminated;
    if e.Terminated? {
      TerminatedIsStep(s, e);
      TerminatedEffect(s, e.peer, e.addrs);
      NotifyOfflineCloses(s, e.peer, c);
    } else {
      OtherStepKeeps(s, e);
    }
  }

  lemma NotifyOfflineCloses(s: State, p: Peer, c: Chan)
    requires Channels(s) && c in s.world.offline && c !in s.world.closes
    ensures c in NotifyOffline(s, p).world.closes <==> p.key == s.world.offline[c]
  {
    if p.key in s.peerDisconnectedListeners {
      var l := s.peerDisconnectedListeners[p.key];
      assert OpenList(s.world, p.key, l);
      assert c in l <==> c in multiset(l);
    }
  }
}
