/** The server object: the methods that run under its mutex, updating its maps in place. */
module Server {
  import opened Options
  import PeerSafety
  import opened PeerState

  class Server {
    const localKey: Key
    var peersByPub: map<Key, Peer>
    var inboundPeers: map<Key, Peer>
    var outboundPeers: map<Key, Peer>
    var ignorePeerTermination: set<Peer>
    var scheduledPeerConnection: map<Key, Pending>
    var persistentPeers: map<Key, bool>
    var persistentPeerAddrs: map<Key, seq<string>>
    var persistentConnReqs: map<Key, seq<string>>
    var persistentRetryCancels: map<Key, Chan>
    var peerDisconnectedListeners: map<Key, seq<Chan>>
    var world: World

    ghost function State(): State
      reads this
    {
      PeerState.State(localKey, peersByPub, inboundPeers, outboundPeers, ignorePeerTermination, scheduledPeerConnection,
                      persistentPeers, persistentPeerAddrs, persistentConnReqs, persistentRetryCancels,
                      peerDisconnectedListeners, world)
    }

    /** The bookkeeping is consistent. */
    ghost predicate Valid()
      reads this
    {
      PeerSafety.Inv(State())
    }

    constructor (localKey: Key, persistent: map<Key, bool>, addrs: map<Key, seq<string>>)
      ensures Valid() && State() == Initial(localKey, persistent, addrs)
      ensures peersByPub == map[] && persistentPeers == persistent && persistentPeerAddrs == addrs
    {
      this.localKey := localKey;
      peersByPub, inboundPeers, outboundPeers := map[], map[], map[];
      ignorePeerTermination, scheduledPeerConnection := {}, map[];
      persistentPeers, persistentPeerAddrs := persistent, addrs;
      persistentConnReqs, persistentRetryCancels, peerDisconnectedListeners := map[], map[], map[];
      world := World({}, {}, {}, {}, multiset{}, map[], 0, 0);
      new;
      PeerSafety.InitialInv(localKey, persistent, addrs);
    }

    // ----- the world outside the maps -----

    method Close(conn: nat)
      modifies this`world
      ensures State() == CloseConn(old(State()), conn)
    {
      world := world.(handedIn := world.handedIn + {conn}, closedConns := world.closedConns + {conn});
    }

    method CloseChannel(c: Chan)
      modifies this`world
      ensures world == old(world).(closes := old(world).closes + multiset{c})
    {
      world := world.(closes := world.closes + multiset{c});
    }

    method MakeChannel() returns (c: Chan)
      modifies this`world
      ensures c == old(world).nextChan && world == old(world).(nextChan := c + 1)
    {
      c := world.nextChan;
      world := world.(nextChan := c + 1);
    }

    // ----- sections run under the mutex -----

    method HandleInboundConnection(key: Key, conn: nat)
      requires Valid() && Enabled(State(), InboundConnected(key, conn))
      modifies this
      ensures Valid()
      ensures State() == InboundPeerConnected(old(State()), key, conn)
    {
      hide PeerState.CancelConnReqs, PeerState.PeerConnected, PeerState.RemovePeer, PeerState.CloseConn, PeerSafety.Inv;
      PeerSafety.StepInv(State(), InboundConnected(key, conn));
      if key in outboundPeers {
        Close(conn);
        return;
      }
      if key in scheduledPeerConnection {
        Close(conn);
        return;
      }
      if key !in peersByPub {
        CancelRequests(key);
        Connect(key, Pending(conn, false, true));
        return;
      }
      var connectedPeer := peersByPub[key];
      if !connectedPeer.inbound && !ShouldDropLocalConnection(localKey, key) {
        Close(conn);
        return;
      }
      CancelRequests(key);
      ghost var before := State();
      CancelLeavesPeers(old(State()), key);
      Remove(connectedPeer);
      ignorePeerTermination := ignorePeerTermination + {connectedPeer};
      Schedule(before, key, Pending(conn, false, true));
    }

    method HandleOutboundConnection(key: Key, conn: nat, viaRequest: bool)
      requires Valid() && Enabled(State(), OutboundConnected(key, conn, viaRequest))
      modifies this
      ensures Valid()
      ensures State() == OutboundPeerConnected(old(State()), key, conn, viaRequest)
    {
      hide PeerState.CancelConnReqs, PeerState.PeerConnected, PeerState.RemovePeer, PeerState.CloseConn, PeerSafety.Inv;
      PeerSafety.StepInv(State(), OutboundConnected(key, conn, viaRequest));
      if key in inboundPeers {
        Close(conn);
        return;
      }
      if key !in persistentConnReqs && viaRequest {
        Close(conn);
        return;
      }
      if key in scheduledPeerConnection {
        Close(conn);
        return;
      }
      CancelLeavesPeers(State(), key);
      CancelRequests(key);
      if key !in peersByPub {
        Connect(key, Pending(conn, viaRequest, false));
        return;
      }
      var connectedPeer := peersByPub[key];
      if connectedPeer.inbound && ShouldDropLocalConnection(localKey, key) {
        Close(conn);
        return;
      }
      ghost var before := State();
      Remove(connectedPeer);
      ignorePeerTermination := ignorePeerTermination + {connectedPeer};
      Schedule(before, key, Pending(conn, viaRequest, false));
    }

    /** Stores the connection for the watcher of the peer just removed. */
    method Schedule(ghost before: State, key: Key, c: Pending)
      requires key in before.peersByPub
      requires var t := RemovePeer(before, before.peersByPub[key]);
               State() == t.(ignorePeerTermination := t.ignorePeerTermination + {before.peersByPub[key]})
      modifies this`scheduledPeerConnection, this`world
      ensures State() == Replace(before, key, c)
    {
      hide PeerState.RemovePeer;
      scheduledPeerConnection := scheduledPeerConnection[key := c];
      world := world.(handedIn := world.handedIn + {c.conn});
    }

    lemma CancelLeavesPeers(s: State, key: Key)
      ensures PeerState.CancelConnReqs(s, key).peersByPub == s.peersByPub
    {
    }

    method CancelRequests(key: Key)
      modifies this`persistentRetryCancels, this`persistentConnReqs, this`world
      ensures State() == CancelConnReqs(old(State()), key)
    {
      if key in persistentRetryCancels {
        CloseChannel(persistentRetryCancels[key]);
        persistentRetryCancels := persistentRetryCancels - {key};
      }
      if key !in persistentConnReqs {
        assert persistentConnReqs - {key} == persistentConnReqs;
        return;
      }
      persistentConnReqs := persistentConnReqs - {key};
    }

    method Connect(key: Key, c: Pending)
      modifies this`peersByPub, this`inboundPeers, this`outboundPeers, this`world
      ensures State() == PeerConnected(old(State()), key, c)
    {
      var p := Peer(world.nextPeer, key, c.conn, c.viaRequest, c.inbound);
      Add(p);
      world := world.(attached := world.attached + {p}, watchers := world.watchers + {p},
                      handedIn := world.handedIn + {c.conn}, nextPeer := world.nextPeer + 1);
    }

    method Add(p: Peer)
      modifies this`peersByPub, this`inboundPeers, this`outboundPeers
      ensures State() == AddPeer(old(State()), p)
    {
      peersByPub := peersByPub[p.key := p];
      if p.inbound {
        inboundPeers := inboundPeers[p.key := p];
      } else {
        outboundPeers := outboundPeers[p.key := p];
      }
    }

    method Remove(p: Peer)
      modifies this`peersByPub, this`inboundPeers, this`outboundPeers
      ensures State() == RemovePeer(old(State()), p)
    {
      peersByPub := peersByPub - {p.key};
      if p.inbound {
        inboundPeers := inboundPeers - {p.key};
      } else {
        outboundPeers := outboundPeers - {p.key};
      }
    }

    /** The watcher's section, for the last address used and what is known of the advertised ones. */
    method HandleTermination(p: Peer, advertised: Advertised, last: string, tor: bool)
      requires Valid() && p in world.watchers
      modifies this
      ensures Valid()
      ensures State() == PeerTerminated(old(State()), p, ReconnectAddrs(p, advertised, last, tor))
    {
      hide PeerState.PeerConnected, PeerState.RemovePeer, PeerSafety.Inv;
      PeerSafety.StepInv(State(), Terminated(p, ReconnectAddrs(p, advertised, last, tor)));
      CloseListeners(p);
      if p in ignorePeerTermination {
        ignorePeerTermination := ignorePeerTermination - {p};
        if p.key in scheduledPeerConnection {
          var c := scheduledPeerConnection[p.key];
          scheduledPeerConnection := scheduledPeerConnection - {p.key};
          Connect(p.key, c);
        }
        return;
      }
      Remove(p);
      var addrs := AddrsToTry(p, advertised, last, tor);
      SetUpReconnect(p.key, addrs);
    }

    method AddrsToTry(p: Peer, advertised: Advertised, last: string, tor: bool) returns (addrs: Option<seq<string>>)
      ensures addrs == ReconnectAddrs(p, advertised, last, tor)
    {
      addrs := Some([last]);
      match advertised {
        case Addrs(a) =>
          addrs := Some(a);
        case NoAddr =>
          if p.inbound && tor {
            addrs := None;
          }
        case LookupFailed =>
      }
    }

    method CloseListeners(p: Peer)
      modifies this`peerDisconnectedListeners, this`world
      ensures State() == NotifyOffline(old(State()), p)
    {
      var l := Lookup(peerDisconnectedListeners, p.key);
      for i := 0 to |l|
        invariant peerDisconnectedListeners == old(peerDisconnectedListeners)
        invariant world == old(world).(closes := old(world).closes + multiset(l[..i]))
      {
        assert l[..i + 1] == l[..i] + [l[i]];
        CloseChannel(l[i]);
      }
      assert l[..|l|] == l;
      assert multiset(l) == if p.key in peerDisconnectedListeners then multiset(peerDisconnectedListeners[p.key]) else multiset{};
      peerDisconnectedListeners := peerDisconnectedListeners - {p.key};
      world := world.(watchers := world.watchers - {p});
    }

    method SetUpReconnect(key: Key, addrs: Option<seq<string>>)
      modifies this`persistentPeerAddrs, this`persistentRetryCancels, this`world
      ensures State() == PrepareReconnect(old(State()), key, addrs)
    {
      if key !in persistentPeers || addrs.None? {
        return;
      }
      var existing := Lookup(persistentPeerAddrs, key);
      var known := existing;
      for i := 0 to |addrs.value|
        invariant known + Missing(addrs.value[i..], existing) == existing + Missing(addrs.value, existing)
      {
        if addrs.value[i] !in existing {
          known := known + [addrs.value[i]];
        }
      }
      assert addrs.value[|addrs.value|..] == [] && known + [] == known;
      persistentPeerAddrs := persistentPeerAddrs[key := known];
      EnsureRetry(key);
    }

    method EnsureRetry(key: Key)
      modifies this`persistentRetryCancels, this`world
      ensures State() == EnsureRetryCancel(old(State()), key)
    {
      if key !in persistentRetryCancels {
        var c := MakeChannel();
        persistentRetryCancels := persistentRetryCancels[key := c];
      }
    }

    method Reconnect(key: Key)
      requires Valid()
      modifies this`persistentConnReqs, this`persistentRetryCancels, this`world
      ensures Valid()
      ensures State() == ConnectToPersistentPeer(old(State()), key)
    {
      hide PeerSafety.Inv, StillWanted, Elements, Lookup;
      PeerSafety.StepInv(State(), RetryDue(key));
      var updated := KeepWanted(Lookup(persistentConnReqs, key), Elements(Lookup(persistentPeerAddrs, key)));
      persistentConnReqs := persistentConnReqs[key := updated];
      EnsureRetry(key);
    }

    /** One turn of the goroutine that adds the missing requests. */
    method AppendRequest(key: Key, addr: string)
      requires Valid()
      modifies this`persistentConnReqs
      ensures Valid()
      ensures State() == AddRequest(old(State()), key, addr)
    {
      hide PeerSafety.Inv;
      PeerSafety.StepInv(State(), RequestAdded(key, addr));
      persistentConnReqs := persistentConnReqs[key := Lookup(persistentConnReqs, key) + [addr]];
    }

    /** Only a permanent connection is recorded; any other is dialled, and handed in once it stands. */
    method ConnectToPeer(key: Key, addr: string, perm: bool) returns (ok: bool)
      requires Valid()
      modifies this`persistentPeers, this`persistentConnReqs
      ensures Valid()
      ensures ok <==> key !in old(peersByPub)
      ensures State() == if perm then ConnectToPeerPermanently(old(State()), key, addr) else old(State())
    {
      hide PeerSafety.Inv;
      PeerSafety.StepInv(State(), ConnectPermanently(key, addr));
      if key in peersByPub {
        return false;
      }
      if perm {
        persistentPeers := persistentPeers[key := true];
        persistentConnReqs := persistentConnReqs[key := Lookup(persistentConnReqs, key) + [addr]];
      }
      return true;
    }

    method DisconnectFrom(key: Key) returns (ok: bool)
      requires Valid()
      modifies this
      ensures Valid()
      ensures ok <==> key in old(peersByPub)
      ensures State() == DisconnectPeer(old(State()), key)
    {
      hide PeerSafety.Inv;
      PeerSafety.StepInv(State(), Disconnect(key));
      if key !in peersByPub {
        return false;
      }
      CancelRequests(key);
      persistentPeers := persistentPeers - {key};
      return true;
    }

    method Prune(key: Key)
      requires Valid()
      modifies this
      ensures Valid()
      ensures State() == PrunePersistentPeerConnection(old(State()), key)
    {
      hide PeerSafety.Inv;
      PeerSafety.StepInv(State(), Pruned(key));
      if key in persistentPeers && !persistentPeers[key] {
        persistentPeers := persistentPeers - {key};
        persistentPeerAddrs := persistentPeerAddrs - {key};
        CancelRequests(key);
      }
    }

    /** The caller gets a channel that is closed once the peer is offline. */
    method ListenForOffline(key: Key) returns (c: Chan)
      requires Valid()
      modifies this
      ensures Valid()
      ensures c == old(world).nextChan
      ensures State() == NotifyWhenOffline(old(State()), key)
    {
      hide PeerSafety.Inv, Lookup;
      PeerSafety.StepInv(State(), ListenOffline(key));
      c := MakeChannel();
      world := world.(offline := world.offline[c := key]);
      if key !in peersByPub {
        CloseChannel(c);
        return;
      }
      peerDisconnectedListeners :=
        peerDisconnectedListeners[key := Lookup(peerDisconnectedListeners, key) + [c]];
    }

    /** New addresses of a persistent peer; whether there are requests that should follow them. */
    method AnnounceAddrs(key: Key, addrs: seq<string>) returns (reconnect: bool)
      requires Valid()
      modifies this`persistentPeerAddrs
      ensures Valid()
      ensures State() == UpdatePersistentPeerAddrs(old(State()), key, addrs)
      ensures reconnect <==> Lookup(persistentConnReqs, key) != []
    {
      hide PeerSafety.Inv;
      PeerSafety.StepInv(State(), AddrsAnnounced(key, addrs));
      persistentPeerAddrs := persistentPeerAddrs[key := addrs];
      reconnect := |Lookup(persistentConnReqs, key)| != 0;
    }

    method WatchChannel(key: Key)
      requires Valid()
      modifies this`persistentPeers
      ensures Valid()
      ensures State() == WatchNewChannel(old(State()), key)
    {
      hide PeerSafety.Inv;
      PeerSafety.StepInv(State(), ChannelWatched(key));
      if key !in persistentPeers {
        persistentPeers := persistentPeers[key := false];
      }
    }

    method Establish(nodes: map<Key, seq<string>>)
      requires Valid()
      modifies this`persistentPeers, this`persistentPeerAddrs
      ensures Valid()
      ensures State() == EstablishPersistentConnections(old(State()), nodes)
    {
      hide PeerSafety.Inv;
      PeerSafety.StepInv(State(), Established(nodes));
      persistentPeers, persistentPeerAddrs := Enlist(nodes, persistentPeers, persistentPeerAddrs);
    }
  }

  /** Keeps one request for each address still wanted. */
  method KeepWanted(requests: seq<string>, addrs: set<string>) returns (updated: seq<string>)
    ensures updated == StillWanted(requests, addrs)
  {
    var wanted := addrs;
    updated := [];
    for i := 0 to |requests|
      invariant updated + StillWanted(requests[i..], wanted) == StillWanted(requests, addrs)
    {
      if requests[i] in wanted {
        updated := updated + [requests[i]];
        wanted := wanted - {requests[i]};
      }
    }
    assert requests[|requests|..] == [] && updated + [] == updated;
  }

  method Enlist(nodes: map<Key, seq<string>>, persistent: map<Key, bool>, known: map<Key, seq<string>>)
    returns (peers: map<Key, bool>, addrs: map<Key, seq<string>>)
    ensures peers == persistent + (map k | k in nodes :: false)
    ensures addrs == known + (map k | k in nodes :: Lookup(known, k) + nodes[k])
  {
    hide Lookup, Overlay;
    ghost var flags := map k | k in nodes :: false;
    ghost var lists := map k | k in nodes :: Lookup(known, k) + nodes[k];
    peers, addrs := persistent, known;
    OverlayNone(persistent, flags);
    OverlayNone(known, lists);
    ghost var done: set<Key> := {};
    var left := nodes.Keys;
    while left != {}
      invariant left <= nodes.Keys && done == nodes.Keys - left
      invariant peers == Overlay(persistent, flags, done) && addrs == Overlay(known, lists, done)
      decreases left
    {
      var k :| k in left;
      OverlayOne(persistent, flags, done, k);
      OverlayOne(known, lists, done, k);
      SameLookup(addrs, known, k);
      peers := peers[k := false];
      addrs := addrs[k := Lookup(addrs, k) + nodes[k]];
      left, done := left - {k}, done + {k};
    }
    OverlayAll(persistent, flags, done);
    OverlayAll(known, lists, done);
  }

  /** A map changed to another one at some keys. */
  ghost function Overlay<K, V>(m: map<K, V>, n: map<K, V>, done: set<K>): map<K, V> {
    m + map k | k in n && k in done :: n[k]
  }

  lemma OverlayNone<K, V>(m: map<K, V>, n: map<K, V>)
    ensures Overlay(m, n, {}) == m
  {
  }

  lemma OverlayOne<K, V>(m: map<K, V>, n: map<K, V>, done: set<K>, k: K)
    requires k in n && k !in done
    ensures Overlay(m, n, done + {k}) == Overlay(m, n, done)[k := n[k]]
    ensures k in Overlay(m, n, done) <==> k in m
    ensures k in m ==> Overlay(m, n, done)[k] == m[k]
  {
  }

  lemma OverlayAll<K, V>(m: map<K, V>, n: map<K, V>, done: set<K>)
    requires done == n.Keys
    ensures Overlay(m, n, done) == m + n
  {
    assert (map k | k in n && k in done :: n[k]) == n;
  }

  lemma SameLookup(a: map<Key, seq<string>>, b: map<Key, seq<string>>, k: Key)
    requires k in a <==> k in b
    requires k in a ==> a[k] == b[k]
    ensures Lookup(a, k) == Lookup(b, k)
  {
  }
}
