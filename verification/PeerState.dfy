/** The server's peer bookkeeping as a state machine: every section run under the server's mutex is one step. */
module PeerState {
  import opened Options

  type Key = string
  type Chan = nat

  /** One connected peer object; objects with equal fields but different ids are different. */
  datatype Peer = Peer(id: nat, key: Key, conn: nat, viaRequest: bool, inbound: bool)

  /** A connection kept for later, with the arguments peerConnected will get. */
  datatype Pending = Pending(conn: nat, viaRequest: bool, inbound: bool)

  datatype State = State(
    localKey: Key,
    peersByPub: map<Key, Peer>,
    inboundPeers: map<Key, Peer>,
    outboundPeers: map<Key, Peer>,
    ignorePeerTermination: set<Peer>,
    scheduledPeerConnection: map<Key, Pending>,
    persistentPeers: map<Key, bool>,
    persistentPeerAddrs: map<Key, seq<string>>,
    persistentConnReqs: map<Key, seq<string>>,
    persistentRetryCancels: map<Key, Chan>,
    peerDisconnectedListeners: map<Key, seq<Chan>>,
    world: World)

  /** What goes on outside the maps: the peers ever attached, the termination watchers still due, the connections handed
      in and those closed unused, every close of a channel, and the key each offline channel was given out for. */
  datatype World = World(
    attached: set<Peer>,
    watchers: set<Peer>,
    handedIn: set<nat>,
    closedConns: set<nat>,
    closes: multiset<Chan>,
    offline: map<Chan, Key>,
    nextPeer: nat,
    nextChan: nat)

  datatype Event =
    | InboundConnected(key: Key, conn: nat)
    | OutboundConnected(key: Key, conn: nat, viaRequest: bool)
    | Terminated(peer: Peer, addrs: Option<seq<string>>)
    | RetryDue(key: Key)
    | RequestAdded(key: Key, addr: string)
    | ConnectPermanently(key: Key, addr: string)
    | Disconnect(key: Key)
    | Pruned(key: Key)
    | ListenOffline(key: Key)
    | AddrsAnnounced(key: Key, announced: seq<string>)
    | ChannelWatched(key: Key)
    | Established(nodes: map<Key, seq<string>>)

  // ----- the operations -----

  /** The first string is greater, bytewise. */
  predicate Greater(a: Key, b: Key) {
    if a == [] then false
    else if b == [] then true
    else a[0] > b[0] || (a[0] == b[0] && Greater(a[1..], b[1..]))
  }

  predicate ShouldDropLocalConnection(local: Key, remote: Key) {
    Greater(local, remote)
  }

  function CloseConn(s: State, conn: nat): State {
    s.(world := s.world.(handedIn := s.world.handedIn + {conn}, closedConns := s.world.closedConns + {conn}))
  }

  function CancelConnReqs(s: State, key: Key): State {
    var t := if key in s.persistentRetryCancels
             then s.(world := s.world.(closes := s.world.closes + multiset{s.persistentRetryCancels[key]}),
                     persistentRetryCancels := s.persistentRetryCancels - {key})
             else s;
    t.(persistentConnReqs := t.persistentConnReqs - {key})
  }

  function AddPeer(s: State, p: Peer): State {
    if p.inbound then s.(peersByPub := s.peersByPub[p.key := p], inboundPeers := s.inboundPeers[p.key := p])
    else s.(peersByPub := s.peersByPub[p.key := p], outboundPeers := s.outboundPeers[p.key := p])
  }

  function NewPeer(s: State, key: Key, c: Pending): Peer {
    Peer(s.world.nextPeer, key, c.conn, c.viaRequest, c.inbound)
  }

  /** The peer is indexed, and its termination watcher is started. */
  function PeerConnected(s: State, key: Key, c: Pending): State {
    var p := NewPeer(s, key, c);
    var t := AddPeer(s, p);
    t.(world := t.world.(attached := t.world.attached + {p}, watchers := t.world.watchers + {p},
                         handedIn := t.world.handedIn + {c.conn}, nextPeer := t.world.nextPeer + 1))
  }

  function RemovePeer(s: State, p: Peer): State {
    var t := s.(peersByPub := s.peersByPub - {p.key});
    if p.inbound then t.(inboundPeers := t.inboundPeers - {p.key})
    else t.(outboundPeers := t.outboundPeers - {p.key})
  }

  /** The connected peer makes way for a new connection, which waits for the old peer's watcher. */
  function Replace(s: State, key: Key, c: Pending): State
    requires key in s.peersByPub
  {
    var p := s.peersByPub[key];
    var t := RemovePeer(s, p);
    t.(ignorePeerTermination := t.ignorePeerTermination + {p},
       scheduledPeerConnection := t.scheduledPeerConnection[key := c],
       world := t.world.(handedIn := t.world.handedIn + {c.conn}))
  }

  function InboundPeerConnected(s: State, key: Key, conn: nat): State {
    if key in s.outboundPeers || key in s.scheduledPeerConnection then CloseConn(s, conn)
    else if key !in s.peersByPub then PeerConnected(CancelConnReqs(s, key), key, Pending(conn, false, true))
    else if !s.peersByPub[key].inbound && !ShouldDropLocalConnection(s.localKey, key) then CloseConn(s, conn)
    else Replace(CancelConnReqs(s, key), key, Pending(conn, false, true))
  }

  function OutboundPeerConnected(s: State, key: Key, conn: nat, viaRequest: bool): State {
    if key in s.inboundPeers then CloseConn(s, conn)
    else if key !in s.persistentConnReqs && viaRequest then CloseConn(s, conn)
    else if key in s.scheduledPeerConnection then CloseConn(s, conn)
    else
      var t := CancelConnReqs(s, key);
      if key !in t.peersByPub then PeerConnected(t, key, Pending(conn, viaRequest, false))
      else if t.peersByPub[key].inbound && ShouldDropLocalConnection(s.localKey, key) then CloseConn(t, conn)
      else Replace(t, key, Pending(conn, viaRequest, false))
  }

  /** The watcher is done waiting: it closes the offline channels for its key. */
  function NotifyOffline(s: State, p: Peer): State {
    var closed := if p.key in s.peerDisconnectedListeners then multiset(s.peerDisconnectedListeners[p.key]) else multiset{};
    s.(peerDisconnectedListeners := s.peerDisconnectedListeners - {p.key},
       world := s.world.(closes := s.world.closes + closed, watchers := s.world.watchers - {p}))
  }

  /** A peer the server has already removed: the connection that was waiting for it takes over. */
  function TakeOver(s: State, p: Peer): State {
    var t := s.(ignorePeerTermination := s.ignorePeerTermination - {p});
    if p.key in t.scheduledPeerConnection then
      var c := t.scheduledPeerConnection[p.key];
      PeerConnected(t.(scheduledPeerConnection := t.scheduledPeerConnection - {p.key}), p.key, c)
    else t
  }

  function Missing(addrs: seq<string>, existing: seq<string>): seq<string> {
    if addrs == [] then []
    else (if addrs[0] in existing then [] else [addrs[0]]) + Missing(addrs[1..], existing)
  }

  function Lookup<T>(m: map<Key, seq<T>>, key: Key): seq<T> {
    if key in m then m[key] else []
  }

  function EnsureRetryCancel(s: State, key: Key): State {
    if key in s.persistentRetryCancels then s
    else s.(persistentRetryCancels := s.persistentRetryCancels[key := s.world.nextChan],
            world := s.world.(nextChan := s.world.nextChan + 1))
  }

  /** A persistent peer went away: its addresses are recorded and a retry is set up. */
  function PrepareReconnect(s: State, key: Key, addrs: Option<seq<string>>): State {
    if key !in s.persistentPeers || addrs.None? then s
    else
      var existing := Lookup(s.persistentPeerAddrs, key);
      EnsureRetryCancel(
        s.(persistentPeerAddrs := s.persistentPeerAddrs[key := existing + Missing(addrs.value, existing)]), key)
  }

  /** What is known of a peer's advertised addresses. */
  datatype Advertised = Addrs(addrs: seq<string>) | NoAddr | LookupFailed

  /** The addresses to reconnect to: the advertised ones, or else the last one used. Behind Tor the address of an inbound
      peer is of no use. */
  function ReconnectAddrs(p: Peer, advertised: Advertised, last: string, tor: bool): Option<seq<string>> {
    match advertised
    case Addrs(addrs) => Some(addrs)
    case NoAddr => if p.inbound && tor then None else Some([last])
    case LookupFailed => Some([last])
  }

  function PeerTerminated(s: State, p: Peer, addrs: Option<seq<string>>): State {
    var t := NotifyOffline(s, p);
    if p in t.ignorePeerTermination then TakeOver(t, p)
    else PrepareReconnect(RemovePeer(t, p), p.key, addrs)
  }

  /** Keeps one request for each address still wanted. */
  function StillWanted(requests: seq<string>, wanted: set<string>): seq<string> {
    if requests == [] then []
    else if requests[0] in wanted then [requests[0]] + StillWanted(requests[1..], wanted - {requests[0]})
    else StillWanted(requests[1..], wanted)
  }

  function Elements(a: seq<string>): set<string> {
    set i | 0 <= i < |a| :: a[i]
  }

  function ConnectToPersistentPeer(s: State, key: Key): State {
    var kept := StillWanted(Lookup(s.persistentConnReqs, key), Elements(Lookup(s.persistentPeerAddrs, key)));
    EnsureRetryCancel(s.(persistentConnReqs := s.persistentConnReqs[key := kept]), key)
  }

  function AddRequest(s: State, key: Key, addr: string): State {
    s.(persistentConnReqs := s.persistentConnReqs[key := Lookup(s.persistentConnReqs, key) + [addr]])
  }

  function ConnectToPeerPermanently(s: State, key: Key, addr: string): State {
    if key in s.peersByPub then s
    else AddRequest(s.(persistentPeers := s.persistentPeers[key := true]), key, addr)
  }

  function DisconnectPeer(s: State, key: Key): State {
    if key !in s.peersByPub then s
    else
      var t := CancelConnReqs(s, key);
      t.(persistentPeers := t.persistentPeers - {key})
  }

  function PrunePersistentPeerConnection(s: State, key: Key): State {
    if key in s.persistentPeers && !s.persistentPeers[key] then
      CancelConnReqs(s.(persistentPeers := s.persistentPeers - {key},
                        persistentPeerAddrs := s.persistentPeerAddrs - {key}), key)
    else s
  }

  /** A channel that is closed when the peer goes offline, at once if it is offline already. */
  function NotifyWhenOffline(s: State, key: Key): State {
    var c := s.world.nextChan;
    var w := s.world.(nextChan := c + 1, offline := s.world.offline[c := key]);
    if key !in s.peersByPub then s.(world := w.(closes := w.closes + multiset{c}))
    else s.(world := w,
            peerDisconnectedListeners := s.peerDisconnectedListeners[key := Lookup(s.peerDisconnectedListeners, key) + [c]])
  }

  /** The graph announced new addresses of a persistent peer. */
  function UpdatePersistentPeerAddrs(s: State, key: Key, addrs: seq<string>): State {
    s.(persistentPeerAddrs := s.persistentPeerAddrs[key := addrs])
  }

  function WatchNewChannel(s: State, key: Key): State {
    if key in s.persistentPeers then s else s.(persistentPeers := s.persistentPeers[key := false])
  }

  /** At the start every known channel peer becomes persistent, though not permanent. */
  function EstablishPersistentConnections(s: State, nodes: map<Key, seq<string>>): State {
    s.(persistentPeers := s.persistentPeers + (map k | k in nodes :: false),
       persistentPeerAddrs := s.persistentPeerAddrs
                              + (map k | k in nodes :: Lookup(s.persistentPeerAddrs, k) + nodes[k]))
  }

  // ----- runs -----

  /** A connection is handed in once, and a watcher runs once, for a peer that was attached. */
  ghost predicate Enabled(s: State, e: Event) {
    match e
    case InboundConnected(_, conn) => conn !in s.world.handedIn
    case OutboundConnected(_, conn, _) => conn !in s.world.handedIn
    case Terminated(p, _) => p in s.world.watchers
    case _ => true
  }

  function Step(s: State, e: Event): State {
    match e
    case InboundConnected(key, conn) => InboundPeerConnected(s, key, conn)
    case OutboundConnected(key, conn, viaRequest) => OutboundPeerConnected(s, key, conn, viaRequest)
    case Terminated(p, addrs) => PeerTerminated(s, p, addrs)
    case RetryDue(key) => ConnectToPersistentPeer(s, key)
    case RequestAdded(key, addr) => AddRequest(s, key, addr)
    case ConnectPermanently(key, addr) => ConnectToPeerPermanently(s, key, addr)
    case Disconnect(key) => DisconnectPeer(s, key)
    case Pruned(key) => PrunePersistentPeerConnection(s, key)
    case ListenOffline(key) => NotifyWhenOffline(s, key)
    case AddrsAnnounced(key, addrs) => UpdatePersistentPeerAddrs(s, key, addrs)
    case ChannelWatched(key) => WatchNewChannel(s, key)
    case Established(nodes) => EstablishPersistentConnections(s, nodes)
  }

  function Initial(localKey: Key, persistent: map<Key, bool>, addrs: map<Key, seq<string>>): State {
    State(localKey, map[], map[], map[], {}, map[], persistent, addrs, map[], map[], map[],
          World({}, {}, {}, {}, multiset{}, map[], 0, 0))
  }

  ghost predicate IsRun(s: State, events: seq<Event>)
    decreases |events|
  {
    events == [] || (Enabled(s, events[0]) && IsRun(Step(s, events[0]), events[1..]))
  }

  function After(s: State, events: seq<Event>): State
    decreases |events|
  {
    if events == [] then s else After(Step(s, events[0]), events[1..])
  }
}
