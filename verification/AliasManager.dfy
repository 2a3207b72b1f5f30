/** The alias manager object: a database and three caches, updated in place. */
module AliasManager {
  import opened AliasState
  import opened Options
  import opened Scid

  class Manager {
    var db: Database
    var baseToSet: map<Id, seq<Id>>
    var aliasToBase: map<Id, Id>
    var peerAlias: map<ChannelID, Id>

    ghost function State(): State
      reads this
    {
      AliasState.State(db, baseToSet, aliasToBase, peerAlias)
    }

    /** Starting on any database, the caches are built to match it. */
    constructor (db: Database)
      ensures this.db == db && InSync(State())
    {
      this.db := db;
      baseToSet, aliasToBase, peerAlias := map[], map[], map[];
      new;
      PopulateMaps();
    }

    /** Reads the buckets, and fills the caches from what was read. */
    method PopulateMaps()
      requires baseToSet == map[] && aliasToBase == map[]
      modifies this`baseToSet, this`aliasToBase, this`peerAlias
      ensures InSync(State())
    {
      hide ToUint64, FromInt, SetsOf, GossipOf, InSync, Decodes;
      var baseConf := ReadConfirmed(db.confirmed);
      var aliasMap := ReadAliases(db.aliases);
      var peers := ReadPeers(db.invoice);
      baseToSet, aliasToBase := FillCaches(aliasMap, baseConf);
      peerAlias := peers;
      Populated(State(), baseConf, aliasMap);
    }

    /** A failed transaction is reported and changes nothing. */
    method AddLocalAlias(alias: Id, base: Id, gossip: bool, txOk: bool) returns (ok: bool)
      modifies this
      ensures ok == txOk
      ensures State() == Step(old(State()), AddAlias(alias, base, gossip, txOk))
      ensures ok ==> db.aliases == old(db).aliases[ToUint64(alias) := ToUint64(base)]
      ensures ok && gossip ==> aliasToBase == old(aliasToBase)[alias := base] && db.confirmed == old(db).confirmed
      ensures ok && !gossip ==> aliasToBase == old(aliasToBase) && ToUint64(base) in db.confirmed
      ensures !ok ==> db == old(db) && baseToSet == old(baseToSet) && aliasToBase == old(aliasToBase)
    {
      if !txOk {
        return false;
      }
      if !gossip {
        db := db.(confirmed := db.confirmed + {ToUint64(base)});
      }
      db := db.(aliases := db.aliases[ToUint64(alias) := ToUint64(base)]);
      var aliases := if base in baseToSet then baseToSet[base] else [];
      baseToSet := baseToSet[base := aliases + [alias]];
      if gossip {
        aliasToBase := aliasToBase[alias := base];
      }
      return true;
    }

    method DeleteSixConfs(base: Id, txOk: bool) returns (ok: bool)
      modifies this
      ensures ok == txOk
      ensures State() == Step(old(State()), SixConfs(base, txOk))
      ensures ok ==> db.confirmed == old(db).confirmed + {ToUint64(base)}
      ensures ok ==> forall a :: a in aliasToBase <==> a in old(aliasToBase) && ToUint64(old(aliasToBase)[a]) != ToUint64(base)
      ensures forall a | a in aliasToBase :: aliasToBase[a] == old(aliasToBase)[a]
    {
      if !txOk {
        return false;
      }
      db := db.(confirmed := db.confirmed + {ToUint64(base)});
      var left := aliasToBase.Keys;
      ghost var before := aliasToBase;
      while left != {}
        modifies this`aliasToBase
        invariant left <= before.Keys
        invariant aliasToBase == map a | a in before && (a in left || ToUint64(before[a]) != ToUint64(base)) :: before[a]
        decreases left
      {
        var alias :| alias in left;
        left := left - {alias};
        if ToUint64(aliasToBase[alias]) == ToUint64(base) {
          aliasToBase := aliasToBase - {alias};
        }
      }
      return true;
    }

    method PutPeerAlias(chanID: ChannelID, alias: Id, txOk: bool) returns (ok: bool)
      modifies this
      ensures ok == txOk
      ensures State() == Step(old(State()), PutPeer(chanID, alias, txOk))
      ensures ok ==> db.invoice == old(db).invoice[chanID := ToUint64(alias)]
      ensures ok ==> peerAlias == old(peerAlias)[chanID := alias]
      ensures !ok ==> db == old(db) && peerAlias == old(peerAlias)
    {
      if !txOk {
        return false;
      }
      db := db.(invoice := db.invoice[chanID := ToUint64(alias)]);
      peerAlias := peerAlias[chanID := alias];
      return true;
    }

    /** Allocates the next alias; on a failed transaction nothing is allocated. */
    method RequestAlias(txOk: bool) returns (alias: Option<ShortChannelID>)
      modifies this`db
      ensures State() == Step(old(State()), Request(txOk))
      ensures alias == if txOk then Some(NextAlias(old(db).lastAlias)) else None
      ensures db.lastAlias == if txOk then Some(ToUint64(alias.value)) else old(db).lastAlias
    {
      if !txOk {
        return None;
      }
      var nextAlias: ShortChannelID;
      if db.lastAlias.None? {
        nextAlias := STARTING_ALIAS;
      } else {
        nextAlias := GetNextScid(FromInt(db.lastAlias.value));
      }
      db := db.(lastAlias := Some(ToUint64(nextAlias)));
      return Some(nextAlias);
    }

    method GetAliases(base: Id) returns (aliases: seq<Id>)
      ensures SetsRebuilt(State()) ==> forall a: Id :: multiset(aliases)[a] == if Stored(db, a, base) then 1 else 0
    {
      assert SetsRebuilt(State()) ==>
               forall a: Id :: Times(baseToSet, a, base) == if Stored(db, a, base) then 1 else 0;
      if base in baseToSet {
        return baseToSet[base];
      }
      return [];
    }

    method FindBaseSCID(alias: Id) returns (base: Option<Id>)
      ensures GossipRebuilt(State()) ==>
                forall b: Id :: base == Some(b) <==> Stored(db, alias, b) && !Confirmed(db, b)
    {
      if alias in aliasToBase {
        return Some(aliasToBase[alias]);
      }
      return None;
    }

    /** The zero id stands for "no alias". */
    method GetPeerAlias(chanID: ChannelID) returns (alias: Option<Id>)
      ensures PeersRebuilt(State()) ==>
                forall a: Id :: alias == Some(a) <==>
                  chanID in db.invoice && db.invoice[chanID] == ToUint64(a) && a != RawScid(0, 0, 0)
    {
      if chanID !in peerAlias || peerAlias[chanID] == RawScid(0, 0, 0) {
        OnlyOne(peerAlias, db.invoice, chanID);
        return None;
      }
      OnlyOne(peerAlias, db.invoice, chanID);
      return Some(peerAlias[chanID]);
    }
  }

  lemma OnlyOne(peers: map<ChannelID, Id>, stored: map<ChannelID, Uint64>, c: ChannelID)
    ensures c in peers && c in stored && stored[c] == ToUint64(peers[c]) ==>
              forall a: Id :: stored[c] == ToUint64(a) <==> a == peers[c]
  {
    if c in peers && c in stored && stored[c] == ToUint64(peers[c]) {
      forall a: Id ensures stored[c] == ToUint64(a) <==> a == peers[c] {
        EncodeInjective(a, peers[c]);
      }
    }
  }

  // ----- reading the buckets -----

  method ReadConfirmed(bucket: set<Uint64>) returns (conf: set<Id>)
    ensures forall b: Id :: b in conf <==> ToUint64(b) in bucket
  {
    hide ToUint64, FromInt;
    conf := {};
    var left := bucket;
    while left != {}
      invariant left <= bucket
      invariant forall b: Id :: b in conf <==> ToUint64(b) in bucket && ToUint64(b) !in left
    {
      var k :| k in left;
      left := left - {k};
      EncodeDecode(k);
      forall b: Id ensures ToUint64(b) == k <==> b == FromInt(k) {
        DecodeEncode(b);
      }
      conf := conf + {FromInt(k)};
    }
  }

  method ReadAliases(bucket: map<Uint64, Uint64>) returns (aliasMap: map<Id, Id>)
    ensures Decodes(aliasMap, bucket)
  {
    hide ToUint64, FromInt;
    aliasMap := map[];
    var left := bucket.Keys;
    while left != {}
      invariant left <= bucket.Keys
      invariant forall a: Id :: a in aliasMap <==> ToUint64(a) in bucket && ToUint64(a) !in left
      invariant forall a: Id | a in aliasMap :: ToUint64(aliasMap[a]) == bucket[ToUint64(a)]
    {
      var k :| k in left;
      left := left - {k};
      EncodeDecode(k);
      EncodeDecode(bucket[k]);
      forall a: Id ensures ToUint64(a) == k <==> a == FromInt(k) {
        DecodeEncode(a);
      }
      aliasMap := aliasMap[FromInt(k) := FromInt(bucket[k])];
    }
  }

  ghost predicate Decodes(aliasMap: map<Id, Id>, bucket: map<Uint64, Uint64>) {
    && (forall a: Id :: a in aliasMap <==> ToUint64(a) in bucket)
    && (forall a: Id | a in aliasMap :: ToUint64(aliasMap[a]) == bucket[ToUint64(a)])
  }

  method ReadPeers(bucket: map<ChannelID, Uint64>) returns (peers: map<ChannelID, Id>)
    ensures peers.Keys == bucket.Keys && forall c | c in peers :: bucket[c] == ToUint64(peers[c])
  {
    hide ToUint64, FromInt;
    peers := map[];
    var left := bucket.Keys;
    while left != {}
      invariant left <= bucket.Keys && peers.Keys == bucket.Keys - left
      invariant forall c | c in peers :: bucket[c] == ToUint64(peers[c])
    {
      var c :| c in left;
      left := left - {c};
      EncodeDecode(bucket[c]);
      peers := peers[c := FromInt(bucket[c])];
    }
  }

  // ----- filling the caches entry by entry -----

  ghost predicate SetsOf(sets: map<Id, seq<Id>>, entries: map<Id, Id>) {
    && (forall a: Id, b: Id :: Times(sets, a, b) == if a in entries && entries[a] == b then 1 else 0)
    && (forall b | b in sets :: sets[b] != [])
  }

  ghost predicate GossipOf(gossip: map<Id, Id>, entries: map<Id, Id>, conf: set<Id>) {
    gossip == map a | a in entries && entries[a] !in conf :: entries[a]
  }

  lemma EmptySets()
    ensures SetsOf(map[], map[]) && forall conf :: GossipOf(map[], map[], conf)
  {
  }

  lemma SetsOfAdd(sets: map<Id, seq<Id>>, entries: map<Id, Id>, alias: Id, base: Id)
    requires SetsOf(sets, entries) && alias !in entries
    ensures SetsOf(sets[base := (if base in sets then sets[base] else []) + [alias]], entries[alias := base])
  {
    var l := if base in sets then sets[base] else [];
    var next := sets[base := l + [alias]];
    assert multiset(l + [alias]) == multiset(l) + multiset{alias};
    forall a: Id, b: Id
      ensures Times(next, a, b) == if a in entries[alias := base] && entries[alias := base][a] == b then 1 else 0
    {
      assert Times(sets, a, b) == if a in entries && entries[a] == b then 1 else 0;
    }
  }

  lemma GossipOfAdd(gossip: map<Id, Id>, entries: map<Id, Id>, conf: set<Id>, alias: Id, base: Id)
    requires GossipOf(gossip, entries, conf) && alias !in entries
    ensures GossipOf(if base in conf then gossip else gossip[alias := base], entries[alias := base], conf)
  {
    var after := entries[alias := base];
    assert (map a | a in after && after[a] !in conf :: after[a])
        == if base in conf then gossip else gossip[alias := base];
  }

  lemma OneMore(aliasMap: map<Id, Id>, left: set<Id>, alias: Id)
    requires alias in left && left <= aliasMap.Keys
    ensures alias !in aliasMap - left
    ensures aliasMap - (left - {alias}) == (aliasMap - left)[alias := aliasMap[alias]]
  {
  }

  method FillCaches(aliasMap: map<Id, Id>, baseConf: set<Id>) returns (sets: map<Id, seq<Id>>, gossip: map<Id, Id>)
    ensures SetsOf(sets, aliasMap) && GossipOf(gossip, aliasMap, baseConf)
  {
    hide SetsOf, GossipOf;
    EmptySets();
    sets, gossip := map[], map[];
    var left := aliasMap.Keys;
    assert aliasMap - left == map[];
    while left != {}
      invariant left <= aliasMap.Keys
      invariant SetsOf(sets, aliasMap - left) && GossipOf(gossip, aliasMap - left, baseConf)
    {
      var alias :| alias in left;
      var base := aliasMap[alias];
      OneMore(aliasMap, left, alias);
      SetsOfAdd(sets, aliasMap - left, alias, base);
      GossipOfAdd(gossip, aliasMap - left, baseConf, alias, base);
      left := left - {alias};
      sets := sets[base := (if base in sets then sets[base] else []) + [alias]];
      if base !in baseConf {
        gossip := gossip[alias := base];
      }
    }
    assert aliasMap - left == aliasMap;
  }

  lemma Populated(s: State, baseConf: set<Id>, aliasMap: map<Id, Id>)
    requires forall b: Id :: b in baseConf <==> ToUint64(b) in s.db.confirmed
    requires Decodes(aliasMap, s.db.aliases)
    requires SetsOf(s.baseToSet, aliasMap) && GossipOf(s.aliasToBase, aliasMap, baseConf)
    requires PeersRebuilt(s)
    ensures InSync(s)
  {
    hide ToUint64;
    forall a: Id, b: Id
      ensures Stored(s.db, a, b) <==> a in aliasMap && aliasMap[a] == b
      ensures Confirmed(s.db, b) <==> b in baseConf
    {
      if a in aliasMap {
        EncodeInjective(aliasMap[a], b);
      }
    }
    assert SetsRebuilt(s);
    assert GossipRebuilt(s);
  }
}
