/** The alias manager's database and its write-through caches. */
module AliasState {
  import opened Options
  import opened Scid

  type Id = s: ShortChannelID | InLimits(s) witness RawScid(0, 0, 0)
  type ChannelID = seq<bv8>

  /** The four buckets, keyed as they are stored. */
  datatype Database = Database(aliases: map<Uint64, Uint64>, confirmed: set<Uint64>, invoice: map<ChannelID, Uint64>,
                               lastAlias: Option<Uint64>)

  datatype State = State(db: Database, baseToSet: map<Id, seq<Id>>, aliasToBase: map<Id, Id>, peerAlias: map<ChannelID, Id>)

  datatype Event =
    | AddAlias(alias: Id, base: Id, gossip: bool, ok: bool)
    | SixConfs(base: Id, ok: bool)
    | PutPeer(chanID: ChannelID, alias: Id, ok: bool)
    | Request(ok: bool)
    | Restart(caches: State)

  // ----- what the database says -----

  ghost predicate Stored(db: Database, alias: Id, base: Id) {
    ToUint64(alias) in db.aliases && db.aliases[ToUint64(alias)] == ToUint64(base)
  }

  ghost predicate Confirmed(db: Database, base: Id) {
    ToUint64(base) in db.confirmed
  }

  /** How often an alias is listed for a base. */
  ghost function Times(sets: map<Id, seq<Id>>, alias: Id, base: Id): nat {
    if base in sets then multiset(sets[base])[alias] else 0
  }

  /** The aliases of a base, each once, whatever their order. */
  ghost predicate SetsRebuilt(s: State) {
    && (forall alias: Id, base: Id :: Times(s.baseToSet, alias, base) == if Stored(s.db, alias, base) then 1 else 0)
    && (forall base | base in s.baseToSet :: s.baseToSet[base] != [])
  }

  ghost predicate GossipRebuilt(s: State) {
    forall alias: Id, base: Id ::
      alias in s.aliasToBase && s.aliasToBase[alias] == base <==> Stored(s.db, alias, base) && !Confirmed(s.db, base)
  }

  ghost predicate PeersRebuilt(s: State) {
    && s.peerAlias.Keys == s.db.invoice.Keys
    && forall c | c in s.peerAlias :: s.db.invoice[c] == ToUint64(s.peerAlias[c])
  }

  /** The caches are what a restart would build from the database. */
  ghost predicate InSync(s: State) {
    SetsRebuilt(s) && GossipRebuilt(s) && PeersRebuilt(s)
  }

  /** Whatever a restart would build is in the caches already. */
  ghost predicate Contained(s: State) {
    && (forall alias: Id, base: Id | Stored(s.db, alias, base) :: base in s.baseToSet && alias in s.baseToSet[base])
    && (forall alias: Id, base: Id | Stored(s.db, alias, base) && !Confirmed(s.db, base) ::
          alias in s.aliasToBase && s.aliasToBase[alias] == base)
    && PeersRebuilt(s)
  }

  // ----- the operations -----

  function AddLocalAlias(s: State, alias: Id, base: Id, gossip: bool): State {
    var aliases := if base in s.baseToSet then s.baseToSet[base] else [];
    s.(db := s.db.(aliases := s.db.aliases[ToUint64(alias) := ToUint64(base)],
                   confirmed := if gossip then s.db.confirmed else s.db.confirmed + {ToUint64(base)}),
       baseToSet := s.baseToSet[base := aliases + [alias]],
       aliasToBase := if gossip then s.aliasToBase[alias := base] else s.aliasToBase)
  }

  function DeleteSixConfs(s: State, base: Id): State {
    s.(db := s.db.(confirmed := s.db.confirmed + {ToUint64(base)}),
       aliasToBase := map a | a in s.aliasToBase && ToUint64(s.aliasToBase[a]) != ToUint64(base) :: s.aliasToBase[a])
  }

  function PutPeerAlias(s: State, chanID: ChannelID, alias: Id): State {
    s.(db := s.db.(invoice := s.db.invoice[chanID := ToUint64(alias)]), peerAlias := s.peerAlias[chanID := alias])
  }

  function RequestAlias(s: State): State {
    s.(db := s.db.(lastAlias := Some(ToUint64(NextAlias(s.db.lastAlias)))))
  }

  /** A restart keeps the database and builds the caches anew. */
  ghost predicate Enabled(s: State, e: Event) {
    e.Restart? ==> e.caches.db == s.db && InSync(e.caches)
  }

  /** A failed transaction changes neither the database nor the caches. */
  function Step(s: State, e: Event): State {
    match e
    case AddAlias(alias, base, gossip, ok) => if ok then AddLocalAlias(s, alias, base, gossip) else s
    case SixConfs(base, ok) => if ok then DeleteSixConfs(s, base) else s
    case PutPeer(chanID, alias, ok) => if ok then PutPeerAlias(s, chanID, alias) else s
    case Request(ok) => if ok then RequestAlias(s) else s
    case Restart(caches) => caches
  }

  // ----- what they do -----

  /** After an add the alias stands for the base in the database and, if it is for gossip, in the gossip map; a base that
      gets an alias without gossip is confirmed. Nothing else changes but the list of the base. */
  lemma AddEffect(s: State, alias: Id, base: Id, gossip: bool)
    ensures var t := Step(s, AddAlias(alias, base, gossip, true));
            && t.db.aliases == s.db.aliases[ToUint64(alias) := ToUint64(base)]
            && t.db.confirmed == (if gossip then s.db.confirmed else s.db.confirmed + {ToUint64(base)})
            && t.aliasToBase == (if gossip then s.aliasToBase[alias := base] else s.aliasToBase)
            && base in t.baseToSet && t.baseToSet[base] != [] && alias == t.baseToSet[base][|t.baseToSet[base]| - 1]
            && (forall b | b in s.baseToSet && b != base :: b in t.baseToSet && t.baseToSet[b] == s.baseToSet[b])
            && t.db.invoice == s.db.invoice && t.db.lastAlias == s.db.lastAlias && t.peerAlias == s.peerAlias
  {
    hide ToUint64;
  }

  /** With its sixth confirmation a base is confirmed, and loses its gossip aliases; every other base keeps its own. */
  lemma SixConfsEffect(s: State, base: Id)
    ensures var t := Step(s, SixConfs(base, true));
            && (forall b: Id :: Confirmed(t.db, b) <==> Confirmed(s.db, b) || b == base)
            && (forall a: Id :: a in t.aliasToBase <==> a in s.aliasToBase && s.aliasToBase[a] != base)
            && (forall a | a in t.aliasToBase :: t.aliasToBase[a] == s.aliasToBase[a])
            && t == s.(db := s.db.(confirmed := t.db.confirmed), aliasToBase := t.aliasToBase)
  {
    hide ToUint64;
    forall b: Id ensures ToUint64(b) == ToUint64(base) <==> b == base {
      EncodeInjective(b, base);
    }
  }

  /** The peer's alias of a channel is stored in database and cache, and no other channel is touched. */
  lemma PutPeerEffect(s: State, chanID: ChannelID, alias: Id)
    ensures var t := Step(s, PutPeer(chanID, alias, true));
            && chanID in t.db.invoice && t.db.invoice[chanID] == ToUint64(alias)
            && chanID in t.peerAlias && t.peerAlias[chanID] == alias
            && (forall c | c != chanID ::
                  && (c in t.db.invoice <==> c in s.db.invoice) && (c in t.peerAlias <==> c in s.peerAlias)
                  && (c in s.db.invoice ==> t.db.invoice[c] == s.db.invoice[c])
                  && (c in s.peerAlias ==> t.peerAlias[c] == s.peerAlias[c]))
            && t == s.(db := s.db.(invoice := t.db.invoice), peerAlias := t.peerAlias)
  {
    hide ToUint64;
  }

  /** A request records the alias that it returns, and only that. */
  lemma RequestEffect(s: State)
    ensures Step(s, Request(true)) == s.(db := s.db.(lastAlias := Some(ToUint64(NextAlias(s.db.lastAlias)))))
  {
  }

  lemma FailedEffect(s: State, e: Event)
    requires !e.Restart? && !e.ok
    ensures Step(s, e) == s
  {
  }

  // ----- what is always true -----

  lemma AddStored(s: State, alias: Id, base: Id, gossip: bool, a: Id, b: Id)
    ensures Stored(AddLocalAlias(s, alias, base, gossip).db, a, b) <==> if a == alias then b == base else Stored(s.db, a, b)
    ensures Confirmed(AddLocalAlias(s, alias, base, gossip).db, b) <==> Confirmed(s.db, b) || (!gossip && b == base)
  {
    EncodeInjective(a, alias);
    EncodeInjective(b, base);
  }

  lemma AddContained(s: State, alias: Id, base: Id, gossip: bool)
    requires Contained(s)
    ensures Contained(AddLocalAlias(s, alias, base, gossip))
  {
    hide Stored, Confirmed, ToUint64;
    var t := AddLocalAlias(s, alias, base, gossip);
    forall a: Id, b: Id | Stored(t.db, a, b)
      ensures b in t.baseToSet && a in t.baseToSet[b]
      ensures !Confirmed(t.db, b) ==> a in t.aliasToBase && t.aliasToBase[a] == b
    {
      AddStored(s, alias, base, gossip, a, b);
      AddTimes(s, alias, base, gossip, a, b);
      Listed(s.baseToSet, a, b);
      Listed(t.baseToSet, a, b);
    }
    assert PeersRebuilt(t);
  }

  lemma Listed(sets: map<Id, seq<Id>>, alias: Id, base: Id)
    ensures Times(sets, alias, base) > 0 <==> base in sets && alias in sets[base]
  {
  }

  lemma AddTimes(s: State, alias: Id, base: Id, gossip: bool, a: Id, b: Id)
    ensures Times(AddLocalAlias(s, alias, base, gossip).baseToSet, a, b)
         == Times(s.baseToSet, a, b) + if a == alias && b == base then 1 else 0
  {
    hide ToUint64;
    var t, l := AddLocalAlias(s, alias, base, gossip), if base in s.baseToSet then s.baseToSet[base] else [];
    assert t.baseToSet[base] == l + [alias];
    assert multiset(l + [alias]) == multiset(l) + multiset{alias};
  }

  lemma DeleteContained(s: State, base: Id)
    requires Contained(s)
    ensures Contained(DeleteSixConfs(s, base))
  {
    hide ToUint64;
    var t := DeleteSixConfs(s, base);
    forall a: Id, b: Id | Stored(t.db, a, b)
      ensures b in t.baseToSet && a in t.baseToSet[b]
      ensures !Confirmed(t.db, b) ==> a in t.aliasToBase && t.aliasToBase[a] == b
    {
      EncodeInjective(b, base);
      assert Stored(s.db, a, b);
      assert Confirmed(s.db, b) ==> Confirmed(t.db, b);
    }
    assert PeersRebuilt(t);
  }

  lemma SameContained(s: State, t: State)
    requires Contained(s) && PeersRebuilt(t)
    requires t.db.aliases == s.db.aliases && t.db.confirmed == s.db.confirmed
    requires t.baseToSet == s.baseToSet && t.aliasToBase == s.aliasToBase
    ensures Contained(t)
  {
    forall a: Id, b: Id | Stored(t.db, a, b)
      ensures b in t.baseToSet && a in t.baseToSet[b]
      ensures !Confirmed(t.db, b) ==> a in t.aliasToBase && t.aliasToBase[a] == b
    {
      assert Stored(s.db, a, b);
      assert Confirmed(s.db, b) ==> Confirmed(t.db, b);
    }
  }

  lemma SyncContained(s: State)
    requires InSync(s)
    ensures Contained(s)
  {
    hide Stored, Confirmed, Times;
    forall a: Id, b: Id | Stored(s.db, a, b) ensures b in s.baseToSet && a in s.baseToSet[b] {
      Listed(s.baseToSet, a, b);
    }
  }

  lemma StepContained(s: State, e: Event)
    requires Contained(s) && Enabled(s, e)
    ensures Contained(Step(s, e))
  {
    hide ToUint64;
    match e
    case AddAlias(alias, base, gossip, ok) => AddContained(s, alias, base, gossip);
    case SixConfs(base, ok) => DeleteContained(s, base);
    case PutPeer(chanID, alias, ok) => SameContained(s, Step(s, e));
    case Request(ok) => SameContained(s, Step(s, e));
    case Restart(caches) => SyncContained(caches);
  }

  // ----- when adding an alias keeps the caches exact -----

  /** The alias is new; a gossip alias goes to an unconfirmed base; and a base that gets an alias without gossip has no
      gossip alias. */
  ghost predicate KeepsSync(s: State, alias: Id, base: Id, gossip: bool) {
    && ToUint64(alias) !in s.db.aliases
    && (if gossip then !Confirmed(s.db, base) else forall a | a in s.aliasToBase :: s.aliasToBase[a] != base)
  }

  lemma AddSetsExactly(s: State, alias: Id, base: Id, gossip: bool)
    requires SetsRebuilt(s)
    ensures SetsRebuilt(AddLocalAlias(s, alias, base, gossip)) <==> forall b: Id :: !Stored(s.db, alias, b)
  {
    hide Stored, Confirmed, ToUint64, Times;
    var t := AddLocalAlias(s, alias, base, gossip);
    if b: Id :| Stored(s.db, alias, b) {
      AddStored(s, alias, base, gossip, alias, b);
      AddTimes(s, alias, base, gossip, alias, b);
    } else {
      forall a: Id, b: Id ensures Times(t.baseToSet, a, b) == if Stored(t.db, a, b) then 1 else 0 {
        AddStored(s, alias, base, gossip, a, b);
        AddTimes(s, alias, base, gossip, a, b);
      }
    }
  }

  lemma AddGossipExactly(s: State, alias: Id, base: Id, gossip: bool)
    requires GossipRebuilt(s) && forall b: Id :: !Stored(s.db, alias, b)
    ensures GossipRebuilt(AddLocalAlias(s, alias, base, gossip)) <==>
            if gossip then !Confirmed(s.db, base) else forall a | a in s.aliasToBase :: s.aliasToBase[a] != base
  {
    hide Stored, Confirmed, ToUint64;
    var t := AddLocalAlias(s, alias, base, gossip);
    forall a: Id, b: Id
      ensures Stored(t.db, a, b) <==> if a == alias then b == base else Stored(s.db, a, b)
      ensures Confirmed(t.db, b) <==> Confirmed(s.db, b) || (!gossip && b == base)
    {
      AddStored(s, alias, base, gossip, a, b);
    }
    AddStored(s, alias, base, gossip, alias, base);
    if gossip {
      if Confirmed(s.db, base) {
        assert t.aliasToBase[alias] == base && Confirmed(t.db, base);
      }
    } else if a :| a in s.aliasToBase && s.aliasToBase[a] == base {
      assert t.aliasToBase[a] == base && Confirmed(t.db, base);
    }
  }

  lemma StoredSomewhere(db: Database, alias: Id)
    requires ToUint64(alias) in db.aliases
    ensures exists b: Id :: Stored(db, alias, b)
  {
    var n := db.aliases[ToUint64(alias)];
    EncodeDecode(n);
    var b: Id := FromInt(n);
    assert Stored(db, alias, b);
  }

  /** From exact caches, adding an alias leads to exact caches under precisely this condition. */
  lemma AddSyncExactly(s: State, alias: Id, base: Id, gossip: bool)
    requires InSync(s)
    ensures InSync(AddLocalAlias(s, alias, base, gossip)) <==> KeepsSync(s, alias, base, gossip)
  {
    hide ToUint64, SetsRebuilt, GossipRebuilt;
    AddSetsExactly(s, alias, base, gossip);
    if ToUint64(alias) in s.db.aliases {
      StoredSomewhere(s.db, alias);
    } else {
      AddGossipExactly(s, alias, base, gossip);
    }
  }

  /** What goes wrong when an alias is added to its own base again, as happens after a restart for a zero-conf channel that
      is still pending: only the list of the base differs from the rebuilt one, which has the alias once. */
  lemma AddAgainRepeats(s: State, alias: Id, base: Id)
    requires InSync(s) && Stored(s.db, alias, base) && !Confirmed(s.db, base)
    ensures var t := AddLocalAlias(s, alias, base, true);
            t.db == s.db && t.aliasToBase == s.aliasToBase && t.peerAlias == s.peerAlias
            && Times(t.baseToSet, alias, base) == 2 && !InSync(t)
    ensures var t := AddLocalAlias(s, alias, base, true);
            forall a: Id, b: Id :: Times(t.baseToSet, a, b) > 0 <==> Times(s.baseToSet, a, b) > 0
  {
    hide Times, SetsRebuilt;
    var t := AddLocalAlias(s, alias, base, true);
    assert s.db.aliases[ToUint64(alias) := ToUint64(base)] == s.db.aliases;
    assert s.aliasToBase[alias := base] == s.aliasToBase;
    AddSyncExactly(s, alias, base, true);
    forall a: Id, b: Id
      ensures Times(t.baseToSet, a, b) == Times(s.baseToSet, a, b) + if a == alias && b == base then 1 else 0
    {
      AddTimes(s, alias, base, true, a, b);
    }
    StoredIsListed(s, alias, base);
  }

  lemma StoredIsListed(s: State, alias: Id, base: Id)
    requires SetsRebuilt(s) && Stored(s.db, alias, base)
    ensures Times(s.baseToSet, alias, base) == 1
  {
  }

  const EMPTY := State(Database(map[], {}, map[], None), map[], map[], map[])

  /** The same from the empty manager: the second of two equal adds leaves two entries where a restart finds one. */
  lemma AddedTwice(a: Id)
    ensures InSync(EMPTY) && KeepsSync(EMPTY, a, a, true)
    ensures var once := AddLocalAlias(EMPTY, a, a, true);
            var twice := AddLocalAlias(once, a, a, true);
            InSync(once) && !InSync(twice) && once.baseToSet == map[a := [a]] && twice.baseToSet == map[a := [a, a]]
  {
    hide ToUint64, InSync;
    var once := AddLocalAlias(EMPTY, a, a, true);
    assert InSync(EMPTY) by { EmptyInSync(); }
    AddSyncExactly(EMPTY, a, a, true);
    AddSyncExactly(once, a, a, true);
    assert [] + [a] == [a] && [a] + [a] == [a, a];
    assert once.baseToSet == map[a := [a]];
    assert AddLocalAlias(once, a, a, true).baseToSet == map[a := [a, a]];
  }

  lemma EmptyInSync()
    ensures InSync(EMPTY)
  {
  }

  /** A gossip alias for a confirmed base stays in the live gossip map although a restart would not put it there. */
  lemma GossipForConfirmed(base: Id, alias: Id)
    requires alias != base
    ensures var s := DeleteSixConfs(EMPTY, base);
            var t := AddLocalAlias(s, alias, base, true);
            InSync(s) && !GossipRebuilt(t) && t.aliasToBase == map[alias := base]
  {
    hide ToUint64;
    DeleteSync(EMPTY, base);
    var t := AddLocalAlias(DeleteSixConfs(EMPTY, base), alias, base, true);
    assert t.aliasToBase[alias] == base && Confirmed(t.db, base);
  }

  lemma DeleteSync(s: State, base: Id)
    requires InSync(s)
    ensures InSync(DeleteSixConfs(s, base))
  {
    hide ToUint64;
    var t := DeleteSixConfs(s, base);
    forall a: Id, b: Id
      ensures a in t.aliasToBase && t.aliasToBase[a] == b <==> Stored(t.db, a, b) && !Confirmed(t.db, b)
    {
      EncodeInjective(b, base);
      assert a in s.aliasToBase && s.aliasToBase[a] == b <==> Stored(s.db, a, b) && !Confirmed(s.db, b);
    }
    assert SetsRebuilt(t) by {
      forall b: Id, a: Id ensures Times(t.baseToSet, a, b) == if Stored(t.db, a, b) then 1 else 0 {
        assert Stored(t.db, a, b) <==> Stored(s.db, a, b);
      }
    }
  }

  /** Every step but an add outside the condition keeps the caches exact. */
  lemma StepSync(s: State, e: Event)
    requires InSync(s) && Enabled(s, e)
    requires e.AddAlias? && e.ok ==> KeepsSync(s, e.alias, e.base, e.gossip)
    ensures InSync(Step(s, e))
  {
    hide ToUint64;
    match e
    case AddAlias(alias, base, gossip, ok) => AddSyncExactly(s, alias, base, gossip);
    case SixConfs(base, ok) => DeleteSync(s, base);
    case PutPeer(chanID, alias, ok) => SameAliases(s, Step(s, e));
    case Request(ok) => SameAliases(s, Step(s, e));
    case Restart(caches) =>
  }

  lemma SameAliases(s: State, t: State)
    requires SetsRebuilt(s) && GossipRebuilt(s)
    requires t.db.aliases == s.db.aliases && t.db.confirmed == s.db.confirmed
    requires t.baseToSet == s.baseToSet && t.aliasToBase == s.aliasToBase
    ensures SetsRebuilt(t) && GossipRebuilt(t)
  {
    forall a: Id, b: Id
      ensures Stored(t.db, a, b) <==> Stored(s.db, a, b)
      ensures Confirmed(t.db, b) <==> Confirmed(s.db, b)
    {
    }
  }

  // ----- runs -----

  ghost predicate IsRun(s: State, events: seq<Event>)
    decreases |events|
  {
    events == [] || (Enabled(s, events[0]) && IsRun(Step(s, events[0]), events[1..]))
  }

  function After(s: State, events: seq<Event>): State
    decreases |events|
  {
    if events == [] then s else After(Step(s, events[0]), events[1..])
  }

  /** Each successful add meets the condition when it happens. */
  ghost predicate Careful(s: State, events: seq<Event>)
    decreases |events|
  {
    events == [] ||
    ((events[0].AddAlias? && events[0].ok ==> KeepsSync(s, events[0].alias, events[0].base, events[0].gossip))
     && Careful(Step(s, events[0]), events[1..]))
  }

  /** After any run, a restart would lose nothing that the caches do not have. */
  lemma {:induction false} EveryRunContains(s: State, events: seq<Event>)
    requires Contained(s) && IsRun(s, events)
    ensures Contained(After(s, events))
    decreases |events|
  {
    hide Contained, Step, Enabled;
    if events != [] {
      StepContained(s, events[0]);
      EveryRunContains(Step(s, events[0]), events[1..]);
    }
  }

  /** After a careful run the caches are exactly what a restart would build. */
  lemma {:induction false} CarefulRunsStayInSync(s: State, events: seq<Event>)
    requires InSync(s) && IsRun(s, events) && Careful(s, events)
    ensures InSync(After(s, events))
    decreases |events|
  {
    hide InSync, Step, Enabled, KeepsSync;
    if events != [] {
      StepSync(s, events[0]);
      CarefulRunsStayInSync(Step(s, events[0]), events[1..]);
    }
  }

  /** The alias of the last successful put for the channel. */
  function LastPut(events: seq<Event>, c: ChannelID): Option<Id> {
    if events == [] then None
    else
      var last := events[|events| - 1];
      if last.PutPeer? && last.ok && last.chanID == c then Some(last.alias) else LastPut(events[..|events| - 1], c)
  }

  /** Through restarts and failures, the alias that the database and the cache have for a channel is the one put last, or
      the one there was before if none has been put since. */
  lemma {:induction false} LastPutIsStored(s: State, events: seq<Event>, c: ChannelID)
    requires PeersRebuilt(s) && IsRun(s, events)
    ensures var t := After(s, events);
            && PeersRebuilt(t)
            && match LastPut(events, c)
               case Some(alias) => c in t.peerAlias && t.peerAlias[c] == alias && t.db.invoice[c] == ToUint64(alias)
               case None => SamePeer(s, t, c)
    decreases |events|
  {
    hide ToUint64, PeersRebuilt, Step, SamePeer, Enabled;
    if events != [] {
      var m := |events| - 1;
      assert events == events[..m] + [events[m]];
      AfterAppend(s, events[..m], events[m]);
      LastPutIsStored(s, events[..m], c);
      PeerStep(After(s, events[..m]), events[m], c);
      SamePeerTrans(s, After(s, events[..m]), After(s, events), c);
    } else {
      SamePeerTrans(s, s, s, c);
    }
  }

  /** The cache has the same alias for the channel, or none in both. */
  ghost predicate SamePeer(s: State, t: State, c: ChannelID) {
    (c in t.peerAlias <==> c in s.peerAlias) && (c in t.peerAlias ==> t.peerAlias[c] == s.peerAlias[c])
  }

  lemma SamePeerTrans(s: State, t: State, u: State, c: ChannelID)
    ensures SamePeer(s, s, c)
    ensures SamePeer(s, t, c) && SamePeer(t, u, c) ==> SamePeer(s, u, c)
    ensures SamePeer(t, u, c) && PeersRebuilt(u) && c in t.peerAlias ==>
              c in u.peerAlias && u.peerAlias[c] == t.peerAlias[c] && u.db.invoice[c] == ToUint64(t.peerAlias[c])
  {
  }

  lemma PeerStep(s: State, e: Event, c: ChannelID)
    requires PeersRebuilt(s) && Enabled(s, e)
    ensures PeersRebuilt(Step(s, e))
    ensures if e.PutPeer? && e.ok && e.chanID == c
            then var t := Step(s, e);
                 c in t.peerAlias && t.peerAlias[c] == e.alias && t.db.invoice[c] == ToUint64(e.alias)
            else SamePeer(s, Step(s, e), c)
  {
    hide ToUint64;
    if e.Restart? {
      SamePeers(s, e.caches, c);
    }
  }

  lemma SamePeers(s: State, t: State, c: ChannelID)
    requires PeersRebuilt(s) && PeersRebuilt(t) && t.db == s.db
    ensures SamePeer(s, t, c)
  {
    assert c in t.peerAlias.Keys <==> c in s.peerAlias.Keys;
    if c in t.peerAlias {
      EncodeInjective(t.peerAlias[c], s.peerAlias[c]);
    }
  }

  function Requests(events: seq<Event>): nat {
    if events == [] then 0
    else Requests(events[..|events| - 1]) + (if events[|events| - 1] == Request(true) then 1 else 0)
  }

  lemma {:induction false} AfterAppend(s: State, events: seq<Event>, e: Event)
    ensures After(s, events + [e]) == Step(After(s, events), e)
    ensures IsRun(s, events + [e]) ==> IsRun(s, events) && Enabled(After(s, events), e)
    decreases |events|
  {
    hide Step, Enabled;
    if events == [] {
      assert [e][1..] == [];
    } else {
      assert (events + [e])[1..] == events[1..] + [e];
      AfterAppend(Step(s, events[0]), events[1..], e);
    }
  }

  /** Starting from an empty allocator, the record after any run, restarts and failures included, depends only on the
      number of successful requests; so the next request returns the alias of that number. */
  lemma {:induction false} AllocationSurvives(s: State, events: seq<Event>)
    requires s.db.lastAlias == None && IsRun(s, events)
    ensures After(s, events).db.lastAlias == Allocated(Requests(events))
    ensures NextAlias(After(s, events).db.lastAlias) == NthAlias(Requests(events))
    decreases |events|
  {
    hide ToUint64;
    if events != [] {
      var m := |events| - 1;
      assert events == events[..m] + [events[m]];
      AfterAppend(s, events[..m], events[m]);
      AllocationSurvives(s, events[..m]);
    }
  }
}
