# Verified model of lnd's hardest components

A Dafny 4.11 model, with proofs, of six parts of the Lightning node `lnd`:

1. **Betweenness centrality of the autopilot.** `Paths` defines what is meant: paths as sequences of edge positions (so
   parallel edges count), distances, shortest paths, and their number. `Brandes` proves the recurrence that the algorithm
   rests on from that definition. `Search` holds the invariant of the breadth-first search, `Betweenness` the two phases
   over arrays, an explicit stack and a queue, `Undirected` the argument for the final halving, and `CentralityMetric`
   the worker pool under every schedule and the metric object.
2. **aezeed.** `Crc32c` is the checksum of section 12.1 of RFC 3720 with what it detects; `Bits` the bit streams; `Aezeed`
   the serialisation, the container and the mnemonic; `SeedLayout` fixes them byte by byte and bit by bit, and the key in
   use; `SingleWord` proves that one wrong word is always noticed.
3. **Peer lifecycle.** `PeerState` is a state machine whose steps are the sections the server runs under its mutex;
   termination watchers take their turns at any later time. `PeerSafety` proves what holds after every run, `PeerEffects`
   what each section does to the fields; `Server` is the object, each method proved equal to its step.
4. **Autopilot agent.** `AgentState` and `Agent` likewise for the controller and any number of concurrent directives;
   `Choice` and `Constraints` for the weighted choice and the limits of one dispatch.
5. **Alias manager.** `Scid` is the id layout of BOLT #7 ("Definition of `short_channel_id`") and the allocator,
   `AliasState` the database with its write-through caches, `AliasManager` the object.
6. **AMP shards and preimage beacon.** `Shares`, `ShardState` and `ShardTracker` prove that shares are conserved and what
   the receiver recovers; `BeaconState` and `PreimageBeacon` that no notification is lost.

Where the code works in place the model does too: each such method is proved against a function or a predicate on values,
and the results about runs are lemmas about those. A run is a list of steps, each enabled when it happens, so a statement
about every run covers every interleaving of the goroutines at the grain of the locked sections.

Random draws, the outcome of a database transaction, the wallet's balance, the attachment heuristic and addresses looked
up elsewhere are parameters. `float64` is modelled by exact reals; integer widths are explicit where the code depends on
them (CRC registers, 64-bit ids, the 16-bit comparison of pending opens).

## Where the code and its comments differ

The model follows the code.

- `chooseN` is documented to pick `min(n, len(s))` nodes; nodes whose score is zero are never picked, so the number is the
  smaller of `n` and the number of positive scores (`Choice.ChooseN`).
- The generator behind `weightedChoice` may return 0, and then the first index is picked whatever its weight
  (`Choice.SelectedPositiveExactly`, `Choice.ZeroDrawSelectsWeightless`). `chooseN` then picks the first node again or picks
  it without weight, and makes no progress while the draws stay zero (`Choice.ChooseN`).
- The comment on the alias range includes height 16250000, which `IsAlias` excludes (`Scid.RecognisedExactly`).
- `docker/lnd/aezeed/README.md` speaks of an 8-byte and of a 64-bit tag; the code expands by 4 bytes.
- The public-key comparison that is to settle simultaneous connections never gets to decide
  (`PeerSafety.TieBreakNeverReached`).
- `SubscribeUpdates` returns no subscription when the interceptor fails, but the subscriber stays registered
  (`BeaconState.RefusedStaysSubscribed`).
- A cancellation closure called twice closes a closed channel and panics (`PreimageBeacon.Beacon.CancelSubscription`).
- The caches of the alias manager agree with what a restart rebuilds only for adds that meet a condition
  (`AliasState.AddSyncExactly`); that they contain it always holds (`AliasState.EveryRunContains`). The condition fails for
  an alias added to its own base again, which `docker/lnd/funding/manager.go` does after a restart for a zero-conf channel
  still pending: the live list then has the alias twice (`AliasState.AddAgainRepeats`, `AliasState.AddedTwice`).

## Model

| member | source | states |
|---|---|---|
| `Paths.PathSetIsAllPaths` | docker/lnd/autopilot/betweenness_centrality.go:88-94 | The set of paths that everything is counted by: exactly the sequences of edges of that length that lead from s to t, parallel edges told apart by their position |
| `Paths.WalksCountsPaths` | docker/lnd/autopilot/betweenness_centrality.go:88-94 | The number computed edge by edge is the size of that set |
| `Paths.WalksByLastEdge` | docker/lnd/autopilot/betweenness_centrality.go:122-141 | Paths counted by their last edge are as many as counted by their first, which is why counting along predecessor edges is right |
| `Paths.WalksReverse` | docker/lnd/autopilot/betweenness_centrality.go:234-242 | In an undirected graph there are as many paths back as forth, the reason for the final halving |
| `Paths.ShortestPathsAreShortest` | docker/lnd/autopilot/betweenness_centrality.go:88-94 | The shortest-path set holds exactly the paths than which no path is shorter; its size is the number that sigma is to be |
| `Brandes.ThroughCount` | docker/lnd/autopilot/betweenness_centrality.go:149-167 | Paths of a given length through w, enumerated, are the paths to w times the paths from w, summed over where w is met |
| `Brandes.ShareIsPairDependency` | docker/lnd/autopilot/betweenness_centrality.go:149-167 | The fraction of shortest s-t paths that visit w, by enumeration, is the pair dependency written with path counts and distances |
| `Brandes.DependencyIsTotal` | docker/lnd/autopilot/betweenness_centrality.go:149-167 | The dependency by definition, summed over all targets, is the total that the recurrence speaks about; an unreachable node has none |
| `Brandes.Recurrence` | docker/lnd/autopilot/betweenness_centrality.go:153-161 | Brandes' recurrence: a node's total dependency is the sum over the edges one level down of sigma(v)/sigma(w) times (1 + the total of w) |
| `Search.InitialInv` | docker/lnd/autopilot/betweenness_centrality.go:99-114 | The search invariant holds of the initial tables |
| `Search.DiscoverInv` | docker/lnd/autopilot/betweenness_centrality.go:130-134 | Queueing a node seen for the first time keeps the invariant |
| `Search.ScanEdgeInv` | docker/lnd/autopilot/betweenness_centrality.go:136-141 | Counting a scanned edge keeps the invariant: sigma and pred account for exactly the edges scanned so far |
| `Search.NextNodeInv` | docker/lnd/autopilot/betweenness_centrality.go:119-128 | Going on to the next queued node keeps the invariant |
| `Search.DistIsDistance` | docker/lnd/autopilot/betweenness_centrality.go:103-153 | At the end dist is the hop distance, -1 exactly for unreachable nodes |
| `Search.SigmaIsSigma` | docker/lnd/autopilot/betweenness_centrality.go:104-141 | At the end sigma is the number of shortest paths |
| `Betweenness.Stack.Push` | docker/lnd/autopilot/betweenness_centrality.go:14-16 | The value becomes the last of the stack |
| `Betweenness.Stack.Pop` | docker/lnd/autopilot/betweenness_centrality.go:22-24 | Exactly the last value goes |
| `Betweenness.Queue.Push` | docker/lnd/autopilot/betweenness_centrality.go:36-38 | The value becomes the last of the queue |
| `Betweenness.Queue.Pop` | docker/lnd/autopilot/betweenness_centrality.go:44-46 | Exactly the first value goes |
| `Betweenness.ShortestPathCounts` | docker/lnd/autopilot/betweenness_centrality.go:99-143 | The whole search: true distances, the number of shortest paths as the size of the enumerated set, pred as exactly the shortest-path edges into each node, every reachable node on the stack once and in order of distance |
| `Betweenness.PassBack` | docker/lnd/autopilot/betweenness_centrality.go:154-161 | Settling w adds sigma(v)/sigma(w)(1+delta(w)) to each v once per predecessor edge, and nothing else |
| `Betweenness.AllCollected` | docker/lnd/autopilot/betweenness_centrality.go:149-161 | When a node comes off the stack it has already been given all it will be given |
| `Betweenness.HandBack` | docker/lnd/autopilot/betweenness_centrality.go:155-160 | Settling the top node leaves it with its total dependency and its predecessors with what it passes back |
| `Betweenness.SettleTop` | docker/lnd/autopilot/betweenness_centrality.go:151-166 | One round of the second loop: delta holds what the nodes popped so far have passed back, and each popped node but the source has been credited its total |
| `Betweenness.Accumulate` | docker/lnd/autopilot/betweenness_centrality.go:145-167 | The second phase credits every reached node but the source with its total dependency |
| `Betweenness.BetweennessCentrality` | docker/lnd/autopilot/betweenness_centrality.go:96-168 | The main theorem for one source: every other node gains exactly the sum over all targets of the fraction of shortest paths through it, and the source gains nothing |
| `Undirected.PairDependencyProduct` | docker/lnd/autopilot/betweenness_centrality.go:149-167 | w lies on a shortest path exactly when the distances add up, and then the paths to it and from it combine freely |
| `Undirected.ShareSymmetric` | docker/lnd/autopilot/betweenness_centrality.go:234-242 | In an undirected graph t depends on w for s as s does for t |
| `Undirected.GainsCountPairsTwice` | docker/lnd/autopilot/betweenness_centrality.go:234-242 | All sources together count every unordered pair twice |
| `CentralityMetric.HandOutAccounted` | docker/lnd/autopilot/betweenness_centrality.go:190-206 | Handing a source to a worker neither loses nor duplicates a contribution |
| `CentralityMetric.ComputedAccounted` | docker/lnd/autopilot/betweenness_centrality.go:190-206 | Nor does finishing one |
| `CentralityMetric.SentAccounted` | docker/lnd/autopilot/betweenness_centrality.go:190-206 | Nor does sending a partial result |
| `CentralityMetric.NoWorkerBlocks` | docker/lnd/autopilot/betweenness_centrality.go:177-194 | Between any two steps of the pool the channel of partial results has room for every worker that has not sent, so none ever blocks on it |
| `CentralityMetric.RunWorkers` | docker/lnd/autopilot/betweenness_centrality.go:177-210 | Whatever the schedule, the pool ends, each worker sends once, and the partial results add up to the sum over all sources |
| `CentralityMetric.Collect` | docker/lnd/autopilot/betweenness_centrality.go:212-218 | The merged table is the entry-wise sum of the partial results in the order of arrival |
| `CentralityMetric.HalfTotalIsBetweenness` | docker/lnd/autopilot/betweenness_centrality.go:234-242 | For a symmetric graph half the merged total is the betweenness over unordered pairs, each counted once |
| `CentralityMetric.Metric.New` | docker/lnd/autopilot/betweenness_centrality.go:75-83 | Fewer than one worker is refused |
| `CentralityMetric.Metric.Store` | docker/lnd/autopilot/betweenness_centrality.go:220-242 | Half of every total is stored under its node, and min and max are the range of the halves |
| `CentralityMetric.Metric.Refresh` | docker/lnd/autopilot/betweenness_centrality.go:171-245 | Refresh gives every node its betweenness over unordered pairs (for symmetric adjacency; half the total otherwise) and the range used for normalising; an unreadable graph changes nothing |
| `CentralityMetric.Metric.GetMetric` | docker/lnd/autopilot/betweenness_centrality.go:249-264 | The stored values; or each less the smallest, divided by the range, all zero if the range is empty; after a refresh that is the value over the largest, in [0, 1] |
| `Crc32c.Checksum` | docker/lnd/aezeed/cipherseed.go:357-359 | The table-free loop computes the bitwise CRC32C |
| `Crc32c.FeedOne` | docker/lnd/aezeed/cipherseed.go:357-359 | Eight single-bit shifts feed one byte |
| `Crc32c.ShiftByteLinear` | docker/lnd/aezeed/cipherseed.go:509-516 | Shifting the register by a byte is linear over XOR |
| `Crc32c.ShiftByteInjective` | docker/lnd/aezeed/cipherseed.go:509-516 | and injective |
| `Crc32c.FeedDifference` | docker/lnd/aezeed/cipherseed.go:509-516 | The difference of two registers evolves like a register that is fed the difference of the bytes |
| `Crc32c.ThreeBytes` | docker/lnd/aezeed/cipherseed.go:509-516 | From any register, three bytes are determined by the register they lead to |
| `Crc32c.WindowChangesCrc` | docker/lnd/aezeed/cipherseed.go:509-516 | Data that differs within a window of three bytes has different checksums |
| `Crc32c.LastBitChangesCrc` | docker/lnd/aezeed/cipherseed.go:509-516 | Flipping the last bit of the data changes the lower half of the checksum |
| `Bits.NumberOfBits` | docker/lnd/aezeed/cipherseed.go:444-452 | A number below 2^n is recovered from its n bits |
| `Bits.BitsOfNumber` | docker/lnd/aezeed/cipherseed.go:379-389 | A bit string is recovered from its number |
| `Bits.DataOfBits` | docker/lnd/aezeed/cipherseed.go:444-455 | Bytes to bits and back |
| `Bits.BitsOfData` | docker/lnd/aezeed/cipherseed.go:379-384 | Bits to bytes and back, for a whole number of bytes |
| `Bits.JoinSplit` | docker/lnd/aezeed/cipherseed.go:383-390 | Cutting into groups and joining gives the bits back |
| `Bits.SplitJoin` | docker/lnd/aezeed/cipherseed.go:445-453 | Joining equal groups and cutting gives the groups back |
| `Bits.BitReader.ReadBits` | docker/lnd/aezeed/cipherseed.go:384-387 | The next n bits as a number, or an error at the end of the stream |
| `Bits.BitWriter.WriteBits` | docker/lnd/aezeed/cipherseed.go:452-452 | Exactly the n bits of the number are appended |
| `Aezeed.BuildReverseMap` | docker/lnd/aezeed/wordlist.go:12-17 | The loop builds the map from a word to its last position |
| `Aezeed.ReverseMapIndex` | docker/lnd/aezeed/wordlist.go:12-17 | For a list without duplicates every word is mapped to its own position |
| `Aezeed.CipherTextToMnemonic` | docker/lnd/aezeed/cipherseed.go:372-393 | Reading eleven bits at a time yields the 24 words of the container, and never runs out of bits |
| `Aezeed.MnemonicToCipherText` | docker/lnd/aezeed/cipherseed.go:438-458 | Writing eleven bits a word yields the container that the words spell |
| `Aezeed.TextOfWords` | docker/lnd/aezeed/cipherseed.go:372-393 | Every 33-byte container is recovered from its 24 words, all of which are on the list |
| `Aezeed.WordsOfText` | docker/lnd/aezeed/cipherseed.go:438-458 | Every list of 24 known words is recovered from the container it spells |
| `Aezeed.DecodeEncode` | docker/lnd/aezeed/cipherseed.go:249-283 | Version, birthday and entropy survive serialisation, the salt being carried beside them |
| `Aezeed.CopyInto` | docker/lnd/aezeed/cipherseed.go:353-365 | Copying into the container overwrites that range and leaves the rest |
| `Aezeed.Encipher` | docker/lnd/aezeed/cipherseed.go:311-368 | The container of the seed, whose layout SeedLayout.ContainerLayout gives byte by byte |
| `Aezeed.DecipherCipherSeed` | docker/lnd/aezeed/cipherseed.go:487-542 | The version is checked first, then the checksum, then the cipher's tag, each with its own error |
| `Aezeed.Decipher` | docker/lnd/aezeed/cipherseed.go:547-584 | The first unknown word is reported with its position before anything else |
| `Aezeed.DecipherEncipher` | docker/lnd/aezeed/cipherseed.go:311-368 | What encipher puts into a container, decipher takes out again: same plaintext, same salt |
| `Aezeed.SeedRoundTrip` | docker/lnd/aezeed/cipherseed.go:398-482 | ToCipherSeed recovers version, birthday, entropy and salt from ToMnemonic under the same, possibly defaulted, passphrase |
| `Aezeed.ChangePassKeepsSeed` | docker/lnd/aezeed/cipherseed.go:590-603 | From any mnemonic: changing the passphrase fails as reading the seed fails, and otherwise yields a mnemonic of the same seed under the new one |
| `Aezeed.ChangePassBack` | docker/lnd/aezeed/cipherseed.go:590-603 | Changing the passphrase and changing it back yields the original mnemonic |
| `SingleWord.BytesOutsideWord` | docker/lnd/aezeed/cipherseed.go:438-458 | A word touches only the bytes its eleven bits overlap |
| `SingleWord.StraddlingWord` | docker/lnd/aezeed/cipherseed.go:438-458 | Word 21 covers the last bit of the salt and the upper ten bits of the checksum |
| `SingleWord.StraddlingCaught` | docker/lnd/aezeed/cipherseed.go:498-516 | Two containers that differ only there cannot both pass the checks |
| `SingleWord.OneWordChanged` | docker/lnd/aezeed/cipherseed.go:498-516 | Of two mnemonics that differ in exactly one word at most one passes the version and checksum checks |
| `SingleWord.WrongWordIsReported` | docker/lnd/aezeed/cipherseed.go:498-516 | So a mnemonic with one word replaced by another listed word is never deciphered but reported |
| `SeedLayout.PlaintextLayout` | docker/lnd/aezeed/cipherseed.go:249-264 | The plaintext is the version byte, the birthday with its upper byte first, and the entropy |
| `SeedLayout.ContainerLayout` | docker/lnd/aezeed/cipherseed.go:311-368 | Byte by byte: version zero, the ciphertext under the key of the passphrase given (the word aezeed if none is) and the salt with version and salt as associated data, the salt, and the checksum of the 29 bytes before it, upper byte first |
| `SeedLayout.ContainerRead` | docker/lnd/aezeed/cipherseed.go:487-542 | An unknown version, a wrong checksum and a refused ciphertext, looked for in this order, each have their own error; otherwise the plaintext under that key and the salt are returned |
| `SeedLayout.MnemonicRead` | docker/lnd/aezeed/cipherseed.go:547-584 | The first word not listed is reported with its position; otherwise the container is read under the passphrase given, or aezeed |
| `SeedLayout.OtherPassphrase` | docker/lnd/aezeed/cipherseed.go:464-482 | Under another passphrase the seed is read as the cipher takes the ciphertext under that passphrase's key: an invalid passphrase is reported if and only if the cipher refuses |
| `SeedLayout.WordDigits` | docker/lnd/aezeed/cipherseed.go:379-390 | The bits of the container, upper first, are the binary digits of the words' positions in the list, eleven for each word, upper first |
| `SeedLayout.CheckValue` | docker/lnd/aezeed/cipherseed.go:511-513 | The checksum of the digits 1 to 9 is the check value of CRC32C, e3069283 |
| `PeerSafety.InitialInv` | docker/lnd/server.go:598-613 | The empty bookkeeping is consistent |
| `PeerSafety.InboundInv` | docker/lnd/server.go:3526-3608 | An inbound connection keeps the bookkeeping consistent |
| `PeerSafety.OutboundInv` | docker/lnd/server.go:3613-3721 | So does an outbound one |
| `PeerSafety.PeerTerminatedInv` | docker/lnd/server.go:4085-4206 | So does a termination watcher, whichever way it goes |
| `PeerSafety.NotifyWhenOfflineInv` | docker/lnd/server.go:3399-3422 | So does a request for an offline notification |
| `PeerSafety.StepInv` | docker/lnd/server.go:3203-4438 | Every locked section keeps: one index by key that is the disjoint union of two by direction, watchers, replacements, connections, retry channels and offline channels as described in PeerSafety |
| `PeerSafety.EveryRunIsSafe` | docker/lnd/server.go:3203-4438 | All of that after every run of interleaved sections, address announcements, new channels and the connections made at the start included: in particular no channel is ever closed twice |
| `PeerSafety.WatcherRemovesItsOwn` | docker/lnd/server.go:4118-4120 | A watcher of a peer that is not being replaced removes exactly that peer: never a replacement |
| `PeerSafety.ScheduledExactly` | docker/lnd/server.go:3602-3606 | A connection is scheduled for a key exactly when one replaced peer of that key has a watcher still due, and never while a peer is connected under the key |
| `PeerSafety.ScheduledStays` | docker/lnd/server.go:4097-4116 | No other step touches a scheduled connection |
| `PeerSafety.ScheduledTakesOver` | docker/lnd/server.go:4110-4114 | That watcher attaches it: the new peer has its connection and direction and is the only one attached |
| `PeerSafety.ScheduledWaits` | docker/lnd/server.go:4097-4116 | Over a whole run without that watcher's turn the connection stays scheduled as it is |
| `PeerSafety.OneFate` | docker/lnd/server.go:3526-3721 | Every connection handed in is closed, scheduled or attached, and only one of these |
| `PeerSafety.FatesAreFinal` | docker/lnd/server.go:3526-3721 | Closed and attached are never undone |
| `PeerSafety.OfflineClosedByWatcher` | docker/lnd/server.go:4088-4095 | Every open offline channel has a watcher due for its key, and is closed by exactly the next one that runs |
| `PeerSafety.TieBreakNeverReached` | docker/lnd/server.go:3541-3590 | In a consistent state the peer met by a new connection that passed the earlier checks has its direction, so comparing public keys never decides |
| `PeerEffects.InboundEffect` | docker/lnd/server.go:3541-3607 | An inbound connection is closed, and nothing else done, if and only if there is an outbound peer or a connection waiting; otherwise requests and retry of the key are cancelled, and it replaces the inbound peer there is once that is gone, or becomes a new, watched peer at once |
| `PeerEffects.OutboundEffect` | docker/lnd/server.go:3628-3720 | Likewise outbound, closed also if it was requested and the request is gone |
| `PeerEffects.TakeOverEffect` | docker/lnd/server.go:4097-4116 | The connection that waited for a replaced peer becomes a new, watched peer when that is gone, with its own direction, and nothing about persistent peers changes |
| `PeerEffects.ReconnectPrepared` | docker/lnd/server.go:4118-4206 | A persistent peer that goes away keeps its addresses in place and gets those to reconnect to that it lacked, and an open retry channel; any other leaves no trace |
| `PeerEffects.AddrsTried` | docker/lnd/server.go:4127-4171 | What is advertised is tried, else the last address, and nothing exactly for an inbound peer behind Tor that advertises none |
| `PeerEffects.RequestsKept` | docker/lnd/server.go:4237-4288 | When a retry is due, of the requests exactly those for stored addresses are kept, one for each and in order, a retry channel is ready, and nothing else changes |
| `PeerEffects.RequestEffect` | docker/lnd/server.go:4307-4311 | A request goes to the end of the list of its key |
| `PeerEffects.PermanentEffect` | docker/lnd/server.go:4394-4432 | A peer that is not connected becomes permanent and is requested |
| `PeerEffects.DisconnectEffect` | docker/lnd/server.go:4495-4508 | A connected peer stays indexed until its watcher runs, but is no longer asked for |
| `PeerEffects.PruneEffect` | docker/lnd/server.go:3276-3288 | A peer that is persistent and not permanent, and no other, loses its addresses, requests and retry |
| `PeerEffects.ListenEffect` | docker/lnd/server.go:3399-3422 | The caller's channel is new and for its key; it is closed at once if and only if no peer is connected, and listed otherwise |
| `PeerEffects.AnnounceEffect` | docker/lnd/server.go:397-397 | Announced addresses replace those stored for the key |
| `PeerEffects.WatchEffect` | docker/lnd/server.go:1436-1438 | A peer with a new channel becomes persistent, and one that is already stays as it is |
| `PeerEffects.EstablishEffect` | docker/lnd/server.go:3211-3233 | Every peer known at the start is persistent and not permanent then, and no address is forgotten |
| `Server.Server.constructor` | docker/lnd/server.go:598-613 | The maps start empty, with the persistent peers given, and consistent |
| `Server.Server.HandleInboundConnection` | docker/lnd/server.go:3526-3608 | The section does to the maps what InboundPeerConnected of the state machine says, and keeps the object consistent |
| `Server.Server.HandleOutboundConnection` | docker/lnd/server.go:3613-3721 | The section does what OutboundPeerConnected of the state machine says, and keeps the object consistent |
| `Server.Server.CancelRequests` | docker/lnd/server.go:3735-3772 | The retry channel is closed and forgotten, and all requests are dropped |
| `Server.Server.Connect` | docker/lnd/server.go:3916-3932 | The new peer is indexed and its watcher is started |
| `Server.Server.Add` | docker/lnd/server.go:3953-3962 | The peer is entered under its key and in the map of its direction |
| `Server.Server.Remove` | docker/lnd/server.go:4352-4362 | The entry under the key goes, in the index and in the map of the peer's direction |
| `Server.Server.HandleTermination` | docker/lnd/server.go:4085-4206 | The watcher's section does what PeerTerminated of the state machine says, for the addresses it settles on, and keeps the object consistent |
| `Server.Server.AddrsToTry` | docker/lnd/server.go:4127-4171 | Advertised addresses are preferred to the last one used; an inbound peer behind Tor without any is not reconnected to |
| `Server.Server.CloseListeners` | docker/lnd/server.go:4088-4095 | The loop closes every offline channel of the key once, and forgets them |
| `Server.Server.SetUpReconnect` | docker/lnd/server.go:4122-4206 | The loop adds the addresses not stored yet, and a retry channel is made if there is none |
| `Server.Server.Reconnect` | docker/lnd/server.go:4237-4288 | The requests still wanted are kept, and a retry channel is made if there is none |
| `Server.KeepWanted` | docker/lnd/server.go:4255-4280 | The loop keeps, in order, one request for each address still wanted |
| `Server.Server.AppendRequest` | docker/lnd/server.go:4307-4311 | One missing request is added |
| `Server.Server.ConnectToPeer` | docker/lnd/server.go:4383-4438 | A connected peer is refused; a permanent one becomes persistent and is requested; any other is dialled without being recorded |
| `Server.Server.DisconnectFrom` | docker/lnd/server.go:4485-4515 | An unknown peer is an error; otherwise its requests and its persistence are dropped |
| `Server.Server.Prune` | docker/lnd/server.go:3272-3289 | Only a peer that is persistent without being permanent is pruned |
| `Server.Server.ListenForOffline` | docker/lnd/server.go:3399-3422 | The channel is closed at once for an offline peer, and stored for its watcher otherwise |
| `Server.Server.AnnounceAddrs` | docker/lnd/server.go:393-411 | The announced addresses replace the stored ones, and a reconnect follows exactly if there are requests |
| `Server.Server.WatchChannel` | docker/lnd/server.go:1434-1439 | A peer with a new channel becomes persistent unless it is already |
| `Server.Server.Establish` | docker/lnd/server.go:3203-3251 | Every peer known at the start becomes persistent without being permanent, its addresses added to those stored |
| `AgentState.NoSlotExact` | docker/lnd/autopilot/agent.go:697-703 | Within the bound the 16-bit comparison is exact |
| `AgentState.StepInv` | docker/lnd/autopilot/agent.go:436-875 | Every section of the controller and of a directive keeps the bounds |
| `AgentState.EveryRunIsSafe` | docker/lnd/autopilot/agent.go:436-875 | Over any interleaving the pending opens never exceed their maximum, pending connections and opens are disjoint, and no node has two connecting directives |
| `AgentState.LaunchIsFresh` | docker/lnd/autopilot/agent.go:695-721 | At the limit of pending opens nothing is launched; otherwise every candidate, although the skip set was read under an earlier lock, is marked and gets a new directive of its own with the amount picked for it, and the old ones stay |
| `AgentState.SectionEffects` | docker/lnd/autopilot/agent.go:436-875 | What each section does to channel state, pending connections, pending opens and failed nodes; nothing picked is in any of them |
| `AgentState.FailedStaysOut` | docker/lnd/autopilot/agent.go:586-592 | A node that has failed is never picked again, however the run goes on |
| `Agent.Agent.constructor` | docker/lnd/autopilot/agent.go:177-198 | The agent starts with its open channels by their ids and nothing pending |
| `Agent.Agent.OnChannelOpen` | docker/lnd/autopilot/agent.go:436-448 | An opened channel moves from the pending opens to the channel state |
| `Agent.Agent.OnChannelClose` | docker/lnd/autopilot/agent.go:452-462 | Exactly the closed channels are forgotten |
| `Agent.Agent.UpdateBalance` | docker/lnd/autopilot/agent.go:413-421 | The wallet's balance is stored |
| `Agent.Agent.MergeSkips` | docker/lnd/autopilot/agent.go:565-592 | A node is skipped if and only if it has a channel, open or pending, is being connected to, or has failed |
| `Agent.Agent.MergeChanState` | docker/lnd/autopilot/agent.go:383-396 | All confirmed and pending channels are listed, each once, with their balances adding up |
| `Agent.Agent.Eligible` | docker/lnd/autopilot/agent.go:596-633 | The nodes asked about are those of the graph with an address that are neither the agent itself nor skipped |
| `Agent.Agent.PickCandidates` | docker/lnd/autopilot/agent.go:554-684 | The heuristic is asked about exactly the reachable nodes that are not skipped; once the draws settle the choice, somebody is picked if and only if there is room and somebody with weight; everything picked is free, sized within the limits, in all no more than the wallet has, and keeps channel count and allocated share within their limits, relative to the channels read before |
| `Agent.Agent.Dispatch` | docker/lnd/autopilot/agent.go:511-542 | With no directive in between, no candidate has a channel or failed, and the agent's own confirmed and pending channels together with the new ones stay within the channel limit and the share of all funds |
| `Agent.Agent.LaunchCandidates` | docker/lnd/autopilot/agent.go:695-721 | At the limit of pending opens nothing is launched; otherwise one directive per candidate not being connected to |
| `Agent.Agent.StartDirective` | docker/lnd/autopilot/agent.go:712-719 | A candidate not being connected to is marked and gets a new directive |
| `Agent.Agent.OnConnectFailure` | docker/lnd/autopilot/agent.go:774-789 | The node is released and marked as failed |
| `Agent.Agent.OnConnected` | docker/lnd/autopilot/agent.go:797-835 | A slot is taken only if one is still free; otherwise the node is released without being marked |
| `Agent.Agent.OnOpenResult` | docker/lnd/autopilot/agent.go:838-874 | A failed open frees the slot and marks the node; a started one keeps it |
| `Choice.WeightedChoice` | docker/lnd/autopilot/choice.go:15-46 | The index picked is the one in whose share of the total the scaled draw falls; no positive weight is an error and takes no draw; the final error cannot occur |
| `Choice.SelectsOne` | docker/lnd/autopilot/choice.go:15-46 | A draw selects one index only |
| `Choice.SelectedPositiveExactly` | docker/lnd/autopilot/choice.go:15-46 | The weight picked is positive if and only if the draw is not zero or the first weight is positive |
| `Choice.ZeroDrawSelectsWeightless` | docker/lnd/autopilot/choice.go:32-43 | A draw of zero does pick a node without weight |
| `Choice.CopyScores` | docker/lnd/autopilot/choice.go:54-64 | The working arrays hold every node once with its score |
| `Choice.ChooseN` | docker/lnd/autopilot/choice.go:51-87 | For any draws in [0,1): never more than n nodes, each with its own score object; every draw that is not zero adds a node with weight, all zero draws together at most the first node; without zero draws the loop ends with the smaller of n and the number of positive scores; it ends once that many draws are not zero, and never while all are zero and two nodes are called for |
| `Choice.PickTracked` | docker/lnd/autopilot/choice.go:77-83 | A draw that is not zero adds a node not chosen before; a zero draw takes the first node, again if need be |
| `Choice.Summary` | docker/lnd/autopilot/choice.go:69-86 | What the counts of draws say about how the loop ended, or that it has not |
| `Constraints.ChannelBudget` | docker/lnd/autopilot/agent_constraints.go:85-127 | The free slots and the largest whole amount that keep channel count and allocated share within their limits, zero exactly when a limit is reached |
| `Constraints.SizeCandidates` | docker/lnd/autopilot/agent.go:655-679 | Every channel has the full size but for one that takes what is left; a chosen node is left out only when less than the smallest size remains, and the first never |
| `Constraints.PlanDispatch` | docker/lnd/autopilot/agent.go:524-679 | Budget, choice and sizing together keep all limits for any draws, and once the draws settle the choice pick somebody if and only if there is room and weight: as many as slots and weights allow or the share can pay, each with the largest size but for one |
| `Scid.EncodeDecode` | docker/lnd/lnwire/short_channel_id.go:38-53 | Every 64-bit number is the encoding of the id it decodes to |
| `Scid.DecodeEncode` | docker/lnd/lnwire/short_channel_id.go:38-53 | An id survives the round trip if and only if its height fits three bytes |
| `Scid.NextEncoding` | docker/lnd/aliasmgr/aliasmgr.go:454-495 | The next id is the one whose encoding is one more, modulo 2^64 |
| `Scid.NthEncoding` | docker/lnd/aliasmgr/aliasmgr.go:392-432 | The n-th alias handed out has the encoding of the first plus n |
| `Scid.NthFields` | docker/lnd/aliasmgr/aliasmgr.go:454-495 | Field by field the n-th alias counts up position, then index, then height from 16000000 |
| `Scid.NeverRepeats` | docker/lnd/aliasmgr/aliasmgr.go:392-432 | Aliases do not repeat within 2^64 requests |
| `Scid.RecognisedExactly` | docker/lnd/aliasmgr/aliasmgr.go:502-505 | Of those, exactly the first 250000 * 2^40 are recognised as aliases, and these survive the database |
| `AliasState.StepContained` | docker/lnd/aliasmgr/aliasmgr.go:219-370 | Every operation, failed or not, keeps what a restart would rebuild within what the caches have |
| `AliasState.EveryRunContains` | docker/lnd/aliasmgr/aliasmgr.go:112-370 | So it is after every run with any restarts: the live gossip map contains the rebuilt one |
| `AliasState.AddSyncExactly` | docker/lnd/aliasmgr/aliasmgr.go:219-274 | From exact caches an add leads to exact caches if and only if the alias is not stored yet, a gossip alias goes to an unconfirmed base, and a base that gets an alias without gossip has no gossip alias |
| `AliasState.AddAgainRepeats` | docker/lnd/aliasmgr/aliasmgr.go:219-274 | Adding an alias to its own base again changes nothing but the live list, which then has the alias twice |
| `AliasState.AddedTwice` | docker/lnd/aliasmgr/aliasmgr.go:258-265 | From the empty manager two equal adds leave two entries where a restart finds one |
| `AliasState.GossipForConfirmed` | docker/lnd/aliasmgr/aliasmgr.go:219-274 | A gossip alias for a confirmed base is in the live gossip map and not in the rebuilt one |
| `AliasState.StepSync` | docker/lnd/aliasmgr/aliasmgr.go:219-370 | Every other operation keeps the caches exact |
| `AliasState.CarefulRunsStayInSync` | docker/lnd/aliasmgr/aliasmgr.go:112-370 | After a run whose adds meet that condition the three maps equal the rebuilt ones, with every alias listed once |
| `AliasState.AllocationSurvives` | docker/lnd/aliasmgr/aliasmgr.go:392-432 | After any run, restarts and failures included, the next alias depends on the number of successful requests only |
| `AliasState.AddEffect` | docker/lnd/aliasmgr/aliasmgr.go:219-274 | After an add the alias stands for the base in the database and at the end of its list, in the gossip map if it is for gossip, and else the base is confirmed; nothing else changes |
| `AliasState.SixConfsEffect` | docker/lnd/aliasmgr/aliasmgr.go:314-341 | The base is confirmed and loses its gossip aliases; every other base keeps its own |
| `AliasState.PutPeerEffect` | docker/lnd/aliasmgr/aliasmgr.go:345-370 | Database and cache have the alias for the channel, and no other channel is touched |
| `AliasState.RequestEffect` | docker/lnd/aliasmgr/aliasmgr.go:392-432 | A request records the alias it returns, and only that |
| `AliasState.FailedEffect` | docker/lnd/aliasmgr/aliasmgr.go:260-263 | A failed transaction changes nothing |
| `AliasState.LastPutIsStored` | docker/lnd/aliasmgr/aliasmgr.go:345-385 | Through any run with restarts and failures, database and cache have for a channel the alias put last, or the one there was if none was put |
| `AliasManager.Manager.constructor` | docker/lnd/aliasmgr/aliasmgr.go:101-109 | A manager on any database starts with exact caches |
| `AliasManager.Manager.PopulateMaps` | docker/lnd/aliasmgr/aliasmgr.go:112-213 | The caches built are exact: every alias listed once for its base, in any order, and the gossip map for unconfirmed bases only |
| `AliasManager.Manager.AddLocalAlias` | docker/lnd/aliasmgr/aliasmgr.go:219-274 | Database and caches change together, or not at all when the transaction fails |
| `AliasManager.Manager.DeleteSixConfs` | docker/lnd/aliasmgr/aliasmgr.go:314-341 | The base is marked confirmed and the loop drops exactly its gossip aliases |
| `AliasManager.Manager.PutPeerAlias` | docker/lnd/aliasmgr/aliasmgr.go:345-370 | Database and cache take the alias for the channel together, or neither does when the transaction fails |
| `AliasManager.Manager.RequestAlias` | docker/lnd/aliasmgr/aliasmgr.go:392-432 | The next alias is recorded and returned, or nothing happens |
| `AliasManager.Manager.GetAliases` | docker/lnd/aliasmgr/aliasmgr.go:278-293 | With exact sets, exactly the aliases stored for the base, each once |
| `AliasManager.Manager.FindBaseSCID` | docker/lnd/aliasmgr/aliasmgr.go:297-309 | With an exact gossip map, the base of a stored alias while the base is unconfirmed, and nothing else |
| `AliasManager.Manager.GetPeerAlias` | docker/lnd/aliasmgr/aliasmgr.go:373-385 | The stored alias of the channel; the zero id counts as none |
| `Shares.Xor` | docker/lnd/amp/child.go:16-20 | Byte by byte, also when the result overwrites an operand |
| `Shares.BE32RoundTrip` | docker/lnd/amp/child.go:72-73 | A big-endian index is recovered |
| `Shares.BE32BigEndian` | docker/lnd/amp/child.go:72-73 | The most significant byte of the index comes first |
| `Shares.DerivedIsGenuine` | docker/lnd/amp/child.go:60-91 | A child's preimage is the digest of root, share and index, and its hash the digest of its preimage |
| `Shares.GenuineIsDerived` | docker/lnd/amp/child.go:60-91 | and it is the only child with these |
| `Shares.SeedInjective` | docker/lnd/amp/child.go:65-80 | Different roots, shares or indices never hash the same bytes |
| `Shares.SplitMerges` | docker/lnd/amp/sharer.go:97-142 | Both halves keep the root and make up the parent; merging a child of one half into the other, or of the parent into its zero node, restores the parent; exactly the zero node and a failed draw cannot be split |
| `Shares.ReconstructChildren` | docker/lnd/amp/sharer.go:149-164 | The receiver's children have the descriptors received, and preimages and hashes that belong to the XOR of all shares received |
| `ShardState.TakeOut` | docker/lnd/amp/shard_tracker.go:87-150 | The XOR of the outstanding shares does not depend on their order |
| `ShardState.NewConservesExactly` | docker/lnd/amp/shard_tracker.go:87-133 | From any conserving state a new shard keeps the shares making up the root if and only if it failed, its id is not tracked, or the share it overwrites is zero |
| `ShardState.CancelConserves` | docker/lnd/amp/shard_tracker.go:136-150 | Cancelling always keeps it |
| `ShardState.CancelUndoesNew` | docker/lnd/amp/shard_tracker.go:87-150 | Cancelling a shard just made, the last one too, restores the tracker completely |
| `ShardState.NewEffect` | docker/lnd/amp/shard_tracker.go:87-133 | A shard is made if and only if its index could be drawn and, unless it is the last, the current share is not zero and a left share could be drawn; it gets the whole share or the one drawn, and the preimage and hash that belong to the root |
| `ShardState.CancelEffect` | docker/lnd/amp/shard_tracker.go:136-150 | A tracked shard is given up and its share goes back into the current one; an unknown one changes nothing |
| `ShardState.EveryRunTracksGenuine` | docker/lnd/amp/shard_tracker.go:87-165 | In every run, fresh ids or not, every tracked child has the preimage and hash that belong to the root |
| `ShardState.EveryRunConserves` | docker/lnd/amp/shard_tracker.go:87-150 | In every run with fresh ids, for any draws and failures: current share XOR outstanding shares is the root, and every tracked child is derived from it |
| `ShardState.ReceivedIsOutstanding` | docker/lnd/amp/sharer.go:149-154 | In whatever order shards arrive, their XOR is that of the outstanding ones |
| `ShardState.RootRecoveredExactly` | docker/lnd/amp/sharer.go:149-154 | The receiver finds the sender's root if and only if the current share is zero |
| `ShardState.ChildrenRecovered` | docker/lnd/amp/sharer.go:156-161 | Then it derives exactly the tracked children; otherwise it hashes other bytes for every one |
| `ShardState.LastShardCompletes` | docker/lnd/amp/shard_tracker.go:104-121 | After any run of splits, cancels and earlier last shards, a last shard makes the outstanding ones complete for the receiver |
| `ShardState.RevealedPreimageSettles` | docker/lnd/amp/child.go:75-91 | and each preimage the receiver then derives has the digest that was sent as the hash of that shard |
| `ShardTracker.Tracker.constructor` | docker/lnd/amp/shard_tracker.go:67-81 | The tracker starts with the root as its share and no children |
| `ShardTracker.Tracker.NewShard` | docker/lnd/amp/shard_tracker.go:87-133 | The step of the state machine, with records that carry the tracked share and index; the preimage is the digest of root, share and index sent, and the hash the digest of the preimage; errors exactly for failed draws and the zero share |
| `ShardTracker.Tracker.CancelShard` | docker/lnd/amp/shard_tracker.go:136-150 | The step of the state machine; an unknown id is an error |
| `ShardTracker.Tracker.GetHash` | docker/lnd/amp/shard_tracker.go:154-165 | The digest of the tracked preimage, which is the hash that the receiver will derive; an unknown id is an error |
| `BeaconState.StepInv` | docker/lnd/witness_beacon.go:61-189 | Every step keeps the cache, the subscribers, the calls in flight and the channels consistent |
| `BeaconState.SubscribeEffect` | docker/lnd/witness_beacon.go:69-77 | A new client with an empty channel is subscribed, whatever the interceptor says |
| `BeaconState.CancelEffect` | docker/lnd/witness_beacon.go:84-91 | A cancelled client is told to quit and no longer subscribed; no other client is touched |
| `BeaconState.WriteEffect` | docker/lnd/witness_beacon.go:146-166 | After a successful write of a batch every preimage of it is found by its digest, and the call is about to notify; otherwise nothing changes |
| `BeaconState.NotifyEffect` | docker/lnd/witness_beacon.go:168-183 | The call is done and every subscriber, nobody else, has a goroutine of it with the whole batch |
| `BeaconState.SendEffect` | docker/lnd/witness_beacon.go:175-178 | While fewer than ten are unread, the first preimage left goes to the end of the channel, and with the last one the goroutine ends |
| `BeaconState.StopEffect` | docker/lnd/witness_beacon.go:178-179 | The goroutine of a client that has quit ends |
| `BeaconState.ReceiveEffect` | docker/lnd/witness_beacon.go:82-84 | A reader takes the next preimage out |
| `BeaconState.CancelledIsLeftAlone` | docker/lnd/witness_beacon.go:84-91 | A client that has cancelled is notified by no later call, however the run goes on |
| `BeaconState.EveryRunDeliversInOrder` | docker/lnd/witness_beacon.go:173-182 | In every run an uncancelled client's channel has been sent the batches of the calls that notified it, each in order, each complete once its goroutine is through, and nothing else; never more than ten are unread |
| `BeaconState.NoLostNotification` | docker/lnd/witness_beacon.go:66-182 | A client that subscribed and then looked up a hash: for every completed call with a preimage of it, the lookup found one, the client was notified, or it has cancelled |
| `BeaconState.NoLostPreimage` | docker/lnd/witness_beacon.go:123-182 | Once its goroutines are through and its channel is empty, a client whose lookup missed has received the preimage |
| `BeaconState.RunnerGoesOn` | docker/lnd/witness_beacon.go:174-182 | A goroutine is never stuck while its client reads or has quit |
| `BeaconState.RefusedStaysSubscribed` | docker/lnd/witness_beacon.go:75-116 | A subscriber whose interceptor failed can never be cancelled: every later call notifies it, and at most ten preimages reach its channel |
| `BeaconState.RefusedBlocksForGood` | docker/lnd/witness_beacon.go:173-182 | Once ten preimages are unread in its channel no goroutine of that subscriber ever moves or ends, and every later call leaves one more behind with its whole batch |
| `PreimageBeacon.Beacon.constructor` | docker/lnd/witness_beacon.go:49-57 | Nothing is cached, nobody subscribed |
| `PreimageBeacon.Beacon.SubscribeUpdates` | docker/lnd/witness_beacon.go:61-119 | The subscriber is registered under a new id, also when the interceptor fails and nothing is returned |
| `PreimageBeacon.Beacon.CancelSubscription` | docker/lnd/witness_beacon.go:84-91 | The subscriber is forgotten and told to quit; a second call panics and leaves the maps as they are |
| `PreimageBeacon.Beacon.LookupPreimage` | docker/lnd/witness_beacon.go:123-142 | The cached preimage, which hashes to what was asked for |
| `PreimageBeacon.Beacon.WritePreimages` | docker/lnd/witness_beacon.go:146-166 | The part before the lock: the batch is copied and cached; an empty batch and a failed write do nothing |
| `PreimageBeacon.AddSha256Witnesses` | docker/lnd/channeldb/witness_cache.go:83-135 | Each preimage is stored under its own hash, one after the other |
| `PreimageBeacon.Beacon.NotifySubscribers` | docker/lnd/witness_beacon.go:168-183 | The part under the lock: the loop starts one goroutine per subscriber with the whole batch |
| `PreimageBeacon.Beacon.SendNext` | docker/lnd/witness_beacon.go:174-181 | One turn of a goroutine: the next preimage is sent, or it stops because its client has quit |

## Left out

- Floating-point rounding, and overflow of the path counts: exact reals and unbounded naturals are used.
- `NewSimpleGraph`: the graph is any list of nodes with in-range neighbour lists; that both ends list a channel is the
  assumption `Symmetric`, under which the metric is the betweenness over unordered pairs.
- Constraints.PlanDispatch: the limits are kept per dispatch; nodes being connected to are not counted by the code either.
- The shutdown of the agent and of the server: in the agent's runs a directive may be abandoned at any time while
  connecting; the server's runs are those in which it is not stopping.
- In the server: back-off durations, error buffers, the connection manager's request ids and removals, online listeners,
  the peer's own handshake, and the failure to allocate an error buffer.
- Any guarantee from the tie-break between two simultaneous connections: the checks before it keep it from ever deciding
  (`PeerSafety.TieBreakNeverReached`).
- Server.Server.AddrsToTry: what the graph has advertised for a peer, and the last address used, are parameters.
- Server.Server.SetUpReconnect: takes the addresses settled on; `HandleTermination` settles on them.
- Server.Server.ConnectToPeer: the dialling of a connection that is not permanent; it comes back as an outbound one.
- Strength of SHA-256, aez and scrypt: functions about which only "decryption undoes encryption under the same key and
  associated data" is assumed; key derivation with fixed parameters is taken not to fail.
- The literal word list: any 2048 different words; the number and the distinctness are assumed.
- Generating a seed (`New`), `BirthdayTime`, and the exported `Encipher` wrapper.
- The bit-stream and CRC libraries: modelled from their definition, `github.com/kkdai/bstream` and Go's `hash/crc32` are
  not part of this model.
- AliasManager.Manager.PopulateMaps: assumes that the caches are empty, as they are where it is called.
- AliasState: ids given to the alias manager have heights of at most three bytes, the only ones an encoding can hold; a
  bucket is a map or a set of encodings; a failed transaction is a parameter.
- Expiry in the witness cache: it only grows, which is what the no-loss statements are about.
- BeaconState: the wrap-around of the 64-bit client counter; runs end where a second cancellation would panic.
- Database-backed graphs, score wrappers, RPC and configuration code, the Python generators at the repository root.
