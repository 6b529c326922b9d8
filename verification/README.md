# strata-p2p verification model

A Dafny 4.11 model of the state machines that strata-p2p keeps on top of libp2p,
with theorems about whole runs of them. `dafny verify dfyconfig.toml` checks it.

libp2p, the system clock, the signature scheme and the serializers are inputs.
Every clock reading the source takes is a parameter of the step that takes it;
signing, verifying, serializing and parsing are function-valued parameters, and a
theorem that needs sign/verify correctness or a serializer inverse says so in its
`requires`. What the swarm does is an event of the run.

Code that works by updating fields is a class with those fields. Each of its
methods is proved to move the abstract state by a specification function, and the
run theorems are about those functions.

| file | part |
|---|---|
| `Freshness.dfy` | the date window that five handlers write out by hand |
| `SignedMessages.dfy` | signed envelopes |
| `Codec.dfy` | the length-prefixed setup codec and stream decoding |
| `EventStack.dfy` | the `Vec` used as an event stack by handler and behaviour |
| `Setup.dfy` | setup handler of one connection, and the handshake between two honest ends |
| `Registry.dfy` | the two-map key registry and the connectivity queries |
| `Byos.dfy` | the whole BYOS node: connections, registry, request/response gate |
| `Recency.dfy` | which of a peer's accepted setup messages the registry speaks for |
| `Dialing.dfy` | `DialManager` and the handlers that drive it |
| `Penalties.dfy` | the expiring penalty store against a never-forgetting reference |
| `Scoring.dfy` | `ScoreManager`, the default validator and the handlers that charge scores |
| `RateLimit.dfy` | the rate bound |
| `ScoreRange.dfy` | score range, spacing of automatic mutes, penalties of whole node runs |
| `Dht.dfy` | record store and query table |
| `Republish.dfy` | the republish loop |

## What was found

* The registry's two maps are mutually inverse at every moment of a run exactly
  when no setup message presents a key for a peer that has another key, or a key
  that another peer has (`AlwaysInverseIffConflictFree`). The source calls them a
  bimap-like solution, but an insert leaves the former partners in place. When two
  peers present one key and the first leaves, the second stays connected and
  registered while `IsConnected` answers false (`SharedKeyLost`); the two
  connectivity queries agree for every set of connected peers exactly when the maps
  are inverse (`QueriesAgreeIffInverse`).
* Every delivered message is signed by the key of a setup message that was accepted
  from its peer (`IdentityBinding`), but not always of the most recent one. It is
  the most recent one exactly when that message is no longer on its way through its
  connection, was not dropped when the connection closed, and was not overtaken in
  the registry by an older message (`RegisteredIsLatestIff`, `IdentityIsLatestIff`).
  Each failure has a run: the handler's pending list is a stack and reverses two
  messages of one connection (`ReversedByStack`), a close drops a key still under
  way (`LostInClose`), and two connections deliver in either order
  (`OvertakenAcross`). When each setup message of a peer is accepted, and each of its
  connections closed, only while no connection of the peer carries a key, the
  registry always ends with the most recent one (`OrderlyRegistersLatest`,
  `OrderlyIdentity`).
* `conn_to_dial` stays one to one with `dial_queues` whatever the swarm answers,
  but an attempt whose dial the swarm refused never gets an outcome: every attempt
  on record is outstanding exactly when no dial was ever refused
  (`CouplingInvariant`), and a refused dial blocks its key for ever
  (`OrphanReachable`, `OrphanBlocksKey`).
* The hand-written freshness checks accept the same dates, apart from the largest
  date which only the DHT check refuses, exactly when the clock is past the epoch and
  adding the skew does not overflow (`AllFormsAgreeIff`); on overflow the adding forms
  refuse even a message dated now.
* Encoding does not check the frame limit that decoding enforces; a frame round
  trips exactly when it is within the limit (`FrameRoundTripIffFits`), and an
  oversized header stops a reader at once, however the bytes come (`StreamVerdict`).
* Gossip and request/response share one decay clock. That gives the joint rate
  bound, but a message of one protocol at the end of a mute takes the decay that the
  score of the other was waiting for. Without score commands a score is in [-101, 0]
  at every moment of a run exactly when no valid message of an unmuted peer comes
  while the score plus the decay still due is below -100 (`InRangeIffNeverOverdrawn`);
  when such messages come there is no lower bound at all (`SharedClockLeavesRange`).
* A put of the node's own record that fails to be signed or stored ends
  republishing for good (`FailureIsFinal`).

Where comments and code differ the model follows the code: the setup message is
described as JSON but is flexbuffers, and the log line for a successful put says
that it failed.

## Model

| member | source | states |
|---|---|---|
| `Freshness.SetupIsWindow` | crates/p2p/src/swarm/setup/handler.rs:183-223 | the setup date check accepts exactly the dates from now minus the age to now plus the skew, for every reading |
| `Freshness.FormsAgree` | crates/p2p/src/swarm/mod.rs:1514-1551 | at one reading past the epoch and without overflow, gossip, request/response, setup and DHT checks are that one window; DHT also refuses the largest date |
| `Freshness.AgreementIffNoOverflow` | crates/p2p/src/swarm/mod.rs:1524-1536 | gossip and setup accept the same dates for all dates if and only if now plus skew fits in 64 bits |
| `Freshness.DhtAgreementIffSinceEpoch` | crates/p2p/src/swarm/mod.rs:2708-2739 | DHT and gossip accept the same dates other than the largest if and only if the clock is past the epoch |
| `Freshness.DhtCheckIff` | crates/p2p/src/swarm/mod.rs:2708-2739 | with no proviso, the DHT check is the window past the epoch, without the largest date and cut off at the 64-bit sum of reading and skew |
| `Freshness.AllFormsAgreeIff` | crates/p2p/src/swarm/mod.rs:1514-1551 | gossip, request/response, setup and DHT checks accept the same dates (the largest aside for DHT) if and only if the clock is past the epoch and now plus skew fits in 64 bits |
| `Freshness.TwoReadings` | crates/p2p/src/swarm/mod.rs:2261-2325 | the two-reading request/response form is the window at the later reading, less the dates still in the future at the earlier one |
| `SignedMessages.SignedVerifies` | crates/p2p/src/swarm/message/signed.rs:32-52 | a message can be signed if and only if it serializes and the key signs the bytes; what a signer makes for its own key carries the message unchanged and verifies |
| `SignedMessages.AuthenticIff` | crates/p2p/src/swarm/message/signed.rs:32-52 | verification succeeds if and only if the message serializes and the signature is one of the claimed key over exactly those bytes |
| `Codec.Encode` | crates/p2p/src/swarm/setup/flexbuffers_codec.rs:34-41 | appends one frame with the length wrapped to 32 bits, or nothing when the item does not serialize |
| `Codec.Decode` | crates/p2p/src/swarm/setup/flexbuffers_codec.rs:51-89 | an oversized header is an error at once and the buffer stays, more bytes are asked for exactly when the frame is incomplete, and an item results exactly when a whole frame parses |
| `Codec.DecodeOutcome` | crates/p2p/src/swarm/setup/flexbuffers_codec.rs:52-88 | what becomes of any buffer, with header, limit and payload written out: which error, which item, and exactly which bytes are left |
| `Codec.HeaderIsU32` | crates/p2p/src/swarm/setup/flexbuffers_codec.rs:56-58 | the header is the number its four bytes say, most significant first |
| `Codec.U32RoundTrip` | crates/p2p/src/swarm/setup/flexbuffers_codec.rs:56-58 | the big-endian header reads back as the number written |
| `Codec.DrainSplit` | crates/p2p/src/swarm/setup/flexbuffers_codec.rs:51-89 | draining a prefix and feeding the rest later gives the items, first error and buffer of draining the whole |
| `Codec.ChunkIndependence` | crates/p2p/src/swarm/setup/flexbuffers_codec.rs:51-89 | every way of cutting a byte stream into chunks leads the reader to the same items, first error and buffer |
| `Codec.FrameRoundTripIffFits` | crates/p2p/src/swarm/setup/flexbuffers_codec.rs:62-69 | an encoded item followed by anything decodes to itself leaving exactly what follows, if and only if its serialized form is at most 1 MiB |
| `Codec.RoundTrip` | crates/p2p/src/swarm/setup/flexbuffers_codec.rs:34-89 | a sequence of items that fit decodes in order from its encoding, and trailing bytes are treated as a stream of their own |
| `Codec.RoundTripLeavesTrailing` | crates/p2p/src/swarm/setup/flexbuffers_codec.rs:34-89 | trailing bytes that form no frame yet are left exactly as they are |
| `Codec.StreamVerdict` | crates/p2p/src/swarm/setup/flexbuffers_codec.rs:51-89 | in any chunks, good frames in front of a stream are its items and what follows decides the end: an oversized header stops it at once, a frame that does not parse stops it after the header, a partial frame waits |
| `Codec.OversizedItemRefusedIff` | crates/p2p/src/swarm/setup/flexbuffers_codec.rs:34-41 | an item over the limit is encoded with its length modulo two to the 32 and is refused as too large if and only if that remainder is over the limit |
| `EventStack.Conservation` | crates/p2p/src/swarm/setup/behavior.rs:156-195 | over every interleaving of pushes and pops, events produced equal events delivered plus events still stacked, as multisets |
| `EventStack.LastInFirstOut` | crates/p2p/src/swarm/setup/behavior.rs:189-195 | until the stack falls below an event, the event stays on it with everything older and is not handed out; once on top again it is what the next pop hands out |
| `Setup.SetupHandler.Poll` | crates/p2p/src/swarm/setup/handler.rs:113-128 | hands out the newest pending event, else the outbound substream once, else nothing |
| `Setup.SetupHandler.OnFullyNegotiatedInbound` | crates/p2p/src/swarm/setup/handler.rs:137-232 | pushes the verdict on the message, checks in source order, and drops keep-alive |
| `Setup.SetupHandler.OnConnectionEvent` | crates/p2p/src/swarm/setup/handler.rs:132-256 | every connection event moves the handler by the specified push and keep-alive change |
| `Setup.AcceptedIff` | crates/p2p/src/swarm/setup/handler.rs:137-232 | a key is accepted if and only if its own signature covers the message, the message names both endpoints the right way round, and its date is in the window |
| `Setup.OutcomeIsReported` | crates/p2p/src/swarm/setup/handler.rs:132-256 | after any connection event the next poll hands out exactly what became of it, the first failing check for a refusal with the dates as plain inequalities, and what was pending before stays |
| `Setup.HandlerIsStack` | crates/p2p/src/swarm/setup/handler.rs:113-128 | over every interleaving, pending events and notifications are those of a stack |
| `Setup.HandlerConservation` | crates/p2p/src/swarm/setup/handler.rs:113-256 | events emitted by a handler equal those notified plus those pending |
| `Setup.OneSubstream` | crates/p2p/src/swarm/setup/handler.rs:121-125 | the outbound substream is requested at most once, for the upgrade the handler was built with, and only on an empty stack |
| `Setup.KeepAliveUntilSetup` | crates/p2p/src/swarm/setup/handler.rs:109-111 | over every run the handler keeps the connection alive if and only if no setup message and no failed outbound upgrade has arrived |
| `Setup.HonestArrival` | crates/p2p/src/swarm/setup/upgrade.rs:57-134 | however the bytes of an honest sender arrive, the receiver obtains the message that was sent, and it verifies |
| `Setup.HonestHandshake` | crates/p2p/src/swarm/setup/upgrade.rs:57-134 | what an honest node sends, in any chunking and within the window, makes the receiver's handler emit the sender's key and nothing else |
| `Setup.BadStreamIsReported` | crates/p2p/src/swarm/setup/upgrade.rs:57-70 | a stream that does not start with a good frame, in any chunks, fails the upgrade and is reported as an inbound error; an oversized frame as a codec error |
| `Setup.OutboundMessageIff` | crates/p2p/src/swarm/setup/upgrade.rs:103-117 | an outbound setup message is made if and only if its own content can be serialized and signed |
| `Registry.SetupBehaviour.OnConnectionClosed` | crates/p2p/src/swarm/setup/behavior.rs:142-154 | only the last close of a registered peer removes it and the key it held; events stay |
| `Registry.SetupBehaviour.OnConnectionHandlerEvent` | crates/p2p/src/swarm/setup/behavior.rs:156-187 | an accepted key is inserted both ways and every event is pushed |
| `Registry.SetupBehaviour.Poll` | crates/p2p/src/swarm/setup/behavior.rs:189-195 | pops the newest event |
| `Registry.TransportIdsHistory` | crates/p2p/src/swarm/setup/behavior.rs:142-171 | on every run the peer map holds k for p if and only if k is p's latest accepted key with no full close of p since |
| `Registry.AppPublicKeysHistory` | crates/p2p/src/swarm/setup/behavior.rs:142-171 | on every run the key map holds p for k if and only if p was the last to present k and no peer holding k has fully closed since |
| `Registry.KeyKeepsInverseIff` | crates/p2p/src/swarm/setup/behavior.rs:163-165 | accepting k for p keeps inverse maps inverse if and only if p has no other key and k no other peer |
| `Registry.CloseKeepsInverse` | crates/p2p/src/swarm/setup/behavior.rs:145-152 | closes keep inverse maps inverse |
| `Registry.AlwaysInverseIffConflictFree` | crates/p2p/src/swarm/setup/behavior.rs:142-171 | over a whole run the maps are inverse at every moment if and only if no presentation conflicts |
| `Registry.ConnectedKeys` | crates/p2p/src/swarm/mod.rs:1853-1870 | the answer holds exactly the keys registered for connected peers |
| `Registry.QueriesAgreeIffInverse` | crates/p2p/src/swarm/mod.rs:1820-1870 | `IsConnected` and `GetConnectedPeers` agree whoever is connected if and only if the maps are inverse |
| `Registry.SharedKeyLost` | crates/p2p/src/swarm/setup/behavior.rs:145-165 | two peers presenting one key and the first leaving: the second is registered and listed, yet the key is reported as not connected |
| `Byos.Provenance` | crates/p2p/src/swarm/setup/handler.rs:137-232 | in every reachable state, every key a connection carries towards the registry comes from a setup message accepted on that connection |
| `Byos.NodeRegistryIsReplay` | crates/p2p/src/swarm/setup/behavior.rs:142-187 | the registry of every node run is the replay of its accepted keys and closes, so the history and bijection theorems hold of node runs |
| `Byos.RegistryOrigin` | crates/p2p/src/swarm/setup/behavior.rs:156-171 | every registered key was registered at a step after which nothing gave the peer another key or fully disconnected it |
| `Byos.RegisteredIsConnected` | crates/p2p/src/swarm/setup/behavior.rs:142-154 | in every run every peer with a registered key has an open connection |
| `Byos.CloseUnregistersIffLast` | crates/p2p/src/swarm/setup/behavior.rs:142-154 | closing the last connection of a peer leaves it without a registered key, closing another one leaves the registry unchanged |
| `Byos.ReachedIsReported` | crates/p2p/src/swarm/setup/behavior.rs:156-195 | what reaches the behaviour updates the registry, and is handed out next with its peer and connection |
| `Byos.IdentityBinding` | crates/p2p/src/swarm/mod.rs:2201-2259 | every message delivered from p in any run is signed by an allowlisted key, which is the key of the last setup message that reached the registry for p with no full disconnect since; that message was signed by the key, named exactly p and this node, and was fresh |
| `Byos.AcceptedKeyIsRegistered` | crates/p2p/src/swarm/setup/behavior.rs:156-171 | an acceptable setup message on an open connection, once polled and passed on, registers its key both ways |
| `Byos.RequestDeliveredIff` | crates/p2p/src/swarm/mod.rs:2201-2329 | the inbound gate delivers a request, with its own payload, if and only if the claimed key signed it, it is addressed here, and key, protocol, version and date are admitted |
| `Byos.ResponseDeliveredIff` | crates/p2p/src/swarm/mod.rs:2401-2539 | the same for responses, which name no destination |
| `Byos.HonestPeerIsHeard` | crates/p2p/src/swarm/mod.rs:2201-2329 | an honest peer's setup bytes in any chunking on an open connection, then its signed request: the run delivers exactly the request's payload when its key is allowlisted and both dates are in the window |
| `Byos.HonestResponseIsHeard` | crates/p2p/src/swarm/mod.rs:2401-2539 | the same for a signed response |
| `Byos.BehaviourConservation` | crates/p2p/src/swarm/setup/behavior.rs:156-195 | over whole node runs, events that reached the behaviour equal those handed to the swarm plus those stacked |
| `Recency.LatestIsHistory` | crates/p2p/src/swarm/setup/handler.rs:137-232 | the last setup message accepted from p since its last full disconnect, defined on the run alone, is the one the history machine records |
| `Recency.HistoryInv` | crates/p2p/src/swarm/setup/handler.rs:113-232 | in every run each event under way stands at the position of the message that brought it, and the latest accepted message of every peer is in exactly one place: under way, lost, overtaken or registered |
| `Recency.RegisteredIsLatestIff` | crates/p2p/src/swarm/setup/behavior.rs:142-171 | in every run the registered key of p is that of an accepted message of p no newer than the latest, and of the latest if and only if the latest is not under way, not lost in a close and not overtaken |
| `Recency.IdentityIsLatestIff` | crates/p2p/src/swarm/mod.rs:2201-2259 | every delivered message is signed by the key of an accepted setup message of its peer, which is the most recent one if and only if that one is settled in this sense |
| `Recency.OrderlyRegistersLatest` | crates/p2p/src/swarm/setup/behavior.rs:142-171 | if messages of p are accepted and connections of p closed only while none carries a key, then whenever none does the registry holds exactly the key of the most recent accepted message, and nothing when there is none |
| `Recency.OrderlyIdentity` | crates/p2p/src/swarm/mod.rs:2201-2259 | in such runs a message delivered from p is signed by the key of the most recent accepted setup message of p |
| `Recency.ReversedByStack` | crates/p2p/src/swarm/setup/handler.rs:113-119 | two messages accepted on one connection before a poll leave the registry at the older one with nothing under way |
| `Recency.LostInClose` | crates/p2p/src/swarm/setup/behavior.rs:142-154 | a message accepted on a connection that closes before its key has left it leaves the registry at the older one |
| `Recency.OvertakenAcross` | crates/p2p/src/swarm/setup/behavior.rs:156-171 | messages accepted on two connections and delivered the other way round leave the registry at the older one |
| `Dialing.DialManager.PopNextAddr` | crates/p2p/src/swarm/dial_manager.rs:33-37 | takes the front of a queue; nothing for a missing or empty one |
| `Dialing.Dialer.DialAndMap` | crates/p2p/src/swarm/mod.rs:1002-1010 | records the attempt whether or not the swarm accepts the dial |
| `Dialing.Dialer.ConnectCommand` | crates/p2p/src/swarm/mod.rs:1629-1663 | ignores empty lists and keys being dialled, else dials and remembers an address that has quic in a tag if the list has one, and queues the rest |
| `Dialing.Dialer.OnConnectionEstablished` | crates/p2p/src/swarm/mod.rs:1236-1246 | drops queue and attempt of the connection's key |
| `Dialing.Dialer.OnOutgoingConnectionError` | crates/p2p/src/swarm/mod.rs:1270-1286 | drops the attempt and dials the next address, or drops the queue |
| `Dialing.QuicFirstIsStableSort` | crates/p2p/src/swarm/mod.rs:1651-1653 | the dial order is a permutation of the list, addresses with the letters quic in some tag first, each class in the caller's order |
| `Dialing.ContainsQuicIff` | crates/p2p/src/swarm/mod.rs:1651-1653 | the tag test holds if and only if the four letters stand somewhere in the tag |
| `Dialing.QuicDialledFirst` | crates/p2p/src/swarm/mod.rs:1629-1663 | a command dials at once if and only if the list is not empty and the key is free, then one of its own addresses, with quic in a tag if and only if the list has one |
| `Dialing.CouplingInvariant` | crates/p2p/src/swarm/mod.rs:1002-1010 | over every possible run outstanding attempts map one to one onto the keys being dialled, and none is orphaned if and only if no dial was ever refused |
| `Dialing.OrderInvariant` | crates/p2p/src/swarm/mod.rs:1270-1286 | over every possible run each command has dialled a prefix of its plan, with one failure before each retry, and the queues hold exactly the rest |
| `Dialing.ReachableDialing` | crates/p2p/src/swarm/dial_manager.rs:18-63 | both invariants hold in every state reachable from the start |
| `Dialing.AllFailedFreesKey` | crates/p2p/src/swarm/mod.rs:1278-1284 | a command is exhausted if and only if it failed as often as it has addresses, and then no longer holds its key |
| `Dialing.WorkStep` | crates/p2p/src/swarm/mod.rs:1270-1286 | the sum of queue length plus one drops by exactly one per failure, by a key's whole share on success, and grows only by an accepted command |
| `Dialing.FailuresBounded` | crates/p2p/src/swarm/mod.rs:1270-1286 | over every possible run, failures of own attempts plus the addresses still to try never exceed those at the start plus those of accepted commands |
| `Dialing.OrphanReachable` | crates/p2p/src/swarm/mod.rs:1002-1010 | a first command whose dial is refused leaves an attempt on record that no connection will ever end |
| `Dialing.OrphanBlocksKey` | crates/p2p/src/swarm/mod.rs:1006-1009 | after a refused dial, in every continuation the key stays queued and every connect command for it is ignored |
| `Penalties.PenaltyPeerStorage.IsGossipMuted` | crates/p2p/src/validator.rs:170-175 | true exactly while the gossip mute ends later than now |
| `Penalties.PenaltyPeerStorage.IsReqRespMuted` | crates/p2p/src/validator.rs:179-184 | true exactly while the request/response mute ends later than now |
| `Penalties.PenaltyPeerStorage.IsBanned` | crates/p2p/src/validator.rs:187-192 | true exactly while the ban ends later than now |
| `Penalties.PenaltyPeerStorage.MutePeerGossip` | crates/p2p/src/validator.rs:196-219 | extends an active mute to the later end, replaces an expired one, touches no other peer |
| `Penalties.PenaltyPeerStorage.MutePeerReqResp` | crates/p2p/src/validator.rs:223-247 | the same for request/response |
| `Penalties.PenaltyPeerStorage.BanPeer` | crates/p2p/src/validator.rs:250-270 | the same for bans |
| `Penalties.PenaltyPeerStorage.HasActive` | crates/p2p/src/validator.rs:296-317 | true exactly when some channel is active at its own reading |
| `Penalties.PenaltyPeerStorage.CollectOnClose` | crates/p2p/src/swarm/mod.rs:1321-1323 | forgets the peer only when nothing is active |
| `Penalties.PenaltyRefinement` | crates/p2p/src/validator.rs:170-322 | for every run with a clock that does not step back, every channel and every later time, the store answers as a reference that keeps every penalty since the last removal and never collects |
| `Penalties.CollectedIffIdle` | crates/p2p/src/validator.rs:296-322 | after any run a last close forgets the entry if and only if no penalty imposed and not lifted is still running, and otherwise keeps it whole |
| `Scoring.ScoreManager.UpdateLastScoringDecayTime` | crates/p2p/src/score_manager.rs:87-93 | sets the one decay time of a peer and returns the previous one |
| `Scoring.ScoringNode.GetAllScores` | crates/p2p/src/swarm/mod.rs:1156-1192 | application scores with zero as default |
| `Scoring.ScoringNode.GetElapsedDecayTime` | crates/p2p/src/swarm/mod.rs:2157-2166 | time since the last decay, zero at first and when the clock stepped back; the reading becomes the last decay |
| `Scoring.ScoringNode.ApplyPenalty` | crates/p2p/src/swarm/mod.rs:1099-1150 | the peer's entry moves by the penalty's store operations, no other peer moves |
| `Scoring.ScoringNode.RemovePenalty` | crates/p2p/src/swarm/mod.rs:1927-1954 | the same for lifting penalties |
| `Scoring.ScoringNode.HandleGossipMsg` | crates/p2p/src/swarm/mod.rs:1436-1622 | mute check, decay, charge, automatic mute and delivery of a gossip message; no other peer moves |
| `Scoring.ScoringNode.DecayRequestResponseScore` | crates/p2p/src/swarm/mod.rs:2169-2177 | decays the request/response score by the time on the shared clock |
| `Scoring.ScoringNode.HandleReqRespMsg` | crates/p2p/src/swarm/mod.rs:2195-2325 | the same sequence for requests and responses, with the age check last |
| `Scoring.ScoringNode.HandleGetPeerScore` | crates/p2p/src/swarm/mod.rs:1780-1810 | decays both scores by the same time and reports them |
| `Scoring.ScoringNode.HandleSetScore` | crates/p2p/src/swarm/mod.rs:1736-1774 | applies or lifts a penalty, then sets both scores to what the callback makes of them |
| `Scoring.ScoringNode.OnLastConnectionClosed` | crates/p2p/src/swarm/mod.rs:1314-1325 | forgets scores and decay time, and penalties if idle |
| `Scoring.GossipOutcome` | crates/p2p/src/swarm/mod.rs:1436-1605 | one gossip message with all numbers written out: no effect when muted, decay at 0.9 per second up to zero, cost one, delivered if and only if valid and at least -100 is left, else a gossip mute of 60 seconds and no other penalty |
| `Scoring.ReqRespOutcome` | crates/p2p/src/swarm/mod.rs:2195-2325 | the same for one request or response, which has no effect when invalid and is delivered only in time |
| `Scoring.QueryOutcome` | crates/p2p/src/swarm/mod.rs:1780-1810 | a query credits both scores with the same time and touches no penalty |
| `Scoring.PenaltyOutcome` | crates/p2p/src/swarm/mod.rs:1099-1150 | after a penalty command a channel is penalized at a later time if and only if it was, or the command names it and its duration, 30 days by default for bans, is not over |
| `Scoring.LiftOutcome` | crates/p2p/src/swarm/mod.rs:1927-1954 | a lift ends exactly the penalties it names |
| `Scoring.CallbackOutcome` | crates/p2p/src/swarm/mod.rs:1752-1772 | without penalty or lift a score command changes only the scores, to what the callback makes of them |
| `Scoring.CloseOutcome` | crates/p2p/src/swarm/mod.rs:1314-1325 | the last close leaves a peer as new, but for an entry in which some penalty is still running |
| `RateLimit.PeersIndependent` | crates/p2p/src/swarm/mod.rs:1428-1624 | the run of a node with many peers, seen at one peer, is the run of that peer's own events |
| `RateLimit.RateBound` | crates/p2p/src/validator.rs:125-158 | in any stretch without score command or last close, deliveries of each protocol are at most 100 + 0.9 per second; without query both together at most 200 + 0.9 per second |
| `RateLimit.BurstTight` | crates/p2p/src/validator.rs:127-150 | of any burst from a new peer exactly the first 100 messages are delivered |
| `RateLimit.ReqRespBurstTight` | crates/p2p/src/validator.rs:127-150 | of any mixture of requests and responses from a new peer at one instant exactly the first 100 are delivered, and the next mutes that protocol alone for 60 seconds |
| `ScoreRange.DecayInRange` | crates/p2p/src/validator.rs:152-157 | on either protocol the first decay after a mute brings the score to at least -47 |
| `ScoreRange.ScoreStaysInRange` | crates/p2p/src/swarm/mod.rs:1436-1605 | the score of a peer that uses one protocol only, either one, without score commands stays in [-101, 0] over every run, below -100 only under a mute still to be served |
| `ScoreRange.LeavesRangeIff` | crates/p2p/src/swarm/mod.rs:1555-1605 | from a score in [-101, 0] on either protocol any event but a score command leads below -101 if and only if it is a valid message there of an unmuted peer whose score plus due decay is below -100 |
| `ScoreRange.InRangeIffNeverOverdrawn` | crates/p2p/src/swarm/mod.rs:1436-1605 | whatever the traffic, without score commands the score on either protocol is in [-101, 0] at every moment of a run if and only if no message of it met that guard |
| `ScoreRange.SharedClockLeavesRange` | crates/p2p/src/score_manager.rs:32-37 | for either protocol and every n some run with a forward clock and without score commands brings its score to exactly -101 - n |
| `ScoreRange.MutesFarApart` | crates/p2p/src/swarm/mod.rs:1583-1604 | between two automatic mutes of a peer that uses one protocol only at least 53 of its messages pass |
| `ScoreRange.PassedIsDelivered` | crates/p2p/src/swarm/mod.rs:2310-2329 | messages that pass are delivered, for requests and responses when they are in time |
| `ScoreRange.NodePenaltiesRefineHistory` | crates/p2p/src/swarm/mod.rs:1099-1150 | in every run of messages, commands, queries and closes, mutes and bans are what the full history of penalties says |
| `Dht.DhtNode.ValidateRecordDate` | crates/p2p/src/swarm/mod.rs:2708-2739 | accepts exactly what the DHT date check accepts |
| `Dht.DhtNode.OnPutRequest` | crates/p2p/src/swarm/mod.rs:2745-2865 | the store changes only for a record that parses, is signed by the key it is filed under, is dated in the window, newer than the stored one and accepted by the store; such a record under a free key is stored |
| `Dht.DhtNode.OnFoundRecord` | crates/p2p/src/swarm/mod.rs:2872-2949 | adds to its open query exactly a record that parses, is signed by the key it is filed under and is dated in the window |
| `Dht.DhtNode.FinishLookingForDhtRecord` | crates/p2p/src/swarm/mod.rs:2672-2705 | answers and removes an open query, does nothing otherwise |
| `Dht.MaxByDate` | crates/p2p/src/swarm/mod.rs:2687-2689 | picks the last of the records of greatest date |
| `Dht.LastWriterWins` | crates/p2p/src/swarm/mod.rs:2829-2859 | over every run a key is stored if and only if an admissible record arrived since its removal, and the stored value is the first-arrived of greatest date |
| `Dht.SoundIffGenuine` | crates/p2p/src/swarm/mod.rs:2762-2827 | the checks on a record are parsing, own key, own signature over exactly its content, and date in the window past the epoch, for all inputs |
| `Dht.StoredIsNewestPut` | crates/p2p/src/swarm/mod.rs:2745-2865 | told by the run alone, a key is stored if and only if a genuine record was put for it since its removal, and the value is that of the newest such put, the first of equal dates |
| `Dht.DatesIncrease` | crates/p2p/src/swarm/mod.rs:2839-2848 | over every stretch of a run without removal of the key, it stays stored, its date never falls, and the date is strictly later whenever the value is another one |
| `Dht.ReplicasAgree` | crates/p2p/src/swarm/mod.rs:2829-2859 | replicas that admitted the same records, in any order and however often, both hold the key or both do not, and hold the same date |
| `Dht.OneAnswerPerAsk` | crates/p2p/src/swarm/mod.rs:2672-2705 | answers plus the open query never exceed the asks of an id, so a fresh id is answered at most once |
| `Dht.AnswerContent` | crates/p2p/src/swarm/mod.rs:2872-2957 | finishing an open query answers None if and only if no valid record arrived, else with the last-arrived record of greatest date |
| `Dht.AnswerIsNewestFound` | crates/p2p/src/swarm/mod.rs:2872-2957 | told by the run alone, an open query is answered None if and only if no genuine record was found for it, else with the addresses of the newest, the last of equal dates |
| `Dht.LateEventsIgnored` | crates/p2p/src/swarm/mod.rs:2876-2881 | after the finish, records and finishes of the query change and answer nothing |
| `Republish.Republisher.OnRoutingUpdated` | crates/p2p/src/swarm/mod.rs:2997-3018 | only the first routing update issues a token |
| `Republish.Republisher.AskPutRecord` | crates/p2p/src/swarm/mod.rs:2625-2669 | a message becomes a put query, or vanishes when signing or the local put fails |
| `Republish.RepublishToken` | crates/p2p/src/swarm/mod.rs:1079-1083 | messages, timers and own puts total at most one in every run, so the channel never fills, and exactly one if and only if routing was updated and every put was signed and stored |
| `Republish.Flow` | crates/p2p/src/swarm/mod.rs:2958-3018 | over every possible run put queries start from messages signed and stored, timers from results, and messages enter the channel only from timers and one routing update |
| `Republish.FailureIsFinal` | crates/p2p/src/swarm/mod.rs:2643-2666 | after a failed put no put is ever attempted again |

## Left out

- Scores are `real` and times are `real` seconds: f64 rounding and nanosecond resolution are not modelled, nor the overflow of adding a duration to a system time.
- A clock that steps back is modelled in `GetElapsedDecayTime`, but the run theorems about penalties and scores assume it does not.
- Addition of the skew wraps as in a build without overflow checks; with overflow checks the source stops instead.
- The node's own DHT record, which libp2p puts into the local store without these checks, is not among the store events, so the store theorems are about keys other than the node's own.
- Scoring.ScoringNode.GetAllScores: the gossipsub internal score, which libp2p computes and the default validator ignores, is not reported.
- Scoring.ScoringNode.ApplyPenalty: the disconnect that follows a ban is not modelled; it reaches the model as a later close of the connection.
- Scoring.ScoringNode.HandleGossipMsg: whether the message passes the signature, date, protocol and version checks is one input flag; the date check itself is in `Freshness.dfy`.
- Scoring.ScoringNode.HandleReqRespMsg: whether the message passes its checks, and whether it is too old, are input flags; the date check itself is in `Freshness.dfy`.
- Dht.LastWriterWins: whether the store accepts a record for size is an input of each put, and a record refused for size does not count as arrived.
- Record fields other than key and value, and the split of deserialization errors by cause outside the codec.
- Channel sends to the application, their timeouts, and the answer sent back to a request.
- `DisconnectFromPeer`, disconnects after bans, failed handshakes and unsupported protocols, and the ban check on connect: single-branch calls into the swarm.
- libp2p itself: swarm, gossipsub mesh and its internal score, Kademlia routing, connection and memory limits, transport allowlist.
- Swarm construction, transports, `establish_connections`, handles, command and event channels, `codec_raw`: they pass values on and decide nothing that the modelled state machines depend on.
- Custom validators: the score theorems are about the default one, and score callbacks are arbitrary functions excluded from the bounds.
