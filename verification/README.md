# V3 Node: a verified model

V3 Node joins an EVM peer-to-peer network, keeps a table of live peers, fetches receipts from them in turn, decodes
Uniswap V3 pool calls and stores decoded events. This project models two parts of it in Dafny and proves what they do.

**The peer manager** (`src/network/manager.rs`, `src/network/peer.rs`). `PeerManager` is a single-task actor. It handles
one network event or one command at a time; it keeps a map of live peers and a round-robin cursor, broadcasts an event
whenever the set of peers changes, and answers each command on the command's own reply channel.

- `ManagerModel` gives the meaning of every step as a function on states. The untargeted fetch is defined without the
  loop: rotate the key order to the cursor, take the first peer that answers, evict the peers before it whose send queue
  refused the request.
- `Manager.PeerManager` is the actor as a class whose methods update fields in place, with the scanning loop, the early
  return and the deferred removals. Each method is proved to take exactly the model's step.
- `FetchScan`, `EventLog`, `EventCauses`, `Fairness`, `ChurnBound`, `CursorDrift` and `CommandService` prove what those steps mean: for
  one fetch, and over every run from the empty state. `OpenRuns` holds the runs from which their examples start.

What the surroundings decide is a parameter: the order in which the hash map lists its keys (any permutation of them, at
every command), what each session does with a request (refuse it, drop the reply channel, answer with an error, answer),
the clock at session opening, and the interleaving of events and commands. Channels are sequences; a send is an append.

**The codecs** (`src/pool/decoder.rs`, `src/db/models.rs`, `src/network/upgrade.rs`): the calldata decoder, the row
constructors with their text and integer columns, and the BSC upgrade message.

## Where the code does less than it says

Each of these is proved with its exact condition and a concrete input.

- *Round-robin loses turns when peers leave.* The cursor is set against the key snapshot and the key list then
  shortens under it. After a fetch, the next one goes through the survivors in turn exactly when the number of evicted
  peers standing before the new cursor is a multiple of the number of survivors (`CursorDrift.TurnKeptIff`); after a
  session closes, with the cursor inside the key order, exactly when that peer did not stand before the cursor or only
  one is left (`CursorDrift.CloseKeepsTurnIff`, which also covers a cursor left beyond the end). In a run that opens
  four sessions and fetches twice, the first peer gone, the third is skipped (`CursorDrift.LostTurn`).
- *So fairness is weaker under churn.* Over fixed members a peer that answers serves one of any n untargeted fetches.
  With peers leaving it serves one of any n(n-1)/2 + 1 (`Fairness.BoundedWaitUnderChurn`), and for every n there is a
  reachable state and a run from it in which n(n-1)/2 fetches all pass it over (`ChurnBound.Attained`).
- *The swap decoder does not read the ABI arguments its comments name* (`src/pool/decoder.rs:34` and `:42`). On an
  ABI-encoded call it returns the recipient's last byte as the direction and the direction flag as the amount
  (`Decoder.AbiSwapDecoded`); it is right exactly under the two coincidences of `Decoder.AbiSwapRecoveredIff`, and
  `Decoder.AbiSwapMisread` is a call it gets wrong.
- *`UpgradeStatus::decode` rejects everything `into_rlpx` writes*, because it skips one byte that `encode` never writes
  (`Upgrade.UnframedRejected`). It accepts exactly the framing with one byte between the id and the extension
  (`Upgrade.DecodesExactlyFramed`), and it panics on exactly one input, the id alone (`Upgrade.PanicsOnlyOnBareId`).
- *Block numbers and timestamps of 2^63 and above, and log indexes of 2^31 and above, are stored as negative
  integers*, so stored order is their order exactly on one side of that bound (`Models.StoredOrder`,
  `Models.StoredLogOrder`); 2^63 is stored below 2^63 - 1, and 2^31 below 2^31 - 1 (`Models.StoredOutOfOrder`).

## Model

| member | source | states |
|---|---|---|
| Manager.PeerManager.constructor | src/network/manager.rs:170-188 | a new manager has no peers, cursor 0 and nothing sent, and satisfies the run invariant |
| Manager.PeerManager.RunLoop | src/network/manager.rs:197-220 | the loop handles the inputs up to the first end of either stream, one at a time in arrival order, and keeps the invariant that the events sent rebuild the peer map |
| ManagerModel.StopsAtFirstEnd | src/network/manager.rs:201-217 | the inputs handled are exactly those before the first end of either stream |
| Manager.PeerManager.HandleNetworkEvent | src/network/manager.rs:224-244 | opening inserts or replaces and announces; closing or removing a live peer removes and announces it; a redundant close changes nothing |
| Manager.PeerManager.OnPeerConnected | src/network/manager.rs:246-257 | the new session replaces any old one under its id and is announced with its info |
| Manager.PeerManager.OnPeerRemoved | src/network/manager.rs:259-266 | removes a present peer and announces the info it had; presence is what the unwrap demands of callers |
| Manager.PeerManager.HandleCommand | src/network/manager.rs:270-284 | exactly one reply, on the command's channel, carrying the fetch result or the infos in key order |
| Manager.PeerManager.DoFetchReceipts | src/network/manager.rs:288-301 | empty map, targeted and untargeted fetch: new state and result are the model's |
| Manager.PeerManager.FetchFromAny | src/network/manager.rs:303-345 | the scanning loop with early return and deferred evictions refines the loop-free fetch |
| Manager.PeerManager.EvictEach | src/network/manager.rs:319-321 | the one-by-one removals through the unwrapping routine come to one bulk removal with one event each, in order |
| Cyclic.WrapIsRemainder | src/network/manager.rs:306-318 | the cursor arithmetic of the model is the remainder the code takes |
| Cyclic.RotateIsOrder | src/network/manager.rs:311-313 | the modular scan index is injective: a scan from any cursor visits every key exactly once |
| FetchScan.ScanPlaces | src/network/manager.rs:306-313 | the k-th peer asked stands k places behind the cursor, modulo the key count |
| FetchScan.FetchOutcome | src/network/manager.rs:311-344 | the fetch succeeds exactly when some peer would respond, returns the receipts that the first to respond in cyclic order delivered, block by block, and otherwise the last peer's own failure |
| FetchScan.FetchIsRightful | src/network/manager.rs:288-345 | for every target and state exactly one result is right, told by what the peers' channels deliver, and the fetch returns it: the target's own response, the absent target's disconnect, the first response, or the zero id's disconnect |
| FetchScan.CursorPassesServer | src/network/manager.rs:306-318 | the cursor ends in range of the snapshot: just past the server's place, or merely normalised on total failure |
| FetchScan.FetchEvictions | src/network/manager.rs:331-342 | a peer leaves exactly when it was asked before the stop and its request was never enqueued; all others stay unaltered, nobody is added |
| FetchScan.FetchContacts | src/network/manager.rs:311-316 | however stale the cursor, each peer is asked at most once, through its own session, in its own version, for the hashes given, and nobody past the server |
| FetchScan.RemovalPanics | src/network/manager.rs:259-266 | a list of sequential removals panics exactly when an id is absent or repeated, and otherwise equals the bulk removal |
| FetchScan.FetchNeverPanics | src/network/manager.rs:308-342 | the deferred removals of any fetch, from any state, never unwrap an absent peer |
| Peers.ResponseDecides | src/network/peer.rs:101-175 | for every version, a result is the fetch's exactly when it is what that version's own channel says: the refused send, the dropped reply and the error reply by name and peer, a delivery by its receipts in place and number, blooms dropped |
| Peers.FetchErrors | src/network/peer.rs:101-175 | a failed request names its peer, and reads Disconnected exactly when the send queue refused it |
| Peers.VersionIndependence | src/network/peer.rs:126-172 | results over any two protocol versions are equal exactly when the receipts agree in block order, receipt order and counts; blooms are erased |
| EventLog.LogRebuildsPeers | src/network/manager.rs:224-342 | at every point of every run, replaying the events sent rebuilds exactly the live peers' infos, keys equal stored ids, and every disconnect fits |
| EventLog.StepKeepsInv | src/network/manager.rs:197-284 | that invariant is kept by every event and every command |
| EventLog.Conservation | src/network/manager.rs:246-266 | over every run and for every id, fresh connects minus disconnects is 1 if present and 0 otherwise; in total it is the peer count |
| EventLog.DisconnectAnswersConnect | src/network/manager.rs:251-264 | a disconnect carries the info of an earlier connect with no event of that peer between |
| EventLog.ReconnectBetween | src/network/manager.rs:246-266 | between two disconnects of one peer there is a connect of it |
| EventCauses.InputAnnounced | src/network/manager.rs:224-266 | over every run, each input adds exactly its events at its place in the log: a session opened one connect with its fields, a close of a live peer one disconnect with its reason, a removal one without, a fetch one without per evicted peer in the order asked, anything else none |
| EventCauses.EventCause | src/network/manager.rs:224-342 | over every run, each event stems from an input: a connect from the opening with its fields, a disconnect with a reason from the close with that reason, one without from a close, a removal or a fetch |
| EventLog.LiveSessionIsLatest | src/network/manager.rs:246-257 | a live peer, sender included, is the one its latest session brought, and that session was never closed |
| EventLog.SnapshotMatchesLog | src/network/manager.rs:280-282 | a ConnectedPeers reply lists each entry of the replayed log once and nothing else, and changes only the replies |
| EventLog.TargetedIsLocal | src/network/manager.rs:293-301 | a targeted fetch asks its target alone, returns what the target says, changes neither map, cursor nor log, and blames the target (the zero id when no peer is left) |
| EventLog.TotalFailureNamesLast | src/network/manager.rs:324-344 | when every peer fails, the error names the last peer in cyclic order |
| Fairness.ServerAnswers | src/network/manager.rs:317-322 | the peer said to serve a fetch is live and responds, and the caller is sent the receipts it delivered |
| Fairness.CalmProgress | src/network/manager.rs:304-318 | while nobody leaves, every untargeted fetch not served by a peer that answers brings the cursor strictly nearer to it, and no other step moves it |
| Fairness.BoundedWait | src/network/manager.rs:304-318 | over n fixed members, a peer that always answers serves one of any n untargeted fetches, whatever the others and the interleaved events do |
| Fairness.BoundedWaitUnderChurn | src/network/manager.rs:304-342 | with peers leaving by eviction or close and none joining, it serves one of any n(n-1)/2 + 1 |
| ChurnBound.Attained | src/network/manager.rs:304-318 | for every n a reachable state with n peers and a run from it with n(n-1)/2 untargeted fetches, none served by a peer that always answers: the bound is exact |
| Fairness.ExactShare | src/network/manager.rs:306-318 | of m fetches each answered at the first peer asked, a peer standing d places behind the cursor serves (m+n-1-d)/n, so the bound n of BoundedWait is tight |
| Fairness.LoadBalance | src/network/manager.rs:306-318 | so every peer serves floor(m/n) or ceil(m/n) of them |
| Fairness.Shrinking | src/network/manager.rs:293-344 | without new peers, evicting fetches number at most the peers lost, and an emptied map changes and asks nothing |
| Fairness.EmptyMapServesNobody | src/network/manager.rs:293-295 | from an empty map every fetch fails with the default id and every snapshot is empty, until a peer joins |
| CursorDrift.TurnKeptIff | src/network/manager.rs:318-320 | the fetch after a fetch goes through the survivors in turn exactly when the evicted peers standing before the new cursor are a multiple of the survivors, all read off the first fetch's inputs |
| CursorDrift.CloseKeepsTurnIff | src/network/manager.rs:230-265 | the same after a session closes, with the closed peer's place and the cursor as the condition |
| CursorDrift.ResumesInTurn | src/network/manager.rs:304-313 | the condition behind both, for any state that has lost some of the peers of a key order |
| CursorDrift.LostTurn | src/network/manager.rs:318-320 | a run of four openings and two fetches: the second peer serves the first fetch and the fourth the next, though the third is live, answers and was next |
| CommandService.OneReplyEach | src/network/manager.rs:210-284 | every handled command gets one reply, on its channel and of its kind, in arrival order, under any interleaving |
| CommandService.OwnReply | src/network/manager.rs:270-284 | with one channel per command, a handled command's caller receives exactly the reply computed at its own step |
| CommandService.Unanswered | src/network/manager.rs:201-219 | a command still queued when the loop ends receives nothing |
| CommandService.CallersSeeTheirTurn | src/network/manager.rs:99-152 | each handle method returns the result of the state at its command's turn: what the target said, the first response or the last peer's failure, the replayed log's entries each once for connected_peers, their number for peer_count |
| CommandService.CallersSeeTheEnd | src/network/manager.rs:99-152 | a command never handled fails with the dropped-channel error if it was queued and with the closed-manager error if the send failed, for each handle method |
| CommandService.ErrorsTellCause | src/network/manager.rs:99-147 | over every run: manager gone exactly when the send failed, reply dropped exactly when queued and never handled; the targeted fetch reads Disconnected exactly when the send failed, or it was handled with the peer absent or its queue refusing |
| Decoder.SelectorDecides | src/pool/decoder.rs:18-54 | the first four bytes alone decide the kind of call, an unknown selector gives them back, fewer than four decode to nothing, and a swap shorter than 68 bytes reads as a zero swap |
| Decoder.AmountIsTruncatedWord | src/pool/decoder.rs:29-48 | for selector-matching input of at least 68 bytes the amount is congruent modulo 2^128 to the signed word at bytes 36..68, and equal to it exactly when it fits in 128 bits |
| Decoder.WordIsSigned | src/pool/decoder.rs:42-48 | the word it is compared with is the two's complement reading of bytes 36..68 |
| Decoder.OnlyTheHeadMatters | src/pool/decoder.rs:24-55 | nothing past byte 68 affects the result |
| Decoder.AbiSwapDecoded | src/pool/decoder.rs:32-48 | what the decoder makes of any complete ABI-encoded swap call |
| Decoder.AbiSwapRecoveredIff | src/pool/decoder.rs:32-48 | it recovers the call's arguments exactly under two coincidences |
| Decoder.AbiSwapMisread | src/pool/decoder.rs:41-44 | a concrete complete call whose direction and amount are both misread |
| Models.HexText | src/db/models.rs:29-45 | the hex texts digit by digit, lower case behind 0x |
| Models.DecimalText | src/db/models.rs:38-40 | the decimal texts digit by digit, with a minus sign for a negative number |
| Models.U256HexLossless | src/db/models.rs:30-32 | hex storage of a U256 reads back to it, and no other canonical text does |
| Models.U128HexLossless | src/db/models.rs:43-45 | likewise for u128 |
| Models.I128StrLossless | src/db/models.rs:38-40 | signed decimal storage is a bijection onto the canonical texts over the whole i128 range, minimum included |
| Models.StoredOrder | src/db/models.rs:129-130 | the wrapping cast keeps block order exactly on one side of 2^63 and the number itself exactly below it |
| Models.StoredLogOrder | src/db/models.rs:132 | likewise log indexes, at 2^31 |
| Models.StoredOutOfOrder | src/db/models.rs:129-132 | the first numbers stored below their predecessors |
| Models.CastKeepsBits | src/db/models.rs:129-132 | each stored integer is signed and congruent to its number modulo 2^64, or 2^32 |
| Models.SwapRowReadsBack | src/db/models.rs:113-141 | every column of a swap row reads back to the event field it stands for |
| Models.LiquidityRowReadsBack | src/db/models.rs:268-298 | every column of a liquidity row reads back to the event field it stands for |
| Models.SwapRowInjectiveIff | src/db/models.rs:113-141 | a swap row determines its decoded event exactly when the address and hash texts are injective |
| Models.LiquidityRowInjectiveIff | src/db/models.rs:268-298 | likewise for liquidity rows, kind and optional sender included |
| Models.KindLossless | src/db/models.rs:158-172 | from_str accepts exactly the two column strings and inverts as_str |
| Upgrade.ExtensionRoundTrip | src/network/upgrade.rs:48-54 | the one-boolean list decodes to a value and a rest exactly when the input is its encoding followed by the rest |
| Upgrade.MessageBytes | src/network/upgrade.rs:7-23 | the encoded message is the bytes 0x0b, 0xc1 and the flag byte |
| Upgrade.AcceptsExactlyBytes | src/network/upgrade.rs:26-34 | decoding accepts exactly 0x0b, any one byte, 0xc1, the flag byte and any tail |
| Upgrade.WrongIdRejected | src/network/upgrade.rs:27-30 | any other id, whatever follows, is rejected by name |
| Upgrade.DecodesExactlyFramed | src/network/upgrade.rs:26-34 | id, any one byte, extension and any tail decode to that extension and leave exactly the tail; nothing else does |
| Upgrade.UnframedRejected | src/network/upgrade.rs:18-43 | what encode writes, with any tail, is always rejected by decode |
| Upgrade.PanicsOnlyOnBareId | src/network/upgrade.rs:27-31 | decode panics on exactly one input |
| Upgrade.EncodeInto | src/network/upgrade.rs:19-22 | appends exactly those three bytes to the output buffer |
| Upgrade.DecodeFrom | src/network/upgrade.rs:26-34 | advances the input in place past exactly the message on success and past exactly the id on a wrong id; fails as the model does |
| Upgrade.IntoRlpx | src/network/upgrade.rs:39-43 | the bytes written are those three, and are rejected by decode before any tail |

## Left out

- Liveness of a contact: awaiting a reply that never comes blocks the loop; every theorem assumes each contact returns.
- Time inside one fetch: a session's conduct is fixed per command, which is fully general because a command asks each peer at most once.
- Broadcast lag, dropped receivers and the bounded command channel: an event sent counts as delivered, a reply sent counts as received, and a full command queue is just a later arrival.
- Hash map order: any permutation per command (`Cyclic.OrderExists` shows there always is one, so the runs quantified over exist). `Fairness` takes it as fixed while the key set is, and `CursorDrift` takes removal to leave the other keys in order; both are properties of the standard map, not of this code.
- Machine width of the cursor: it stays below twice the peer count, which no memory can bring near the width of usize, so it is unbounded here.
- `Peer` accessors, `peer_info` and `event_tx`: they only return a field; `NewBlock` is declared but the manager never sends it, which `EventLog.Honest` includes.
- Error texts: errors are modelled by cause and peer; the strings of `AppError` and `PeerError` are not.
- The number of blocks returned: a peer may return fewer or more than were asked for, and the code does not check it.
- Address and hash text forms, and the calldata's pool matching on them: the printing library is not part of this model; the row theorems take its output as a parameter.
- RLP library: modelled from Appendix B of the Yellow Paper with canonical decoding; its source is not part of this model.
- Upgrade.DecodeFrom: where the input stands after the library fails, on the id or inside the extension, is left open up to being a suffix of what it was given, because that is the library's choice.
- `LiquidityChangeKind::sign`, the net-liquidity query, the schema, the chain specification, the handshake, start-up, configuration and the printing node: they would add only easy members or are library wiring.
