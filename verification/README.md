# A verified model of the messenger's cryptographic sessions, signaling rooms and caches

This Dafny project models the parts of the messenger in which many steps have to fit together,
and proves what they keep over whole runs.

* **Ratchet sessions.** `SymbolicCrypto` gives keys as terms: two terms are equal exactly when the
  program would compute the same bytes by the same calls, X25519 in canonical order, AES-GCM as a
  sealed triple of key, associated data and plaintext. On top of it stand the key agreement
  (`X3dh`), the symmetric ratchet (`DoubleRatchet`), the session with its Diffie-Hellman ratchet and
  out-of-order receipt (`Session`), the bounded store of skipped keys (`SkippedKeys`), group sender
  keys (`SenderKeys`) and per-device fan-out (`FanOut`). `OutOfOrder` and `AnyOrder` prove safety and
  completeness of receipt in any order, `AnyPayload` what is left of that when damaged, foreign or
  misnamed payloads arrive in between, `Agreement` that two independent sessions stay in step for any
  number of turns and never use a key twice. The public standards are Signal's "The Double Ratchet
  Algorithm", sections 2.2, 2.3 and 3.5, and "The X3DH Key Agreement Protocol", section 3.3.
* **Signaling rooms.** `Membership` is the server as a state machine whose steps are the stretches of
  handler code between two sends; any connection's step may come next. `MembershipProofs` proves
  what every interleaving keeps, `Requests` who is told what by each request and that nobody else is,
  `RelayProofs` who stands behind a relayed frame. `Rooms` holds the
  server's objects, and `SignalingObjects` proves that their methods move the objects exactly as each
  step moves the state. `Broadcasts` and `Delivery` are the layer below: broadcasts that wait in one
  gather while direct frames overtake them. `ClientView` holds the client's object, `Protocol` the
  envelope conversions, `Reconnect` the client's backoff loop, `Supervision` who looks after the connection.
* **Stateful components.** `EmbeddingCache` (least recently used, with callers interleaving between
  two lock sections), `RateLimiting` (a window that forgets), `MessagesCache` (two tables and
  cursor paging), `ChatScroll` (the chat view's own way up through it), `Sfu` and `SfuRooms`
  (connections of the forwarding rooms), `Usage` and `UsageFigures` (ring buffer and group sums).
* **Arithmetic and formats.** `CoordTransform` (mouse mapping in exact rationals), `Base64`
  (RFC 4648 sections 4 and 5), `PasswordHash` and `Backup`.

Where a promised property does not hold of every input, the code is kept as it is and the exact
condition is proved, in both directions: the members whose name ends in `Iff`, and
`JoinNeedsUnusedId` and `LeaveMustNameSelf`. Beside the less obvious ones a lemma gives an input that
fails.

Clock readings, generated key pairs, salts, nonces, connection outcomes and the answers of foreign
libraries are parameters. `dafny verify dfyconfig.toml` checks the whole project.

Places where the code and its own description differ, and the model follows the code:

* app/db/messages_cache.py:142 calls the indexed minimum the cursor for loading older messages. Used
  as a cursor it lists nothing but rows without a server id (`MessagesCache.IndexedCursorEmptyIff`).
* app/ui/_chat_helper_mixin.py:66-67 speaks of the least displayed id as the cursor, against repeated rows.
  The first load passes no ids on (:142-147), so the first cursor is the indexed minimum: with an exact
  index scrolling loads nothing beyond the first hundred rows but the row with id 0, again and again
  (`ChatScroll.WholeRoomIff`, `ChatScroll.RepeatsIff`), and a stale index repeats rows
  (`ChatScroll.StaleIndexRepeatsIff`).
* app/db/messages_cache.py:177 speaks of tracking the bounds with every insert. The row is committed
  before the bounds are written, so closing the connection can lose them (`MessagesCache.IndexExactIff`).
* app/crypto/skipped_keys.py:108 speaks of one use for each stored key. A refused payload ahead of the
  chain stores keys that the chain will derive again (`AnyPayload.UsedOnceIff`).
* app/db/messages_cache.py:106 describes the cursor as the way to older messages. With timestamps out
  of step with the ids some are never listed (`MessagesCache.ScrollCompleteIff`).
* app/net/signaling_client.py:158-159 promises reconnection until `disconnect`. A socket dropped while
  the re-JOIN is being sent is not restored (`Supervision.AlwaysTendedIff`).
* app/net/signaling_client.py:477 speaks of a capped backoff, but the first sleep is the base delay
  uncapped (`Reconnect.BackoffIff`).

## Model

| member | source | states |
|---|---|---|
| DoubleRatchet.MessageKeysDistinct | app/crypto/double_ratchet.py:63-95 | two positions of a chain share a message key exactly when they are the same position |
| DoubleRatchet.MessageKeyIsNoChainKey | app/crypto/double_ratchet.py:63-82 | a message key is never a key of the chain, whatever the positions |
| DoubleRatchet.EncryptAllSeals | app/crypto/double_ratchet.py:103-119 | encrypting a list seals message n under the key n steps along the chain and ends that many steps on |
| DoubleRatchet.StepsCompose | app/crypto/double_ratchet.py:74-95 | walking a chain a steps and then b is walking it a + b steps |
| X3dh.AgreementIffSamePrekey | app/crypto/x3dh.py:68-186 | initiator and responder derive the same secret exactly when they agree on the one-time prekey, present or absent |
| X3dh.OnlyTheOwnerAgrees | app/crypto/x3dh.py:117-184 | the responder gets the initiator's secret exactly with the private halves of all three published keys |
| X3dh.OnlyTheSenderAgrees | app/crypto/x3dh.py:117-184 | and exactly from the identity key and the ephemeral key the initiator used |
| SkippedKeys.SkippedKeyStore.PutKey | app/crypto/skipped_keys.py:56-88 | a negative counter is refused; otherwise the key becomes the most recent item and the oldest ones go until the bound holds |
| SkippedKeys.PutKeeps | app/crypto/skipped_keys.py:75-88 | after a put the new key is found, the bound holds, nothing else is new, and below the bound nothing is lost |
| SkippedKeys.PutKeepsLatestIff | app/crypto/skipped_keys.py:83-88 | an earlier item survives a put exactly when fewer than the bound less one stand behind it, so the oldest go first |
| SkippedKeys.PutKeepsOrder | app/crypto/skipped_keys.py:83-88 | survivors stand in the order they stood, the new item is the most recent |
| SkippedKeys.SkippedKeyStore.GetKey | app/crypto/skipped_keys.py:90-110 | a lookup hands the key out only up to its deadline and takes the item out either way |
| SkippedKeys.WithoutFind | app/crypto/skipped_keys.py:97-110 | taking one item out hides that item and no other |
| SkippedKeys.SkippedKeyStore.Expire | app/crypto/skipped_keys.py:112-125 | the loop leaves exactly the items not past their deadline, in order, and returns how many went |
| SkippedKeys.DropFirstExpired | app/crypto/skipped_keys.py:122-124 | each deletion of the loop takes one item off the expired ones and none of the others |
| SkippedKeys.UnexpiredKeepsOrder | app/crypto/skipped_keys.py:112-125 | what is left after expiry stands in the order it stood in |
| Session.SkipForwardChainKeys | app/crypto/session.py:44-88 | refuses targets behind the chain or over 100 ahead without touching the store; otherwise walks to the target and files every key passed |
| Session.DecryptWithSessionOoo | app/crypto/session.py:340-408 | the method refines one step of the receiver: lookup, refusal, skip, decryption, with the store and chain each leaves behind |
| OutOfOrder.FileSkippedIsEvict | app/crypto/session.py:80-88 | the loop that files key after key under the bound equals one append and one trim from the old end |
| OutOfOrder.DeliverStep | app/crypto/session.py:377-408 | one delivery of a genuine payload: exactly when it is accepted, what it returns, and the invariant either way |
| OutOfOrder.AlwaysInStep | app/crypto/session.py:340-408 | after every prefix of every run the receiver follows the sender's chain and holds only right, unused keys |
| OutOfOrder.AcceptedIsGenuine | app/crypto/session.py:340-408 | with any reordering, loss, duplication, eviction, expiry and traffic for other chains, an accepted delivery returns the plaintext sealed at that counter |
| OutOfOrder.AcceptedOnce | app/crypto/skipped_keys.py:97-110 | no counter is accepted twice in a run of genuine payloads |
| OutOfOrder.RefusedChangesNothing | app/crypto/session.py:75-79 | a delivery is refused exactly when its key is not readable and its counter is behind the chain or too far ahead; chain and live keys stay |
| AnyPayload.AcceptedIsSealed | app/crypto/session.py:377-408 | whatever arrives, in whatever name, an accepted payload was sealed under the message key of its counter, or under a key another chain had stored in that name; it returns what was sealed |
| AnyPayload.AcceptedIsGenuine | app/crypto/session.py:340-408 | so one of the sender's payloads is accepted only at its own counter, as the message sent there |
| AnyPayload.NoLeapUsesOnce | app/crypto/session.py:377-408 | over any arrivals in any names no key of the chain is used twice, unless one arrived ahead of the chain and within the jump limit, unreadable from the store and not sealed under its counter's key |
| AnyPayload.UsedOnceIff | app/crypto/skipped_keys.py:97-110 | at no point of a run can sealed payloads still to come make a key be used twice, if and only if no such payload arrived |
| AnyPayload.WorthlessPayloadLeaps | app/crypto/session.py:389-397 | such a payload, and the message that opens twice after it |
| AnyOrder.AllAcceptedIffMet | app/crypto/session.py:75-88 | of messages 0..n-1 arriving once each in some order, all are accepted if and only if no jump exceeds 100, no overtaken one outlives its key, and the overtaken ones fit the store |
| AnyOrder.AllAcceptedEndsEven | app/crypto/session.py:377-408 | then the store lists exactly the overtaken counters throughout and both sides end on the same chain with an empty store |
| AnyOrder.LostIsRefused | app/crypto/skipped_keys.py:81-88 | a key passed by the chain and no longer stored never comes back, so its message is refused whenever it arrives |
| AnyOrder.OverflowLosesOldest | app/crypto/session.py:80-88 | a jump that overflows the store loses exactly the counters filed first, those with as many later ones waiting as the bound allows, and their messages are refused |
| Agreement.RatchetMeets | app/crypto/session.py:225-267 | turning the ratchet gives the speaker's sending chain as receiving chain and hands the lead of one root step to the listener |
| Agreement.RatchetEqualIff | app/crypto/session.py:225-267 | two ratchet steps give the same receiving chain exactly when roots and Diffie-Hellman outputs are the same, and the same sending chain and root exactly when the second outputs are too |
| Agreement.RatchetTurnsOnKeys | app/crypto/session.py:146-267 | for one session the chains and the root change with the peer key, sending chain and root with the new key pair, and no two of the three are equal |
| Agreement.InitiatorEqualIff | app/crypto/session.py:157-194 | an initiator's chain and root depend on the agreed secret and the Diffie-Hellman output, and differ |
| Agreement.AgreedIsNotRatcheted | app/crypto/x3dh.py:68-77 | what the key agreement derives is never what a ratchet step derives |
| Agreement.AgreementPairs | app/crypto/session.py:157-222 | sessions initialised from one key agreement are paired, with or without one-time prekey |
| Agreement.TurnSucceeds | app/crypto/session.py:270-337 | a turn reads every message sent in it, later ones lost or not, and leaves the sides paired the other way round |
| Agreement.ConversationAgrees | app/crypto/session.py:225-337 | over any number of turns every message read is the message sent and no step fails |
| Agreement.WholeConversation | app/crypto/x3dh.py:80-186 | the same from the prekey bundle on |
| Agreement.TurnOutOfOrder | app/crypto/session.py:340-408 | inside any turn the listener may read out of order instead, and whatever is accepted is what was sent |
| Agreement.ConversationKeysDistinct | app/crypto/session.py:225-267 | two messages of a conversation share a message key exactly when they are the same message of the same turn |
| Agreement.OpensOnlyInPlace | app/crypto/session.py:270-337 | a payload opens at a position of a turn exactly when it was sealed at that position of that turn and the associated data agree |
| Agreement.OtherTurnsAreForeign | app/crypto/session.py:225-267 | no key of another turn is one of this turn's chain |
| SenderKeys.LateJoiner | app/crypto/sender_keys.py:150-258 | a member given the distribution after any k messages reads all later ones and ends in the sender's state |
| SenderKeys.JoinersAgree | app/crypto/sender_keys.py:189-258 | members who joined at different counters end in equal states |
| FanOut.EncryptFanOut | app/crypto/fan_out.py:96-143 | one envelope for each device in order, successes and failures add up to the total, advanced states for exactly the successes |
| FanOut.RoundServes | app/crypto/fan_out.py:120-143 | a device without fault and with a sending chain gets, under its own id, the message sealed at its position and goes one step on; another gets the reason and stays |
| FanOut.RotateSession | app/crypto/fan_out.py:146-164 | rotation assigns the batch's advanced states one after the other |
| FanOut.RotationIsRound | app/crypto/fan_out.py:146-164 | those assignments move exactly the reached devices and add or drop none |
| FanOut.SendRound | app/crypto/fan_out.py:96-164 | encrypting and rotating together serve every device in order in that way |
| FanOut.RoundsAccount | app/crypto/fan_out.py:96-164 | over any rounds with any faults a device is sent exactly the messages of its good rounds along its chain, whose counter grows by their number |
| FanOut.SilentDevice | app/crypto/fan_out.py:120-143 | a device without sending chain gets only errors and keeps its state |
| FanOut.MirrorReads | app/crypto/fan_out.py:96-164 | a session mirroring the device reads precisely those messages in order and ends level with it |
| Protocol.RelayStampsSender | server/room.py:223-256 | a relayed frame carries the server's sender and target whatever it claimed, and everything else unchanged |
| Protocol.WireRoundTripIff | server/protocol.py:247-262 | wire to internal and back changes nothing exactly when the frame has no `from_` |
| Protocol.InternalRoundTripIff | server/protocol.py:247-262 | internal to wire and back changes nothing exactly when the frame has no `from` |
| ClientView.AppState.SetIdentity | app/core/app_state.py:93-102 | empty identifiers are refused and leave the state alone, others are recorded |
| ClientView.AppState.ReplacePeers | app/core/app_state.py:141-144 | the known peers become the given ids without the empty one |
| ClientView.AppState.AddPeer | app/core/app_state.py:146-150 | adds a non-empty id |
| ClientView.AppState.RemovePeer | app/core/app_state.py:152-155 | removes the id |
| ClientView.AppState.ReceiveAll | app/net/signaling_client.py:343-373 | handling frames one after the other folds them into the view |
| MembershipProofs.NextKeeps | server/signaling.py:65-111 | every segment of every handler, at any time, keeps the invariant of seats, rooms, owed checks and views |
| MembershipProofs.RunKeeps | server/room.py:154-221 | so the invariant holds after every run |
| MembershipProofs.ViewsConverge | app/net/signaling_client.py:360-373 | in every interleaving a client that reads its queue knows only fellow members and misses only those still to be announced; at rest it knows exactly its fellows |
| MembershipProofs.SeatedIsRegistered | server/room.py:154-221 | a peer that joined and has not left is found in the room object registered under its room id, also after joining again |
| MembershipProofs.EmptyRoomsAreOwed | server/room.py:205-221 | a registered room is empty only while a leave owes its check; at rest none is empty |
| MembershipProofs.DepartureHeard | server/room.py:192-221 | a departure reaches exactly the other members of that room |
| Requests.JoinAnswered | server/room.py:154-190 | a connection without a seat takes one and is told exactly who sits in that room; nobody else is told anything yet |
| Requests.JoinFollowed | server/room.py:154-190 | so it is for a JOIN from another room, once that room is left |
| Requests.ArrivalTold | server/room.py:122-133 | then each other open connection with a seat in that room gets one PEER_JOINED, and nobody else anything |
| Requests.DepartureTold | server/room.py:192-221 | who leaves by a LEAVE, by joining again or by hanging up loses the seat, and each other open connection in the room gets one PEER_LEFT, nobody else anything |
| Requests.RelayDelivered | server/signaling.py:469-516 | an offer, answer or candidate for an open fellow is appended to its queue once, with the sender's id and all else as sent, and nothing else changes |
| Requests.RelayFindsNobody | server/room.py:241-256 | without such a fellow the sender alone gets one PEER_NOT_FOUND |
| Requests.RelayRefused | server/signaling.py:469-500 | without a room, or for a frame that is not well-formed, the sender alone gets NOT_JOINED or MISSING_FIELD |
| Requests.JoinRefused | server/signaling.py:271-285 | a JOIN without room or name gets MISSING_FIELD and nothing else happens |
| Requests.LeaveRefused | server/signaling.py:388-395 | a LEAVE without a room gets NOT_JOINED and nothing else happens |
| Broadcasts.PeersRightIff | server/room.py:154-190 | a PEERS frame that overtakes waiting broadcasts leaves its connection with the right picture exactly when it names nobody whose departure still waits for that connection |
| Delivery.StepIsProper | server/signaling.py:65-111 | every step of the server is a move as the layer below expects it: at most one direct frame, a broadcast to fellows only, a departure told to all of them |
| Delivery.AlwaysSyncedIff | server/room.py:122-133 | with every broadcast waiting for its gather and direct frames overtaking it, the wire tells each open connection what the server's order does, throughout a run, if and only if no PEERS frame names such a departure |
| Delivery.WireConverges | app/net/signaling_client.py:360-373 | then what a client will have read knows only fellow members and misses only those still to be announced; with nothing under way it is exactly its room |
| Delivery.UnsharedRunIsDiscreet | server/room.py:122-133 | it is so in every run in which no seated connection goes by the id of one that is leaving |
| Delivery.NewsArrivesLast | server/signaling.py:271-303 | a family of runs in which it is not: the last peer of a room moves to a room with a namesake before the departure of the first goes out |
| RelayProofs.RelayedHaveSenders | server/signaling.py:469-516 | every relayed frame in any queue was sent by a member of the same room at that time |
| RelayProofs.RelayAttribution | server/room.py:223-256 | on the wire it names that member as `from` and the receiver as `to`, all other fields as sent |
| RelayProofs.JoinNeedsUnusedId | server/signaling.py:271-303 | a join keeps the structure exactly when its id is not in use in that room |
| RelayProofs.SecondJoinUnseats | server/room.py:97-103 | a run from the start after which a second client unseats the first under its id |
| RelayProofs.LeaveMustNameSelf | server/signaling.py:388-407 | a LEAVE keeps the structure exactly when it names its own sender, outright or by omission |
| RelayProofs.ForeignLeaveUnowned | server/signaling.py:388-407 | a run from the start after which a LEAVE for another room strands its sender's entry |
| Rooms.Peer.SendJson | server/room.py:60-78 | an open socket takes the frame, a closed one loses it, and the answer says which |
| Rooms.Room.AddPeer | server/room.py:97-103 | returns the other ids present and seats the peer under its own |
| Rooms.Room.RemovePeer | server/room.py:105-108 | returns and unseats the peer of that id, if any |
| Rooms.Room.BroadcastExcept | server/room.py:122-133 | every member but one gets the frame, once |
| Rooms.RoomRegistry.JoinSegment | server/room.py:154-190 | finds or creates the room, seats the peer and sends it the others; no other room changes |
| Rooms.RoomRegistry.LeaveSegment | server/room.py:192-221 | unseats the peer and tells the rest of that room |
| Rooms.RoomRegistry.CollectSegment | server/room.py:205-221 | drops the registered room exactly when it and the room left are both empty |
| Rooms.RoomRegistry.Relay | server/room.py:223-256 | the four refusals in their order, otherwise exactly one frame to exactly the target |
| SignalingObjects.Join | server/room.py:154-190 | lookup or creation, admission and PEERS move the objects as the state machine's join |
| SignalingObjects.Leave | server/room.py:192-218 | removal and PEER_LEFT move the objects as the state machine's leave, or there was nothing to leave |
| SignalingObjects.Collect | server/room.py:213-221 | the empty-room check drops the registered room exactly when the state machine does |
| SignalingObjects.RelayMirrored | server/room.py:223-256 | relaying moves the connections as one sending of the state machine, with the same refusals |
| SignalingObjects.TakeJoin | server/signaling.py:271-303 | a JOIN, of a peer in a room or not, takes the objects from one state to the next |
| SignalingObjects.TakeAnnounce | server/room.py:175-188 | the PEER_JOINED broadcast does so, from the room object the handler kept |
| SignalingObjects.TakeLeave | server/signaling.py:388-407 | a LEAVE does so, with omitted names standing for the sender's own |
| SignalingObjects.TakeRecheck | server/room.py:213-221 | the owed check and what the handler does after it do so |
| SignalingObjects.TakeHangup | server/signaling.py:99-106 | the end of a connection does so |
| SignalingObjects.TakeRelay | server/signaling.py:469-516 | an OFFER, ANSWER or ICE frame does so, with the checks in their order; what the step brings about is in `Requests` |
| Reconnect.BackoffIff | app/net/signaling_client.py:442-491 | the k-th sleep is base times multiplier to the k, capped, for all k exactly when the base is within the cap |
| Reconnect.CappedOnce | app/net/signaling_client.py:476-478 | capping the delay after every failure is capping it once |
| Reconnect.CourseIff | app/net/signaling_client.py:455-491 | the loop gives up exactly after as many refusals in a row as a positive limit allows, and else ends at the first turn that is none |
| Reconnect.SignalingClient.ReconnectLoop | app/net/signaling_client.py:442-491 | sleeps, verdict and state for every script of outcomes, cancelled while asleep or while connecting included; a positive limit ends in failure after that many refusals; a connection re-joins with exactly the recorded identity |
| Reconnect.SignalingClient.Restore | app/net/signaling_client.py:479-491 | the end of the loop: the re-JOIN, and a socket dropped during it stays unread with the loop finished |
| Reconnect.SignalingClient.ReceiveEnds | app/net/signaling_client.py:331-342 | the end of a receive loop leaves a reconnect task behind if one is wanted |
| Reconnect.SignalingClient.Connect | app/net/signaling_client.py:153-196 | a first connection that fails ends in the error state with reconnection wanted |
| Reconnect.SignalingClient.Join | app/net/signaling_client.py:221-228 | the identity is recorded exactly when the frame could be sent and neither name is empty; an empty name is refused after the frame has gone out |
| Reconnect.SignalingClient.Disconnect | app/net/signaling_client.py:198-219 | ends reconnection and forgets the identity |
| Supervision.StepTendedIff | app/net/signaling_client.py:331-440 | only the end of a re-JOIN on a dropped socket leaves a wanted connection to nobody, and it always does, reported as connected |
| Supervision.AlwaysTendedIff | app/net/signaling_client.py:331-491 | throughout a run a wanted connection is read, being restored or reported as failed, if and only if no re-JOIN ended on a dropped socket |
| Supervision.RetriesIff | app/net/signaling_client.py:461-477 | over any run a refused attempt is followed by another one exactly when the refusals since the drop have not used up a positive limit |
| Supervision.DropDuringRejoin | app/net/signaling_client.py:430-491 | a run of seven steps in which one does |
| EmbeddingCache.CachedEmbedder.LookSection | app/bot/rag_context.py:278-286 | the first lock section: a hit moves to the recent end and is counted, a miss is only counted |
| EmbeddingCache.CachedEmbedder.StoreSection | app/bot/rag_context.py:288-298 | the second lock section: another caller's entry wins, otherwise the new one goes in and the oldest goes out above the bound |
| EmbeddingCache.CachedEmbedder.Embed | app/bot/rag_context.py:270-298 | one call returns the backend's vector and makes the text the most recent |
| EmbeddingCache.CachedEmbedder.EmbedAll | app/bot/rag_context.py:270-298 | for every trace the answers are the backend's, the cache the specified one, hits and misses add up to the calls |
| EmbeddingCache.CachedEmbedder.Clear | app/bot/rag_context.py:309-321 | empties the cache and both counters |
| EmbeddingCache.CachedIsRecent | app/bot/rag_context.py:288-298 | the cache is the recent end of all distinct texts by last use |
| EmbeddingCache.CachedIffUsedLately | app/bot/rag_context.py:270-298 | a text is cached exactly when fewer than `max_cache` other texts were used since its last use |
| EmbeddingCache.LargerCacheHitsMore | app/bot/rag_context.py:270-298 | a larger cache holds all a smaller one holds and hits at least as often |
| EmbeddingCache.CacheLinearises | app/bot/rag_context.py:278-298 | with any interleaving of lock sections the cache is that of one caller taking the calls as they complete, bounded, with hits and misses equal to calls started |
| RateLimiting.RateLimitGate.Allow | app/bot/llm_proxy.py:305-332 | permits exactly when something remains, and forgets stamps over a minute old |
| RateLimiting.RateLimitGate.Remaining | app/bot/llm_proxy.py:334-343 | the rate less the calls of the last minute, never negative |
| RateLimiting.RateLimitGate.PruneStale | app/bot/llm_proxy.py:345-366 | deletes exactly the users without a recent stamp and counts them |
| RateLimiting.ForgettingShowsIff | app/bot/llm_proxy.py:305-366 | for given clock readings every trace at every rate is answered as by a gate that remembers everything, if and only if no reading over a minute before a later one is back within the minute of a still later one |
| RateLimiting.ForgettingIsInvisible | app/bot/llm_proxy.py:305-366 | so it is when the times do not decrease |
| RateLimiting.ThreeReadings | app/bot/llm_proxy.py:317-332 | the same for three readings, as an inequality between them |
| RateLimiting.WindowHolds | app/bot/llm_proxy.py:305-332 | among any rate + 1 permitted calls of a user the first and last are over 60 seconds apart |
| RateLimiting.PermittedIffRoom | app/bot/llm_proxy.py:305-343 | in order of time a call is permitted exactly when fewer than the rate were permitted to its user in the minute before, and what is left is the difference |
| RateLimiting.PruningIsInvisible | app/bot/llm_proxy.py:345-366 | a clean-up put in anywhere changes no later answer, as long as no reading returns in that way |
| MessagesCache.Cache.InsertMessage | app/db/messages_cache.py:24-88 | argument checks in their order; a repeated id keeps its first row; the index is updated either way |
| MessagesCache.Cache.UpdateSyncState | app/db/messages_cache.py:176-193 | ids that are not positive are ignored, others widen the room's bounds |
| MessagesCache.Cache.DeleteRoomMessages | app/db/messages_cache.py:196-208 | removes the room's rows and its index entry and counts the rows |
| MessagesCache.Cache.GetMinMsgId | app/db/messages_cache.py:141-157 | with an exact index, the least cached id of the room, or nothing when there is none |
| MessagesCache.Cache.GetMaxMsgId | app/db/messages_cache.py:160-173 | with an exact index, the greatest cached id of the room |
| MessagesCache.InsertKeepsIndexIff | app/db/messages_cache.py:70-88 | an insert spoils an exact index exactly when an id cached for one room comes for another outside its bounds |
| MessagesCache.RestartKeepsIndexIff | app/db/messages_cache.py:84-86 | closing and opening the database keeps an exact index exactly when the last call that reached the tables moved no bound by an insert |
| MessagesCache.CachedIffKept | app/db/messages_cache.py:62-88 | over any run, restarts included, the cached row of an id is that of the first insert that passes the checks, until its room is deleted |
| MessagesCache.IndexExactIff | app/db/messages_cache.py:176-208 | if every id belongs to one room, the index holds exactly the least and greatest cached id of each room throughout a run, restarts included, if and only if no restart loses a moved bound |
| MessagesCache.ClosingLosesBound | app/db/messages_cache.py:84-86 | a run of two calls in which one does: an insert, and the connection closes |
| MessagesCache.Cache.Reopen | app/db/local_db.py:124-133 | closing drops what was not committed |
| MessagesCache.ListsTheTop | app/db/messages_cache.py:91-138 | the argument checks, and that a page is the top of the selected rows in descending order |
| MessagesCache.RankedIsUnique | app/db/messages_cache.py:118-130 | only one list enumerates a set of rows in that order |
| MessagesCache.ScrollShowsNoneTwice | app/db/messages_cache.py:118-135 | a caller that passes the least id of each page as the next `before_msg_id` lists only cached ids of the room, none twice, whatever the timestamps |
| MessagesCache.ScrollCompleteIff | app/db/messages_cache.py:118-138 | with one size for the first page and one for the later ones such a caller, stopping at an id of 1 or less, lists every cached message if and only if ids descend from page to page and only the last page holds such an id, and then in rank order |
| MessagesCache.EveryLimitIff | app/db/messages_cache.py:118-138 | it does so for all page sizes if and only if timestamps do not decrease with the id and at most one id is 1 or less |
| MessagesCache.InvertedTimesHide | app/db/messages_cache.py:118-138 | two rows, one a page, of which one is never listed |
| MessagesCache.IndexedCursorEmptyIff | app/db/messages_cache.py:118-157 | with an exact index the indexed minimum as a cursor lists nothing if and only if the room caches no row without a positive id |
| ChatScroll.ChatView.PrependMessage | app/ui/chat_view.py:241-269 | a recorded id is not shown again; any other goes on top and is recorded if positive |
| ChatScroll.ChatView.AddMessage | app/ui/chat_view.py:351-420 | a row goes to the bottom and its id is recorded only if the caller passes it |
| ChatScroll.ChatView.MinDisplayedMsgId | app/ui/chat_view.py:271-279 | the least recorded id, 0 for none |
| ChatScroll.ChatView.LoadLocalHistory | app/ui/_chat_helper_mixin.py:130-147 | the first load shows its rows oldest on top and records nothing |
| ChatScroll.ChatView.EnterRoom | app/ui/_chat_navigation_mixin.py:217-234 | entering a room leaves exactly those rows on the screen and no id recorded |
| ChatScroll.ChatView.OnLazyLoadRequested | app/ui/_chat_helper_mixin.py:66-102 | the cursor is the least recorded id or the indexed minimum; at 1 or less nothing is loaded, otherwise the rows below it go on top |
| ChatScroll.ScrollsOnlyRepeat | app/ui/_chat_helper_mixin.py:66-102 | with an exact index n scrolls add the row with id 0 n times, if there is one, and nothing else |
| ChatScroll.WholeRoomIff | app/ui/_chat_helper_mixin.py:66-147 | with an exact index the view shows the whole room if and only if the first load does, or left out the row with id 0 alone and was scrolled |
| ChatScroll.RepeatsIff | app/ui/_chat_helper_mixin.py:66-147 | with an exact index a row is shown twice if and only if the row with id 0 is scrolled to after it was shown |
| ChatScroll.ScrolledToTheEnd | app/ui/_chat_helper_mixin.py:66-102 | whatever the index, scrolled to the end the view holds the first load and what following the cursor down from the indexed minimum lists |
| ChatScroll.StaleIndexRepeatsIff | app/ui/_chat_helper_mixin.py:66-102 | whatever the index, a scrolled view of numbered rows shows one twice if and only if the first load went below the indexed minimum |
| ChatScroll.ScrollingShowsNoMore | app/ui/_chat_helper_mixin.py:66-147 | after any run of the cache whose restarts lose no bound, scrolling a room of numbered rows shows what entering it showed |
| Sfu.ClosesExactly | server/sfu_room.py:106-202 | a step closes exactly the connections of the slots it empties and opens at most its own |
| Sfu.AtNext | server/sfu_room.py:106-202 | a step empties the slots it should, fills its own with the new connection and leaves the rest |
| Sfu.RunKeepsAccounts | server/sfu_registry.py:27-56 | over all runs open connections and filled slots correspond one to one, every subscription carries its producer's present tracks, no registered room is empty |
| Sfu.ConnectedIff | server/sfu_room.py:106-189 | a connection is open for exactly the peers that published and have not left, and those that subscribed since and neither side left or published anew |
| Sfu.ProducerIffPlaying | server/sfu_room.py:106-137 | a peer is a producer exactly while it plays, with the tracks it published last |
| Sfu.WatchesLastPublished | server/sfu_room.py:139-165 | every subscription carries what its producer published last |
| Sfu.RegisteredIffPublishing | server/sfu_registry.py:40-49 | a room is registered exactly while somebody publishes in it |
| Sfu.NothingLeaks | server/sfu_room.py:167-202 | no connection is left open exactly when no room is registered |
| SfuRooms.SfuRoom.DropProducer | server/sfu_room.py:167-176 | closes the upstream and, one by one, all subscriptions to it |
| SfuRooms.SfuRoom.AddPublisher | server/sfu_room.py:106-137 | opens the new upstream first and drops an earlier one of the same peer with its subscriptions |
| SfuRooms.SfuRoom.Subscribe | server/sfu_room.py:139-165 | refuses without producer; otherwise opens a connection with its tracks and closes an earlier one |
| SfuRooms.SfuRoom.RemovePeer | server/sfu_room.py:178-189 | drops the peer as producer and as subscriber |
| SfuRooms.SfuRegistry.Publish | server/signaling.py:207-213 | creates the room if need be and publishes in it |
| SfuRooms.SfuRegistry.Subscribe | server/signaling.py:252-260 | refuses without room or producer |
| SfuRooms.SfuRegistry.RemovePeer | server/sfu_registry.py:40-49 | removes the peer and the room if that left it empty |
| CoordTransform.ClampIsIdle | app/remote/coord_transform.py:125-184 | for every point of the sender under every policy the final clamp changes nothing |
| CoordTransform.AlwaysOnTarget | app/remote/coord_transform.py:178-184 | whatever the point and DPI the answer is the skip signal or a point of the target |
| CoordTransform.StretchPlaces | app/remote/coord_transform.py:130-136 | under STRETCH, or between screens of one aspect ratio, each axis has the scale of its side |
| CoordTransform.LetterboxPlaces | app/remote/coord_transform.py:139-150 | under LETTERBOX both axes have the scale of the side that fits, and the picture stands in the middle, to a pixel |
| CoordTransform.CropPlaces | app/remote/coord_transform.py:153-170 | under CROP both axes have the scale of the side that is whole, over a window in the middle of the sender, to a pixel |
| CoordTransform.DpiScales | app/remote/coord_transform.py:172-184 | another DPI scales the answer for 96 DPI, up to the edge |
| CoordTransform.CropSkipsIff | app/remote/coord_transform.py:153-170 | CROP skips exactly the points outside a window that lies on the sender |
| CoordTransform.Monotone | app/remote/coord_transform.py:133-184 | each coordinate of the answer grows with its own coordinate and ignores the other |
| CoordTransform.StretchThereAndBack | app/remote/coord_transform.py:133-136 | there and back never overshoots, is exact if and only if the pixel divides, and is at most one off when the target is at least as large |
| Base64.RoundTrip | app/backup/encrypted_backup.py:187-200 | whatever was encoded decodes to itself, in both alphabets |
| Base64.StrippedRoundTrip | app/core/security.py:119-126 | stripping and restoring the padding loses nothing, for every length |
| Base64.TestVectors | app/backup/encrypted_backup.py:187-192 | vectors of RFC 4648 section 10, and the characters in which the alphabets differ |
| PasswordHash.DecimalRoundTrip | app/core/security.py:72-101 | the printed iteration count reads back, for every number |
| PasswordHash.VerifiesIffSameKey | app/core/security.py:47-116 | an attempt verifies against a stored hash exactly when it derives the same key from the stored salt; the hashed password always does and neither call raises |
| PasswordHash.MalformedVerifiesNothing | app/core/security.py:85-100 | a stored text without exactly three separators or with another scheme verifies nothing, nor does an empty password |
| Backup.JsonToEntries | app/backup/encrypted_backup.py:167-184 | the reading loop stops at the first bad entry and otherwise returns all of them in order |
| Backup.EntriesRoundTrip | app/backup/encrypted_backup.py:153-184 | entries written to JSON read back as they were |
| Backup.PayloadRoundTrip | app/crypto/e2ee.py:54-67 | nonce and ciphertext come back from their bytes, and anything shorter than 28 bytes is refused |
| Backup.BundleRoundTrip | app/backup/encrypted_backup.py:264-294 | a bundle written reads back as it was |
| Backup.RestoreGivesBack | app/backup/encrypted_backup.py:203-294 | a backup written, read and opened gives its entries under every password that derives the same key, and a tag failure under every key the cipher rejects |
| Backup.OpensOnlyWhatFits | app/backup/encrypted_backup.py:241-261 | entries come only out of a bundle of the present version that opens under the key of this password and salt, and all are well-formed |
| Usage.UsageTracker.AppendAll | app/bot/usage_tracker.py:126-137 | any run of records leaves the last `max_records` in order, all of them for 0 |
| Usage.UsageTracker.Summarize | app/bot/usage_tracker.py:160-182 | maps exactly the keys present, each to the total of its records |
| Usage.UsageTracker.SummarizeByPeriod | app/bot/usage_tracker.py:184-213 | refuses unknown periods; otherwise the same by bucket start |
| Usage.UsageTracker.GrandTotal | app/bot/usage_tracker.py:215-223 | count and both token sums over all records |
| UsageFigures.TotalIs | app/bot/usage_tracker.py:215-223 | the total is the number of records and their two token sums |
| UsageFigures.GroupTotalIs | app/bot/usage_tracker.py:160-213 | a group total counts the records with its key and no others, input and output apart |
| UsageFigures.KeysGroup | app/bot/usage_tracker.py:160-213 | records share a key exactly when they share user, provider, or the whole minute, hour or day |
| Usage.GroupsAddUp | app/bot/usage_tracker.py:160-223 | the groups of any grouping add up to the total |
| Usage.PeriodsNest | app/bot/usage_tracker.py:184-213 | every day bucket is the sum of its hour buckets and every hour bucket of its minute buckets |

## Left out

- OutOfOrder.AcceptedOnce: ranges over payloads the sender produced, as do the other results of that module and of `AnyOrder`; `AnyPayload` has the exact condition for all payloads in all names.
- AnyPayload.UsedOnceIff: that a key may run out or be evicted before it could be used again is not held against the condition, since times and sizes are arbitrary; a key of the chain read by another session counts as used.
- OutOfOrder.AlwaysInStep: one clock reading serves a whole delivery, where the code reads the clock at each store call.
- Agreement.TurnOutOfOrder: concerns receipt within one turn, because sending and turning the ratchet detach the store.
- AES-GCM, X25519, HKDF, HMAC and PBKDF2 themselves: keys are symbolic, so key lengths, nonces and low-order points are not modelled; no associated data counts as empty associated data, as in AES-GCM.
- Signing of sender keys: the signing key is carried along, nothing in the modelled code checks a signature.
- Rooms.Room.BroadcastExcept: one frame after the other at the snapshot, where the code hands all sends to one gather; what follows for the order on the wire is in `Delivery`.
- Delivery.AlwaysSyncedIff: the sends of one gather start together and in order; a send that blocks half-way on a slow socket is not modelled.
- MembershipProofs.NextKeeps: connections that are in a room use distinct ids and a LEAVE names its own sender, as the shipped client does; `JoinNeedsUnusedId` and `LeaveMustNameSelf` show both are needed.
- MembershipProofs.ViewsConverge: the ids in a PEERS frame are a set; their order is not modelled.
- Server shutdown, heartbeats, logging, and database persistence and audit in server/signaling.py.
- Type checks of LEAVE fields that are not text, and frames that are not objects.
- RoomRegistry.broadcast to a whole room: the same loop as `BroadcastExcept` without an exception.
- CachedEmbedder over a backend that raises or changes its answers: the backend is a function.
- The SQLite engine: tables are maps with the meaning of the statements, a connection is what was committed and what is pending; write failures, which the code logs and swallows, do not occur. Columns that no statement filters or sorts by are left out.
- ChatScroll.WholeRoomIff: the table stands still while the user scrolls; messages that arrive meanwhile, the in-memory history and the fetch from the server at the end of the cache are left out.
- Supervision.AlwaysTendedIff: `connect` is called only when neither loop is at work.
- Overlapping operations on one SfuRoom, failing negotiations, and the loops of `close` and `shutdown`, which the state machine has as one step.
- CoordTransform.StretchThereAndBack: exact rationals for the code's floats, and both screens at 96 DPI, as for `ClampIsIdle` and `Monotone`.
- PasswordHash.VerifiesIffSameKey: stored iteration counts are plain decimal digits; other spellings that Python's `int` reads, and counts beyond the platform's range, are not modelled, nor are passwords with a lone surrogate, which cannot be encoded.
- Backup.RestoreGivesBack: the laws of cipher and JSON engine are a hypothesis, and text with a lone surrogate, which cannot be encoded, is left out; JSON fields of an unexpected type are one error here, where the code converts some of them.
- Requests.JoinAnswered: the id is free in the room; `RelayProofs` has what happens otherwise.
- Usage.UsageTracker.Summarize: one loop for the three the code has, with the grouping as parameter.
- Keyword search, cosine similarity, prompt composition, the user interface, the REST clients, streaming, capture and input backends, push notifications, permissions and configuration.
