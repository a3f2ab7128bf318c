# Room end-to-end encryption of a terminal chat: a Dafny model

The chat program encrypts room messages end to end. Each member of a room owns a *sender key*, a
hash chain whose links yield one-time message keys; it hands the chain key to the other members in
pairwise signed boxes (*envelopes*), and draws a new one whenever the server announces a new
*epoch* of the room, that is, whenever somebody joins or leaves. This project models that protocol
(version 2) and the state machines around it, and proves what they promise over all inputs and all
runs.

| file | models |
|---|---|
| `Sodium.dfy`, `Prelude.dfy` | the foreign primitives as ideal terms; shared value types |
| `SigningInputs.dfy` | the strings that are authenticated, and why they are unambiguous |
| `LargestIndices.dfy`, `Ratchet.dfy` | the sender-key ratchet with its cache of 200 skipped keys |
| `RoomCrypto.dfy`, `RoomDelivery.dfy` | sealing, opening, envelopes; what a receiver gets over runs of deliveries |
| `TrustStore.dfy`, `GroupTrust.dfy` | pins on first use, and the pins along runs of a client |
| `GroupManager.dfy`, `GroupInvariant.dfy`, `GroupRuns.dfy` | the client's room-key orchestration, its invariant, and its guarantees over runs |
| `KeyExchange.dfy` | exactly what each step of the key exchange sends, records and remembers |
| `GroupDelivery.dfy`, `Replay.dfy` | one client's envelope and messages at another client, end to end; when a message opens twice |
| `Membership.dfy`, `MembershipRuns.dfy` | the server's room index, the epoch steps, and who is listed along runs |
| `EpochProtocol.dfy` | server, clients and a hostile network together: key confinement |
| `Persistence.dfy`, `Restart.dfy` | the state files; a restart in the middle of a run |
| `Framing.dfy`, `RateLimiter.dfy`, `LoginLockout.dfy` | the frame decoder, the token buckets, the login lockout |

Code that changes state is modelled by classes and loops; each method is proved equal to a function
on values, and the theorems are proved about runs of those functions.

**Ideal cryptography.** Keys, ciphertexts, boxes and signatures are terms. A term opens only for
the key it was made with, hashes do not collide, and a signature verifies only over the text that
was signed. Random values (nonces, fresh chain keys) are parameters.

**What the proofs found.**

- An envelope wraps the *current* chain key without saying its position. A receiver whose envelope
  was made after the sender's first seal opens nothing of that chain, ever
  (`GroupDelivery.LateEnvelopeDeliversNothing`); agreement holds exactly when no message was sealed
  before (`RoomDelivery.HandOverShift`).
- Texts of more than 3056 bytes are sealed and sent, but no receiver opens them
  (`RoomDelivery.GenuineOpens`), because of the 4096-character cap on base64 fields; likewise an
  envelope opens only if the room name and the epoch's digits have at most 2848 characters together
  (`RoomCrypto.EnvelopeRoundTrip`), which the server's limit of 64 characters for room names
  guarantees in the running system.
- The reordering window is 200 ahead and 202 behind, and 203 behind fails
  (`RoomDelivery.BoundedReorderingDelivers`, `RoomDelivery.WindowIsTight`).
- The chain position is 32 bits wide; the refinement of the one-line chain breaks exactly when
  index 2^32 - 1 is taken (`Ratchet.RefinementLostOnlyByWrap`).
- A message can be opened twice: drop its chain (leave the room, let three epochs pass, or let six
  newer chains of the sender arrive) and have its envelope delivered again (`Replay.DeliveredTwice`,
  `Replay.DroppedExactly`). Then a whole recorded conversation replays (`Replay.ConversationReplays`).
  A replay opens exactly when the chain is held and `has_index` holds (`Replay.ReplayExactly`), and
  never without a redelivery of the envelope (`Replay.OncePerDelivery`).
- The age test `epoch > c.epoch + 2` wraps at the end of the 64-bit range (`GroupInvariant.AgeTest`).
- A sighting without a user or a box key would leave a pending user with nothing to accept, and only
  such a one would (`TrustStore.CandidatesKeptExactly`). No caller passes one: envelopes with an empty
  key are rejected and both callers of `check_dm_key` test first, so along every run of a client
  pending users can be accepted (`GroupTrust.PendingCanBeAccepted`).
- Key changes that wait for acceptance are not saved. A restart is invisible exactly when none is
  waiting (`Restart.RestartInvisibleExactly`); otherwise it can no longer be accepted until the key is
  shown again, and the peer's envelopes stay refused (`Restart.CandidateLost`).
- Names with a bar would make the associated data and the signing inputs ambiguous, and only those
  would (`SigningInputs.AadUnambiguous`). The server admits letters, digits, '_' and '-' in room and
  user names, so the ambiguity cannot arise in the running system.
- Sweeping idle rate-limit buckets is invisible exactly when `burst <= 301 * rate`
  (`RateLimiter.EvictionTransparencyExactly`).
- An empty frame is accepted silently and makes the feed with the next byte throw
  (`Framing.EmptyFrameFailsLate`).

## Model

| member | source | states |
|---|---|---|
| `Ratchet.ChainAtAdds` | common/crypto/room_crypto.cpp:122-145 | a chain restarted at position n continues the original chain from n on |
| `Ratchet.KeysDistinct` | common/crypto/room_crypto.cpp:122-145 | no chain key and no message key repeats along a chain |
| `Ratchet.TrimInsertTrim` | common/crypto/room_crypto.cpp:351-363 | evicting after every insertion equals one eviction at the end |
| `Ratchet.InboundSenderKey.TrimSkipped` | common/crypto/room_crypto.cpp:360-362 | the eviction loop leaves exactly the 200 largest indices |
| `Ratchet.InboundSenderKey.FastForward` | common/crypto/room_crypto.cpp:351-363 | skipping ahead leaves the 200 largest of the old cache and the skipped range, and the chain key of the target position |
| `Ratchet.InboundSenderKey.TakeMessageKey` | common/crypto/room_crypto.cpp:328-372 | the nested loops compute the closed form of taking a key |
| `Ratchet.TakeRefines` | common/crypto/room_crypto.cpp:321-372 | taking index i yields the specified key exactly when `has_index` says so and otherwise changes nothing; position, chain and cache agree with the one-line chain afterwards |
| `Ratchet.ReachableRefines` | common/crypto/room_crypto.cpp:328-372 | in every state that any takes reach below the wrap-around, chain key, position and every cached key agree with the one-line chain and the cache holds at most 200 keys |
| `Ratchet.AdvanceAllIs` | common/crypto/room_crypto.cpp:223-229 | after any number of advances the sender is at that position of its chain, with the index modulo 2^32 |
| `Ratchet.WrongSizeIsInert` | common/crypto/room_crypto.cpp:122-145 | a key of the wrong size neither yields nor moves anything |
| `Ratchet.RefinementLostOnlyByWrap` | common/crypto/room_crypto.cpp:365-371 | the only successful take after which the receiver disagrees with the chain is the one at index 2^32 - 1, which yields its key and sets the position to zero |
| `Ratchet.ConsumedForever` | common/crypto/room_crypto.cpp:328-372 | a consumed index stays consumed under every take and yields nothing |
| `Ratchet.TakenIsConsumed` | common/crypto/room_crypto.cpp:328-372 | taking an index consumes it |
| `LargestIndices.KeptExactly` | common/crypto/room_crypto.cpp:360-362 | an index survives eviction exactly when fewer than 200 larger ones are present |
| `SigningInputs.DecimalRoundTrip` | common/crypto/room_crypto.cpp:179-184 | a printed number reads back |
| `SigningInputs.JoinUnique` | common/crypto/room_crypto.cpp:37-52 | a joined string determines its fields as soon as one field list is free of bars |
| `SigningInputs.AadUnambiguous` | common/crypto/room_crypto.cpp:179-184 | no other fields give the same associated data exactly when neither name contains a bar |
| `SigningInputs.AadCollision` | common/crypto/room_crypto.cpp:179-184 | for names with a bar, other fields with the same text |
| `SigningInputs.SignedMessageUnambiguous` | common/crypto/room_crypto.cpp:37-41 | no other fields give the same message signing input exactly when names, nonce and ciphertext text have no bar |
| `SigningInputs.SignedEnvelopeUnambiguous` | common/crypto/room_crypto.cpp:43-52 | no other fields give the same envelope signing input exactly when names, nonce and box text have no bar |
| `SigningInputs.DomainsDisjoint` | common/crypto/room_crypto.cpp:37-52 | no message input equals an envelope input |
| `SigningInputs.AadExample` | common/crypto/room_crypto.cpp:179-184 | the associated data of one message, character by character |
| `SigningInputs.EnvelopeExample` | common/crypto/room_crypto.cpp:37-52 | the signing inputs of one message and one envelope, character by character |
| `SigningInputs.KeyIdsAreHex` | common/crypto/room_crypto.cpp:96-116 | the valid key ids are exactly the texts that a new key id can be |
| `Sodium.B64Cap` | common/crypto/room_crypto.cpp:23-35 | the cap of 4096 characters is a cap of 3072 bytes |
| `RoomCrypto.OutboundSenderKey.AdvanceTo` | common/crypto/room_crypto.cpp:223-229 | advancing replaces the chain key and increments the 32-bit index, unless the key has the wrong size |
| `RoomCrypto.SealRoomMessage` | common/crypto/room_crypto.cpp:251-313 | sealing binds text, index, epoch, room and sender, and moves the chain exactly when it produces a message |
| `RoomCrypto.OpenRoomMessage` | common/crypto/room_crypto.cpp:428-484 | opening with snapshot and rollback computes the specified answer; every refusal restores the chain |
| `RoomCrypto.RefusalKeepsChain` | common/crypto/room_crypto.cpp:428-484 | a refused message, at whatever stage, leaves chain, position and cache as before |
| `RoomCrypto.OpenExactly` | common/crypto/room_crypto.cpp:428-484 | the exact conditions on key, signature, nonce, size, one-time key and ciphertext under which a message opens to a given text |
| `RoomCrypto.UnwrapExactly` | common/crypto/room_crypto.cpp:561-645 | the exact conditions under which an envelope unwraps to given contents |
| `RoomCrypto.EnvelopeRoundTrip` | common/crypto/room_crypto.cpp:490-645 | an envelope unwraps for its recipient to the wrapped chain key exactly when its box fits the base64 cap |
| `RoomCrypto.UnwrapAuthentic` | common/crypto/room_crypto.cpp:561-645 | what unwraps was signed for this room, sender, recipient, epoch and key id, and boxed between exactly the sender's and this client's key pairs |
| `RoomDelivery.Session.SealOne` | common/crypto/room_crypto.cpp:251-313 | at position n of its chain a key seals the one message with index n under the key of position n, and moves to position n + 1 |
| `RoomDelivery.OpensAtMostOnce` | common/crypto/room_crypto.cpp:428-484 | over any run of genuine, replayed and forged messages no index yields a text twice |
| `RoomDelivery.AuthenticIsGenuine` | common/crypto/room_crypto.cpp:439-447 | a message whose signature verifies is, field by field, the one sealed at its index |
| `RoomDelivery.GenuineOpens` | common/crypto/room_crypto.cpp:428-484 | a genuine message opens to its text exactly when its key is held and the text has at most 3056 bytes |
| `RoomDelivery.KeptInWindow` | common/crypto/room_crypto.cpp:351-363 | eviction spares every index that is at most 202 behind |
| `RoomDelivery.BoundedReorderingDelivers` | common/crypto/room_crypto.cpp:328-372 | in every run whose first deliveries are at most 200 ahead and 202 behind, each sealed message opens to exactly its text the first time and everything else is refused |
| `RoomDelivery.WindowIsTight` | common/crypto/room_crypto.cpp:328-372 | after indices 200 and 202, index 0 (203 behind) is lost |
| `RoomDelivery.HandOverShift` | client/group_manager.cpp:317-362 | after n seals the receiver's key i is the sender's key n + i; they agree on an index exactly when n = 0 |
| `RoomDelivery.LateEnvelopeOpensNothing` | client/group_manager.cpp:341-343 | a receiver whose envelope was made after the first seal opens no message of the chain |
| `RoomDelivery.EarlyEnvelopeOpens` | client/group_manager.cpp:480-493 | with an envelope made before the first seal, the first message opens exactly when it is in reach and fits |
| `TrustStore.Store.Check` | common/crypto/trust_store.cpp:15-49 | the in-place check computes the specified pins and answer |
| `TrustStore.Store.Accept` | common/crypto/trust_store.cpp:59-73 | accepting replaces the pin, clears the warning and the verified mark |
| `TrustStore.VerifiedSince` | common/crypto/trust_store.cpp:75-82 | a user shown as verified was marked at some point of the run, the mark was not withdrawn since, and the pin it was set on is still there |
| `TrustStore.MarkTakesEffect` | common/crypto/trust_store.cpp:75-82 | a mark sets the flag of exactly the known user it names |
| `TrustStore.MarkLasts` | common/crypto/trust_store.cpp:15-49 | a mark lasts until the next mark or acceptance of that user, whatever keys are shown |
| `TrustStore.SeeExactly` | common/crypto/trust_store.cpp:15-49 | exactly when a sighting is CHANGED, NEWLY_PINNED or KNOWN, and everything it changes |
| `TrustStore.AcceptExactly` | client/group_manager.cpp:683-696 | an acceptance succeeds exactly on a recorded candidate with a key, and moves that user only |
| `TrustStore.PinStable` | common/crypto/trust_store.cpp:15-49 | without an acceptance a box key never changes and a signing key is set at most once, over every run |
| `TrustStore.ChangedAltersNoPin` | client/group_manager.cpp:646-655 | a CHANGED answer alters no pin and records the candidate; any other answer means the shown box key is pinned |
| `TrustStore.CandidatesAlongRun` | client/group_manager.cpp:453-458 | every pending user has a candidate with a key, over every run |
| `TrustStore.AcceptedIsKnown` | client/group_manager.cpp:683-696 | accepting a pending change after any run succeeds and makes the same pair KNOWN |
| `GroupTrust.TrustRun` | client/group_manager.cpp:453-458 | for the pins, every run of the client is a run of the trust store in which every sighting names a user and a box key |
| `GroupTrust.PinsOnlyMoveByAcceptance` | client/group_manager.cpp:683-696 | whatever a client does and receives, a pinned box key never changes and a signing key is set at most once, unless the user accepts a new one |
| `GroupTrust.PendingCanBeAccepted` | client/group_manager.cpp:683-696 | after every run of a client, accepting a pending user succeeds |
| `TrustStore.CandidatesKeptExactly` | client/group_manager.cpp:646-655 | a sighting keeps every pending user acceptable exactly when it names a user and a box key |
| `GroupManager.RemoveOld` | client/group_manager.cpp:387-391 | removing by age keeps the surviving chains in order |
| `GroupManager.DropOldest` | client/group_manager.cpp:393-395 | erasing from the front keeps the newest chains up to the cap |
| `GroupManager.Manager.PendingEnvelopes` | client/group_manager.cpp:364-378 | the loop offers the key to each member in turn and records who was served |
| `GroupManager.Manager.PrunePeerChains` | client/group_manager.cpp:380-403 | pruning in place, in any order of peers, computes the specified peer map |
| `GroupManager.Manager.SyncRoomKeys` | client/group_manager.cpp:158-200 | a sync rotates, clears, prunes and distributes as specified |
| `GroupManager.Manager.DistributeNewKeys` | client/group_manager.cpp:271-284 | a tick is a pass over all rooms in any order |
| `GroupManager.Manager.OnKeyAvailable` | client/group_manager.cpp:292-315 | an arriving key releases the envelopes that waited for it |
| `GroupManager.Manager.CheckKey` | client/group_manager.cpp:646-655 | a shown key goes through the store's check, and is recorded as candidate when it differs |
| `GroupManager.Manager.AcceptPeerKey` | client/group_manager.cpp:683-696 | the recorded candidate is pinned and forgotten, if there is one with a key |
| `GroupManager.Manager.ReceiveEnvelope` | client/group_manager.cpp:409-500 | an envelope is refused, answered KEY_CHANGED, ignored as a duplicate, or starts a chain, as specified |
| `GroupManager.Manager.SealMessage` | client/group_manager.cpp:506-531 | sealing uses and advances the room's own key |
| `GroupManager.Manager.OpenMessage` | client/group_manager.cpp:553-627 | opening finds the chain by epoch and key id and changes only that chain, only on success |
| `GroupInvariant.SurvivingSelects` | client/group_manager.cpp:387-391 | pruning keeps exactly the chains that pass the age test, each once and in their old order |
| `GroupInvariant.PruneExact` | client/group_manager.cpp:380-403 | after a sync a peer has an entry exactly when a chain survives, and the entry holds exactly the survivors |
| `GroupInvariant.AgeTest` | client/group_manager.cpp:387-391 | the age test is `c.epoch + 2 >= epoch` below the 64-bit wrap, and fails above it |
| `GroupInvariant.StepOk` | client/group_manager.cpp:158-627 | every operation keeps the room invariant: own key of the current epoch, only members served, non-empty peer lists of at most 6 distinct chains with bounded caches |
| `GroupInvariant.RunOk` | client/group_manager.cpp:158-627 | so does every run |
| `GroupInvariant.SealFailsOnlyWithoutKey` | client/group_manager.cpp:506-522 | in every reachable state sealing succeeds exactly when there is an own key: the "out of date" branch is unreachable |
| `GroupRuns.AtMostOneEnvelope` | client/group_manager.cpp:271-378 | between two clears, whatever happens, nobody is sent the key twice, and exactly the served users are recorded |
| `GroupRuns.AtMostOneEnvelopePerEpoch` | client/group_manager.cpp:158-200 | a rotation and all that follows up to the next clear send at most one envelope per member |
| `GroupRuns.TickServesEveryone` | client/group_manager.cpp:271-284 | after a tick every other member with a usable cached key is served, and a second tick in any order sends and changes nothing |
| `GroupRuns.ExactlyOneEnvelope` | client/group_manager.cpp:158-378 | from a clearing sync through any run without another clear up to a tick, every other member with a usable cached key is sent the key exactly once |
| `KeyExchange.SyncSendsExactly` | client/group_manager.cpp:158-200 | a sync to a new epoch or member list sends the key at once and exactly once to every other member with a usable cached key and to nobody else; a sync that changes nothing sends nothing |
| `KeyExchange.RotationHandsOverStart` | client/group_manager.cpp:166-178 | on a rotation every envelope carries the new key at the start of its chain, to a listed member |
| `KeyExchange.KeyReleasesExactly` | client/group_manager.cpp:292-315 | when a user's key becomes available, exactly the rooms that have an own key, list the user and have not served it send one envelope each, to that user, and record it |
| `KeyExchange.KeyResponseExactly` | client/ftxui_app.cpp:508-530 | a key response releases exactly those envelopes if it passes the trust check, and none otherwise |
| `KeyExchange.TickSendsExactly` | client/group_manager.cpp:271-284 | a tick sends the key once to exactly the members that are due, and records exactly them |
| `KeyExchange.KeysRememberedExactly` | client/group_manager.cpp:480-500 | box keys are remembered from accepted key responses, decrypted direct messages and envelopes that start a chain, and from nothing else |
| `KeyExchange.EnvelopeAnsweredExactly` | client/group_manager.cpp:409-500 | exactly which envelopes are INVALID, KEY_CHANGED or OK, and that pins move only for well-formed ones and rooms only for those that add a chain |
| `KeyExchange.AcceptedIsAnswered` | client/group_manager.cpp:496-500 | having accepted an envelope, a client can serve its sender: its next tick sends the sender the key of every room where it is due |
| `KeyExchange.OpenAnsweredExactly` | client/group_manager.cpp:553-627 | a message is refused for want of any field, chain or pin, and otherwise answered as the chain answers |
| `KeyExchange.NarrowExactly` | client/group_manager.cpp:615-615 | two wire indices are one chain index exactly when they differ by a multiple of 2^32 |
| `KeyExchange.AddsLast` | client/group_manager.cpp:480-493 | a new chain goes to the end of its sender's list at position zero, pushes out the oldest of six, and changes nothing else of any room |
| `KeyExchange.OpenChangesOneChain` | client/group_manager.cpp:553-627 | opening changes at most the one chain it opened on, and neither pins nor keys nor any other room |
| `KeyExchange.SealChangesOwnKey` | client/group_manager.cpp:506-531 | sealing succeeds exactly when there is an own key, moves it one position on and changes nothing else |
| `KeyExchange.RoomsAreIndependent` | client/group_manager.cpp:158-627 | operations on one room leave every other room as it is, and leaving removes that room and nothing else |
| `GroupRuns.MadeFor` | client/group_manager.cpp:317-362 | an envelope can be made exactly when there is a key and a usable box key, and it names room, recipient, epoch and key id |
| `KeyExchange.EnvelopeContents` | client/group_manager.cpp:317-362 | an envelope boxes the current chain key, room, epoch, key id and both sender keys under the member's cached key, and signs the whole header |
| `GroupRuns.StepKeepsConsumed` | client/group_manager.cpp:480-493 | no step that retains a chain brings back an index consumed on it |
| `GroupRuns.ReplayRefused` | client/group_manager.cpp:587-627 | after an opened message, no run that retains its chain (duplicate envelopes included) lets that index open again |
| `GroupRuns.ForgottenChainRestarts` | client/group_manager.cpp:480-493 | a trusted envelope for a chain that is held changes nothing about it; for one that is not held it starts the chain from position zero |
| `Replay.HeldThroughout` | client/group_manager.cpp:480-493 | without a redelivery of its envelope, a chain held at the end of a run was held all along |
| `Replay.OncePerDelivery` | client/group_manager.cpp:480-627 | without a redelivery of its envelope, no run whatever lets an opened index of a chain open again, whether the chain is kept or dropped |
| `Replay.ReplayExactly` | client/group_manager.cpp:480-627 | after an opened message and any run (redeliveries of the envelope and other openings included) that accepts no new key of the sender, a replay opens, and to the same text, if and only if the chain is held and `has_index` holds of the index |
| `Replay.ConversationReplays` | client/group_manager.cpp:480-493 | once a chain was dropped and its envelope delivered again, a whole recorded conversation of any length is answered as the first time |
| `Replay.DroppedExactly` | client/group_manager.cpp:380-403 | a step drops a held chain if and only if it leaves the room, syncs it to an epoch the chain does not survive, or adds a newer chain of the same sender to a full list of which it is the oldest |
| `Replay.ForgettingReopens` | client/group_manager.cpp:480-493 | each of the three ways to drop a chain, followed by its envelope, lets every opened message up to index 200 open a second time |
| `Replay.DeliveredTwice` | client/group_manager.cpp:480-493 | between two clients: envelope, message, leaving the room or a sync three epochs on, the same envelope, the same message; the text is delivered twice |
| `GroupDelivery.SealsAlongRun` | client/group_manager.cpp:506-531 | whatever else the sender does, as long as it keeps its key its seals are the messages of its chain, in order |
| `GroupDelivery.OpenIsChainOpen` | client/group_manager.cpp:553-627 | opening at the client is opening on the chain that epoch and key id select, under the pinned signing key |
| `GroupDelivery.DeliveriesAlongRun` | client/group_manager.cpp:553-627 | whatever else the receiver does, as long as it keeps the chain and accepts no new key for the sender, deliveries are answered as on the chain alone |
| `GroupDelivery.EnvelopeAccepted` | client/group_manager.cpp:317-500 | between acquainted clients the envelope is made, accepted, and starts the receiver at the sender's current chain key, with the sender's signing key pinned |
| `GroupDelivery.ClientsDeliver` | client/group_manager.cpp:317-627 | end to end: with an envelope made before the first seal, and both clients interleaving any other operations that keep the key and the chain, everything the one seals is delivered by the other intact and exactly once under bounded reordering, amid replays and forgeries |
| `GroupDelivery.LateEnvelopeDeliversNothing` | client/group_manager.cpp:341-343 | an envelope made by a sender at any position of its chain but the start is accepted, and its receiver opens none of the chain's messages in any run that keeps the chain |
| `Membership.Index.AddExact` | server/network/connection_manager.cpp:179-184 | adding adds exactly one pair and keeps both tables inverse |
| `Membership.Index.RemoveOneExact` | server/network/connection_manager.cpp:187-202 | removing removes exactly one pair and leaves no empty room |
| `Membership.Index.RemoveAllExact` | server/network/connection_manager.cpp:204-218 | removing a connection removes exactly its pairs |
| `Membership.ConnectionManager.AddToRoom` | server/network/connection_manager.cpp:179-184 | the in-place update of both tables |
| `Membership.ConnectionManager.RemoveFromRoom` | server/network/connection_manager.cpp:187-202 | the in-place removal, erasing empty entries |
| `Membership.ConnectionManager.RemoveFromAllRooms` | server/network/connection_manager.cpp:204-218 | the erasing loop removes the connection from each of its rooms |
| `Membership.ConnectionManager.Remove` | server/network/connection_manager.cpp:16-42 | a removed connection is gone from both room tables |
| `Membership.ConnectionManager.GetRooms` | server/network/connection_manager.cpp:220-230 | the list has each of the connection's rooms once |
| `Membership.RoomManager.BroadcastMembership` | server/commands/room_manager.cpp:144-164 | the epoch is bumped and one frame with the current members goes to the live connections of the room |
| `Membership.RoomManager.JoinRoom` | server/commands/room_manager.cpp:9-36 | joining creates the room if needed, adds the connection, sets its current room and announces |
| `Membership.RoomManager.LeaveRoom` | server/commands/room_manager.cpp:38-68 | leaving removes, falls back to another joined room or none, and announces |
| `Membership.RoomManager.LeaveAllRooms` | server/commands/room_manager.cpp:70-91 | leaving everything announces each left room |
| `Membership.ReachableOk` | server/commands/room_manager.cpp:9-164 | in every reachable state the tables are inverse without empty rooms, current rooms are joined rooms, each room's broadcast epochs strictly increase, and the frame of the current epoch lists exactly the current members |
| `MembershipRuns.JoinExactly` | server/commands/room_manager.cpp:9-36 | joining adds exactly this membership, makes the room current, and announces the next epoch to exactly the live connections in the room, the newcomer included |
| `MembershipRuns.LeaveExactly` | server/commands/room_manager.cpp:38-68 | leaving removes exactly this membership whatever the current room is, moves the current room only if it was the one left (to another joined room, or none), and announces the next epoch without the leaver |
| `MembershipRuns.LeaveAllExactly` | server/commands/room_manager.cpp:70-91 | leaving everything ends exactly this connection's memberships and announces each left room once |
| `MembershipRuns.DisconnectMoves` | server/main.cpp:94-107 | a connection that goes away leaves everything, is told nothing more and is listed nowhere |
| `MembershipRuns.StepExactly` | server/commands/room_manager.cpp:9-91 | every step makes members exactly of those who enter and ends exactly the memberships that exit, and every frame it sends names and reaches exactly the live members |
| `MembershipRuns.ReachedWhileMember` | server/commands/room_manager.cpp:144-164 | over every run, as long as a connection does not leave a room every frame of the room reaches it and lists its user |
| `MembershipRuns.UnlistedUntilJoined` | server/commands/room_manager.cpp:38-68 | over every run, once a user is out of a room no frame of the room lists the user until one of its connections joins |
| `MembershipRuns.CurrentFrameTells` | server/commands/room_manager.cpp:111-123 | in every reachable state the frame of a room's current epoch names and reaches exactly its live connections |
| `Membership.EpochDeterminesMembers` | server/commands/room_manager.cpp:144-164 | two frames of one room with the same epoch are the same frame |
| `EpochProtocol.EnvelopesStayInEpoch` | client/group_manager.cpp:364-378 | in every run each envelope created for an epoch by a user outside the coalition is from a member to a member of the list announced for that epoch, under the directory keys of both |
| `EpochProtocol.SealedKeysStaySecret` | client/group_manager.cpp:158-200 | in every run, with every injection, a coalition outside an epoch's list cannot derive the key of any message sealed in that epoch |
| `EpochProtocol.OutsiderNeverOpens` | client/group_manager.cpp:553-597 | a user absent from an epoch's list never opens a message sealed in it, under whatever room, sender or header it is presented |
| `EpochProtocol.RemovedNeverOpens` | server/commands/room_manager.cpp:38-68 | whoever has left a room or has not joined it derives no key and opens no message of any epoch announced until one of its connections joins |
| `EpochProtocol.RunConfined` | client/group_manager.cpp:158-627 | the confinement invariant holds in every state of every run of server, clients and hostile network |
| `EpochProtocol.ProtectedUnknown` | common/crypto/room_crypto.cpp:490-645 | nothing the coalition derives descends from a chain key drawn for an epoch without its members |
| `EpochProtocol.SyncMakes` | client/group_manager.cpp:158-200 | a sync leaves the key of its epoch, drawn now or kept, and emits only envelopes of that key to listed members |
| `EpochProtocol.ReadersKnow` | common/crypto/room_crypto.cpp:561-645 | who can read one envelope of a chain derives all its later message keys |
| `Persistence.ReadSkipped` | common/crypto/room_crypto.cpp:413-422 | the loading loop stops adding at 200 entries, passes over keys of the wrong size and fails on an entry without a number |
| `Persistence.LoadSkippedExactly` | common/crypto/room_crypto.cpp:413-422 | the cache loads exactly when every entry has a number for a name and a string for a value; it then holds only keys of the right size under their own index, and all of them unless it is full |
| `Persistence.ParseIndexExactly` | common/crypto/room_crypto.cpp:415-415 | spaces are skipped, a sign is honoured, trailing text is ignored, the value must fit 64 bits and is cut to 32 |
| `Persistence.SaveInbound` | common/crypto/room_crypto.cpp:382-393 | the written document represents the chain, in any order of the cache |
| `Persistence.InboundRoundTrip` | common/crypto/room_crypto.cpp:382-426 | a written chain loads back to itself exactly when its keys have the right size and its cache is within the cap |
| `Persistence.OutboundRoundTrip` | common/crypto/room_crypto.cpp:202-249 | a written own key loads back to itself exactly when it has the right size and a valid key id |
| `Persistence.SaveRooms` | client/group_manager.cpp:93-132 | the written document represents every room, in any order |
| `Persistence.RoomRoundTrip` | client/group_manager.cpp:28-91 | a room that satisfies the invariant loads back to itself |
| `Persistence.LoadRoomsExactly` | client/group_manager.cpp:42-88 | loading succeeds exactly when every room loads, and otherwise keeps the rooms before the first that does not |
| `Persistence.UnusableIsPassedOver` | client/group_manager.cpp:64-76 | entries without a loadable chain are passed over, and a room without fields is an empty room |
| `Persistence.FieldsReadExactly` | client/group_manager.cpp:46-57 | the defaults of absent members, the conversions of numbers, and exactly which values fail |
| `Persistence.LoadFileAnswers` | client/group_manager.cpp:33-41 | a missing file is no error; one that cannot be read or has no rooms is one, and changes nothing |
| `Persistence.SavedRoomsLoad` | client/group_manager.cpp:28-152 | after every run of a client that satisfies the invariant (a new or a reloaded one), loading what was saved into a fresh manager restores all rooms exactly |
| `Persistence.PinsRoundTrip` | common/crypto/trust_store.cpp:105-157 | written pins load back exactly when each has a box key |
| `Persistence.SaveTrust` | common/crypto/trust_store.cpp:136-157 | the written document represents the pins, in any order |
| `Persistence.SavedTrustLoads` | common/crypto/trust_store.cpp:105-157 | after every run of a client whose pins have box keys (a new or a reloaded one), loading what was saved restores all pins exactly |
| `Persistence.LoadTrustAnswers` | common/crypto/trust_store.cpp:105-121 | without a readable object the pins stay; an object without users drops them all |
| `Persistence.LoadPinsExactly` | common/crypto/trust_store.cpp:117-134 | pins load until the first malformed entry, and what was loaded before it stays |
| `Persistence.PinReadExactly` | common/crypto/trust_store.cpp:122-130 | exactly which entries are malformed |
| `Restart.RestartIsTransparent` | client/group_manager.cpp:28-152 | after every run, save and load into a fresh manager: over every further run that accepts none of the key changes pending at the restart, every operation is answered as without the restart |
| `Restart.RunAlike` | client/group_manager.cpp:158-696 | two clients with the same identity, pins and chains, whatever keys they have cached and whomever they have served, answer every run alike in which nobody with differing candidates is accepted |
| `Restart.RestartInvisibleExactly` | client/group_manager.cpp:28-152 | a restart is invisible over every further run, acceptances included, if and only if no changed key was waiting for acceptance |
| `Restart.CandidateLost` | client/group_manager.cpp:683-696 | for every waiting key and every envelope under it: accepting and then receiving succeeds and passes the trust check without a restart, and is refused and answered KEY_CHANGED after one |
| `Restart.RestartsCompose` | client/group_manager.cpp:28-152 | however often a client is restarted, a life without acceptances is answered like one run, and the invariant holds throughout |
| `Framing.LengthRoundTrip` | common/protocol/framing.hpp:62-67 | header bytes and length determine each other |
| `Framing.Decoder.Pass` | common/protocol/framing.hpp:81-124 | one pass of the loop absorbs one chunk |
| `Framing.Decoder.Feed` | common/protocol/framing.hpp:77-127 | the chunk-copying loop terminates and computes what consuming one byte at a time computes, including the state left by an error |
| `Framing.Decoder.Reset` | common/protocol/framing.hpp:129-134 | a reset decoder is idle |
| `Framing.RunSplit` | common/protocol/framing.hpp:77-127 | feeding a stream in two parts is feeding it at once |
| `Framing.ChunkingInvariance` | common/protocol/framing.hpp:77-127 | for every stream and every split, success and final state are those of one feed; so are the messages if there is no error, and otherwise a prefix was delivered |
| `Framing.ErrorSticks` | common/protocol/framing.hpp:91-116 | after an error every non-empty feed fails and changes nothing |
| `Framing.FramesDecode` | common/protocol/framing.hpp:43-127 | encoded payloads decode back in order |
| `Framing.DecodedIsFrames` | common/protocol/framing.hpp:43-127 | a stream that is accepted and ends idle is the encoding of what it delivered |
| `Framing.MessagesRoundTrip` | common/protocol/framing.hpp:19-40 | encoded messages come back in order, however the stream is cut |
| `Framing.EmptyFrameFailsLate` | common/protocol/framing.hpp:98-120 | an empty frame is taken silently and makes exactly the feeds with a further byte fail |
| `Framing.EncodableExactly` | common/protocol/framing.hpp:43-59 | a payload is encoded exactly when it has at most 65536 bytes, which is when the decoder accepts its header |
| `RateLimiter.Limiter.CheckKey` | server/session/rate_limiter.hpp:23-55 | a check initialises, refills and spends one bucket in place |
| `RateLimiter.Limiter.Sweep` | server/session/rate_limiter.hpp:77-90 | the erasing loop removes exactly the stale buckets |
| `RateLimiter.Conservation` | server/session/rate_limiter.hpp:23-55 | allowed checks plus remaining tokens are at most the initial tokens plus what was earned; tokens stay in [0, burst] |
| `RateLimiter.MoreThanHalfCredited` | server/session/rate_limiter.hpp:35-46 | truncation to milliseconds credits more than half of what was earned, before capping |
| `RateLimiter.WindowBound` | server/session/rate_limiter.hpp:23-55 | one bucket allows at most burst + rate * (w + 1 ms) checks in a window of length w |
| `RateLimiter.RateBound` | server/session/rate_limiter.hpp:23-55 | the same for a key after any checks of any keys |
| `RateLimiter.PacedIsAllowed` | server/session/rate_limiter.hpp:23-55 | who leaves enough whole milliseconds between checks to earn a token each is never refused |
| `RateLimiter.EvictionIsTransparent` | server/session/rate_limiter.hpp:77-90 | if burst <= (max_age + 1) * rate, cleanups anywhere in a run change no answer |
| `RateLimiter.EvictionTransparencyExactly` | server/session/rate_limiter.hpp:23-90 | cleanups never change an answer in any run if and only if burst <= (max_age + 1) * rate |
| `LoginLockout.Handler.HandleLogin` | server/commands/command_handler.cpp:162-240 | one login attempt: locked, failed and counted, refused, or completed and cleared |
| `LoginLockout.AnswersExactly` | server/commands/command_handler.cpp:162-240 | in every run each login is answered AccountLocked exactly when five failures are on record since the user's last completed login and the last is less than 900 s old, and otherwise AuthFailed, NotAdmitted or Welcome exactly as the password fails, a later step refuses or the login completes |
| `LoginLockout.FiveMoreAfterWelcome` | server/commands/command_handler.cpp:236-240 | after a completed login the account locks again only after five further failures |
| `LoginLockout.FailureBound` | server/commands/command_handler.cpp:162-194 | within t of any failure there are at most 5 + t / 900 s failures in all, from that one on, without a completed login |
| `LoginLockout.BoundAttained` | server/commands/command_handler.cpp:162-194 | for every k a run with 5 + k failures within k lockouts of the first |

## Left out

- libsodium, JSON printing and parsing and base64 decoding at the level of bytes: they are ideal terms, tables and length formulas; signing inputs are modelled as strings in `SigningInputs.dfy` and as structured terms elsewhere.
- Fixed-size secret-key buffers: the size checks on our own secret keys always succeed in the model.
- Nonces: one nonce parameter stands for all nonces drawn within one call; no property depends on nonces being distinct.
- GroupManager.Manager.SealMessage: does not model the cache of own texts by message id, which serves the display of echoes and is read by no modelled decision.
- The key-request counters and the room summaries of the client: bookkeeping for the user interface that no modelled decision reads.
- Direct messages: only their effect on pins and cached keys is modelled; whether one decrypts is a parameter.
- `handle_room_key` and `handle_encrypted_message`: the network of `EpochProtocol.dfy` may deliver any envelope ever sent, to anyone and any number of times, and presents arbitrary messages to be opened, so the server's relay checks are not needed; only that it names the authenticated sender of an envelope is used.
- Rename: it changes member names without a new epoch; the session index is left out with it.
- Threads and the non-atomic interleavings inside `join` and `leave`: every operation is one atomic step; the join reply repeats the frame just announced.
- Membership.RoomManager.BroadcastMembership: member lists are sets, so order and repetition of names in the frame are not stated; the action and user named in the frame are for display.
- Membership.RoomManager.JoinRoom: does not model the presence notice, which is displayed only.
- Membership.RoomManager.LeaveRoom: does not model the presence notice, which is displayed only.
- Membership.RoomManager.LeaveAllRooms: does not model the presence notices, which are displayed only.
- Membership.ConnectionManager.Remove: does not model the username index, whose entries go stale when a user is renamed.
- Epoch bumps beyond 2^64: server epochs are unbounded, and a client syncs only to epochs that fit 64 bits.
- GroupRuns.ReplayRefused: stated for indices below 2^32 - 1, because the chain position wraps there.
- Replay.ReplayExactly: stated for indices below 2^32 - 1, for the same reason.
- RoomDelivery.OpensAtMostOnce: stated for indices below 2^32 - 1, for the same reason.
- RoomDelivery.BoundedReorderingDelivers: stated for fewer than 2^32 - 1 messages on a chain, for the same reason.
- The loops of loading other than that over skipped keys: they are left folds.
- Restart.RunAlike: which envelopes are sent again after a restart depends on the key cache and is not compared.
- File system errors, file permissions, UTF-8 validity of names, and memory wiping.
- Double rounding in the rate limiter: tokens are reals. `remaining`, `remove`, `clear` and the two-level limiter are left out.
- RateLimiter.RateBound: assumes clock readings above the clock's epoch, since a bucket that is empty at reading zero starts over.
- Storage, sockets, timers, TLS, password hashing, logging, configuration, user interface.
