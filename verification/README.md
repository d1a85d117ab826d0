# Verification of an end-to-end encrypted messenger

A Dafny model of the protocol code of the messenger, with proofs about whole runs of it.

* **Sessions** (`Crypto`, `RatchetSpec`, `SessionState`, `SessionRuns`, `Authenticity`, `ForwardSecrecy`,
  `ChainKeys`, `LateMessages`, `LateRuns`): the Double Ratchet of `services/crypto-core`. A session is a mutable
  object; what each method does to it is a function on session values, and the theorems are about runs of those
  functions. Cryptography is symbolic: keys are terms, so two keys are equal exactly when they were derived in the
  same way.
* **Two parties** (`TwoParty`, `TwoPartyRuns`, `Fifo`): two sessions over a network that delays, reorders,
  repeats and loses messages.
* **Devices** (`Handshake`, `DeviceState`, `Published`, `Snapshot`, `SnapshotMethods`, `Unicode`, `JsonNames`): the
  X3DH handshake, the ledger of one-time prekeys, saving and restoring.
* **Browser twin** (`OrderedCache`, `BrowserSession`, `BrowserRuns`): the same ratchet with oldest-first eviction.
* **Transport** (`Framing`, `WsConn`): the hand-written WebSocket frames of RFC 6455, sections 5.2 and 5.3.
* **Delivery** (`Queue`, `MessageStore`, `QueueRuns`): the table of pending messages and the loop that pushes them.
* **Conversation** (`Client`, `ClientState`, `Conversation`): two clients, the queue and their connections, end to end.
* **Prekey directory** (`PrekeyDirectory`, `PrekeyStore`): one-time prekeys under concurrent transactions.
* **Unlock throttle** (`UnlockThrottle`, `KeyManager`) and **refresh tokens** (`RefreshTokens`, `TokenService`).

Randomness is a parameter (a seed stands for the bytes drawn), clock readings are parameters, and which entry a
full Go map gives up is a free choice that every theorem quantifies over.

## What the proofs found out about the code

* A message is decrypted exactly when its key is stored, or it is at or ahead of the index of the current chain,
  or its chain is new (`TwoPartyRuns.DeliveryExact`). A message of an older chain that was not stored does more
  than fail: the ratchet takes a turn that the peer never takes. From then on, whatever both sides do, a message
  sent before opens only while its own key, stored before, is still in the cache, and nothing that the peer sends
  later ever opens (`LateRuns.LateDeliveryEndsIt`).
  The late call itself overwrites good keys: it stores the keys of the wrong chain under the names of the
  messages before it, so right afterwards a message opens exactly if its key was stored, it is not one of those,
  and the call did not evict it (`LateMessages.AfterLateExactly`).
* PN is always 0 in the headers the code emits, and receiving never reads it, unlike the Double Ratchet
  document, section 3.5 (`SessionRuns.HeadersCarryPnZero`, `ChainKeys.KeyIgnoresPnAndNonce`).
* The handshake travels with the first envelope only. If that envelope is lost, a recipient without a session
  refuses every later one, whatever the sender does in between (`Clients.FirstEnvelopeIsNeeded`).
* Handling a first envelope uses up the one-time prekey it names whenever the device has it, even when accepting
  the handshake, decoding the header or decrypting then fails (`Clients.InboundTouchesOneConversation`).
* A session saved as JSON loses stored keys: their names are raw bytes, and JSON keeps exactly those names that
  are UTF-8 (`JsonNames.JsonKeepsExactly`). The name of message 128 of a chain never is
  (`JsonNames.Message128IsLost`).
* In the browser a long jump keeps exactly the last 64 keys in every honest state (`BrowserRuns.HonestJump`), but
  not in every state: three forged headers and a jump over 64 messages lose one of the 64
  (`BrowserRuns.ForgedHeadersDisturbJump`). The loop keeps the newest 64 throughout exactly if every name ahead
  that is stored already stands so far in front that it is given up before its turn (`BrowserRuns.JumpExactly`).
* At the end of a chain of 2^32 messages the Go index wraps around and the browser's does not
  (`OrderedCache.ExhaustedChainDiffers`).
* A server frame with a payload above 2^31 - 1 bytes is written without complaint and refused by the client
  (`Framing.ServerFrameRoundTrip`).
* A refresh that read its session before a revocation still answers with a new pair of tokens, because the
  rotation then matches no row and reports no error. The new refresh token is good exactly if there was no
  revocation in between (`RefreshTokens.RotationIsGoodUnlessRevoked`), and otherwise neither token ever is
  (`RefreshTokens.LateRefreshAnswersInVain`).
* A refresh token has no device and no scope claim, but nothing marks its kind, and `VerifyAccess` takes it for an
  access token as long as it is unexpired and its session is alive (`RefreshTokens.RefreshTokensVerify`), even
  after it was rotated out (`RefreshTokens.RotatedOutStillVerifies`).

## Model

| member | source | states |
|---|---|---|
| SessionStates.SessionState.Encrypt | services/crypto-core/ratchet.go:22-48 | Encrypting turns the ratchet first if there is no sending chain, seals under the message key of the current step, and moves the chain on; a failed call leaves the session as it was |
| SessionStates.SessionState.Decrypt | services/crypto-core/ratchet.go:52-102 | For some legal choice of evicted entries, the call does what the ratchet specification says, on every path: stored key, refused point, duplicate, skipped stretch, failed opening |
| SessionStates.SessionState.RotateRatchetOnSend | services/crypto-core/ratchet.go:106-131 | A sending turn derives the next root and chain from a fresh key pair; an unset or refused remote key is an error that changes nothing |
| SessionStates.SessionState.RotateRatchetOnRecv | services/crypto-core/ratchet.go:135-160 | A receiving turn happens exactly for a new sender key, drops the sending chain, and changes nothing on error |
| SessionStates.SessionState.StoreSkippedKey | services/crypto-core/ratchet.go:215-227 | Storing into a full cache first gives up one arbitrary entry; into a cache with room, none |
| SessionStates.SessionState.ConsumeSkipped | services/crypto-core/ratchet.go:229-239 | A stored key is handed out once and removed; a missing one changes nothing |
| Authenticity.OpensOnlyUnderItsHeader | services/crypto-core/ratchet.go:202-206 | What Encrypt sealed opens, in any session and after any evictions, only under a header with the sender key, previous length and index it was given, and gives the plaintext that was encrypted |
| Authenticity.AlteredHeaderFails | services/crypto-core/ratchet.go:202-206 | Under the genuine message key, opening with any of the three header fields altered fails; the nonce field is not authenticated |
| Authenticity.DecryptExactly | services/crypto-core/ratchet.go:52-102 | A plaintext is answered exactly for its seal under the message key found for the header, with that key's nonce and the three fields as associated data; any other ciphertext fails to open after the session has moved on |
| Authenticity.EncryptExactly | services/crypto-core/ratchet.go:22-48 | Encrypting fails exactly when there is no sending chain and the remote key is unset or refused; otherwise the header names the open chain and its index, or a new pair at index 0 |
| Authenticity.TurnsExactly | services/crypto-core/ratchet.go:106-160 | Every field after a turn: the new root and chain from the own private key and the remote key, the pair drawn or the key adopted, the previous length, and what stays |
| Authenticity.RefusedSenderKey | services/crypto-core/ratchet.go:135-145 | A new sender key that X25519 refuses is an error that changes nothing |
| Authenticity.CountedKeysAreUsed | services/crypto-core/ratchet.go:31-97 | The keys that the single-session runs count are those that sealed and opened |
| SessionRuns.KeysServeOnce | services/crypto-core/ratchet.go:22-102 | From a fresh session, under any sequence of calls and any headers, no message key is used twice, for sealing or for opening, through skips, evictions, turns and failures |
| SessionRuns.StepUsesNewKey | services/crypto-core/ratchet.go:31-97 | Every call that uses a key uses one never used before, and keeps the invariant that the session can derive no used or stored key again and that no stored key was used |
| SessionRuns.OpensAtMostOnce | services/crypto-core/ratchet.go:52-102 | From a fresh session, a ciphertext that was opened never opens again, under any header and whatever calls with whatever headers come in between |
| ForwardSecrecy.UsedKeysAreGone | services/crypto-core/ratchet.go:22-181 | After any run from a fresh session, with any headers, no message key that was used can be computed, by any steps of the key schedule and with any Diffie-Hellman outputs, from all the keys the session holds |
| SessionRuns.CacheStaysBounded | services/crypto-core/ratchet.go:215-227 | From a fresh session the cache never holds more than 64 keys, whatever headers arrive |
| SessionRuns.RoomMeansNoEviction | services/crypto-core/ratchet.go:219-224 | While old and new keys together number at most 64, nothing is evicted |
| SessionRuns.EvictionStartsAt64 | services/crypto-core/ratchet.go:215-227 | Storing gives up an entry exactly when the cache holds 64 or more |
| SessionRuns.StoringWithoutEviction | services/crypto-core/ratchet.go:80-85 | Without evictions, skipping stores exactly the keys of the messages passed over, each under its own name, and keeps the others |
| SessionRuns.HeadersCarryPnZero | services/crypto-core/ratchet.go:106-160 | Every header that a session emits, after any run, carries a previous-chain length of 0 |
| SessionRuns.DuplicateExactly | services/crypto-core/ratchet.go:59-79 | The duplicate error comes exactly for a passed index of the current chain whose key is not stored, and leaves the session as it was |
| SessionRuns.RedeliveryIsHarmless | services/crypto-core/ratchet.go:59-97 | Once a message of the current receiving chain was processed, delivering it again is a duplicate and changes nothing, for as long as the chain lasts |
| ChainKeys.KeyIgnoresPnAndNonce | services/crypto-core/ratchet.go:59-97 | The message key chosen for a header depends on the sender key and the index alone |
| ChainKeys.CacheRefinesChains | services/crypto-core/ratchet.go:59-97 | In every reachable honest state the receiving key is the index-fold step of its chain's start, every stored key is the one its name says, and receiving uses the key function of (sender key, index) |
| LateRuns.LateDeliveryEndsIt | services/crypto-core/ratchet.go:68-101 | In every run of two honest parties a late message of an older chain fails; after any further calls of both sides a message sent before opens exactly while the cache still holds its own key, which was stored before the late one; and no message sent later opens |
| LateMessages.AfterLateExactly | services/crypto-core/ratchet.go:80-97 | Right after the late message, a message sent before opens exactly if its key was stored, it is of another chain or not before the late one, and it was not evicted; with room for the passed keys nothing is evicted |
| TwoParty.SendKeepsInv | services/crypto-core/ratchet.go:22-48 | A send by either party keeps the two-party invariant: epochs linked by single root steps, both parties on the last or the last but one, every message sealed under its chain's key |
| TwoParty.FollowingKeepsParty | services/crypto-core/ratchet.go:135-160 | A sender key not seen before belongs to the very next epoch, and turning to it keeps the receiver's invariant |
| TwoParty.DeliverOnChain | services/crypto-core/ratchet.go:77-101 | A message at or ahead of the current index decrypts to its plaintext and keeps the receiver's invariant, whatever the cache evicts |
| TwoParty.DeliverStored | services/crypto-core/ratchet.go:59-66 | A message whose key is stored decrypts to its plaintext and keeps the receiver's invariant |
| TwoParty.DeliverNextChain | services/crypto-core/ratchet.go:68-101 | The first message to arrive of the peer's next chain, at any index, decrypts and brings the receiver to that epoch |
| TwoParty.DeliverLate | services/crypto-core/ratchet.go:68-101 | A message of an older chain whose key is not stored fails to open |
| TwoPartyRuns.DeliveryExact | services/crypto-core/ratchet.go:52-102 | In every reachable state a genuine message decrypts to its plaintext exactly when it is stored, ahead on the current chain, or on a new chain; otherwise it is a duplicate (current chain) or fails to open (older chain) |
| TwoPartyRuns.EveryDeliveryDecrypts | services/crypto-core/ratchet.go:22-160 | After a handshake, for every interleaving of sends and deliveries with any reordering inside a chain, if older-chain messages arrive only when overtaken and at most 64 are overtaken at a time, every delivery returns exactly the plaintext, and every repetition the duplicate error |
| TwoPartyRuns.EverySendIsSent | services/crypto-core/ratchet.go:22-48 | In every run without late deliveries no Encrypt call fails, and each party's messages on the network are exactly its plaintexts in order |
| TwoPartyRuns.RunsStayInLockstep | services/crypto-core/ratchet.go:106-160 | In every such run at most one party lacks a sending chain, and the roots are equal or exactly one root step apart: the sides never turn concurrently |
| TwoPartyRuns.ExecKeepsInv | services/crypto-core/ratchet.go:22-160 | Every run without late deliveries keeps the two-party invariant |
| Fifo.FifoSend | services/crypto-core/ratchet.go:22-48 | A send appends one message and keeps the two parties in the state where everything delivered so far came in order |
| Fifo.FifoDeliver | services/crypto-core/ratchet.go:52-102 | When messages arrive in the order of sending, the next one always decrypts to its plaintext and nothing is ever skipped |
| BrowserSessions.BrowserSession.Decrypt | frontend/src/crypto-core/ratchet.ts:42-87 | For every header the call does what the specification with oldest-first eviction and an index without wrap-around says, and keeps the insertion order in step with the map |
| BrowserSessions.BrowserSession.SkipTo | frontend/src/crypto-core/ratchet.ts:67-72 | The loop stores every key passed over, each under its name, giving up the oldest entry whenever the map is full |
| BrowserSessions.BrowserSession.StoreSkippedKey | frontend/src/crypto-core/ratchet.ts:154-170 | Storing into a full cache gives up the entry inserted first |
| BrowserSessions.BrowserSession.ConsumeSkipped | frontend/src/crypto-core/ratchet.ts:172-183 | A stored key is handed out once, and leaves the map and the insertion order |
| BrowserSessions.BrowserSession.RotateRatchetOnRecv | frontend/src/crypto-core/ratchet.ts:106-123 | The browser's receiving turn is the Go one and leaves the cache alone |
| OrderedCache.BrowserRefinesGo | frontend/src/crypto-core/ratchet.ts:42-87 | Every call of the browser's Decrypt on a chain with indices left is one of the behaviours that Go's arbitrary eviction allows |
| OrderedCache.ExhaustedChainDiffers | frontend/src/crypto-core/ratchet.ts:64-78 | On a chain that has used all 2^32 indices the browser reports duplicates and changes nothing, which Go never does |
| BrowserRuns.CacheKeepsNewest | frontend/src/crypto-core/ratchet.ts:154-183 | From a session with an empty cache, after any calls with any headers, the map holds exactly the newest of the keys stored and not consumed, a suffix in insertion order, at most 64 |
| BrowserRuns.HonestJump | frontend/src/crypto-core/ratchet.ts:67-72 | In every reachable honest state a Decrypt call leaves the newest 64 of the old and the passed keys, so a jump of 64 or more leaves exactly the last 64 passed |
| BrowserRuns.JumpExactly | frontend/src/crypto-core/ratchet.ts:67-72 | For every state and header: the loop keeps the newest 64 of the old and the passed keys store after store exactly if the names ahead that are stored already are all given up in time, a condition on the cache before the call; then the call keeps the newest, and after a jump of 64 or more exactly the last 64 |
| BrowserRuns.ForgedHeadersDisturbJump | frontend/src/crypto-core/ratchet.ts:154-170 | From any session with an empty cache, three forged headers reach a state in which a Decrypt call that jumps over 64 messages does not keep the last 64 |
| OrderedCache.RetainedIsSuffix | frontend/src/crypto-core/ratchet.ts:154-183 | Over any stores and consumptions, repeated names included, the retained keys are a suffix of the unconsumed ones in insertion order, at most 64 of them |
| Handshake.X3dhAgreement | services/crypto-core/session.go:17-184 | For all devices, ephemerals and bundles with or without a one-time prekey, both sides derive the root from the Diffie-Hellman outputs of section 3.3 of the X3DH document in its order, each one's chain stands where the other expects it, each knows the other's identity and the one-time ID, and the one-time prekey is gone |
| Handshake.SignatureIsChecked | services/crypto-core/session.go:114-122 | For all devices, bundles and seeds, the signature error comes exactly when the bundle's signature is no signature of its signed prekey by the signer of its verification key |
| Handshake.InitExactly | services/crypto-core/session.go:17-71 | With a good signature a session starts exactly when X25519 refuses none of the keys used |
| Handshake.AcceptExactly | services/crypto-core/session.go:75-112 | A handshake is accepted exactly when the one-time prekey it names is live and X25519 refuses neither of its keys; the error says which |
| Published.PublishedBundlesServe | services/crypto-core/core.go:98-130 | In every life of a device with fewer than 2^32 issues, a published bundle has the identity key, the signed prekey and its signature in their places, and each of its one-time keys is the public half held live under its ID; so a peer's handshake on it agrees |
| Published.RotatedIsOk | services/crypto-core/core.go:84-93 | A device whose pairs and signature are in order stays so when its signed prekey is replaced by the pair drawn, signed by its own key |
| Published.LifeIsOk | services/crypto-core/core.go:52-130 | Over any life of a generated device with fewer than 2^32 issues every stored pair is a pair, the signed prekey is signed by the device, the ledger holds, and the keys are those of its seeds |
| Handshake.OneTimeLedger | services/crypto-core/core.go:98-130 | Over any life of a device with fewer than 2^32 issues, IDs rise strictly, the issued IDs are the disjoint union of live and consumed ones, and a consumed ID is refused for good |
| Handshake.RunKeepsLedger | services/crypto-core/session.go:82-91 | Publishing and accepting in any order keep the ledger: issued IDs are consecutive, and each is live or consumed |
| DeviceStates.DeviceState.GenerateIdentityKeypair | services/crypto-core/core.go:52-82 | A new device has a signed prekey, no one-time prekeys, and issues IDs from 1 |
| DeviceStates.DeviceState.RotateSignedPrekey | services/crypto-core/core.go:84-93 | The new signed prekey is signed by the device's own signing key; nothing else changes |
| DeviceStates.DeviceState.PublishPrekeyBundle | services/crypto-core/core.go:98-130 | The loop issues one key for each requested place under consecutive IDs and keeps the private halves; the bundle shows the identity key, the verification key, the signed prekey and its signature; a negative count issues none |
| DeviceStates.DeviceState.InitSession | services/crypto-core/session.go:17-71 | A bundle with a bad signature or a refused point gives the matching error; otherwise a new session object and the handshake for the peer |
| DeviceStates.DeviceState.AcceptSession | services/crypto-core/session.go:75-112 | A missing one-time prekey is an error; a present one is removed before the secret is computed, whether or not that succeeds |
| Snapshot.SessionRoundTrip | services/crypto-core/state.go:139-245 | Restoring a saved session gives the session back, and exactly the snapshots that agree with a saved one up to an empty cache restore to it |
| Snapshot.ReloadingChangesNothing | services/crypto-core/state.go:139-245 | Saving and restoring before every call yields the same ciphertexts, headers, plaintexts and errors for every sequence of calls |
| Snapshot.SnapshotDescribes | services/crypto-core/state.go:139-245 | Each text of a session snapshot is what its name says: the sending chain decides the next header and key, the receiving chain what is a duplicate and what opens, the ratchet pair and the root the next turn, and the cache the skipped keys |
| Snapshot.DeviceSnapshotDescribes | services/crypto-core/state.go:45-137 | Each text of a device snapshot is what its name says: the public halves and the signature appear in the next bundle under the next ID, and the private halves derive the secret of an accepted handshake |
| Snapshot.DeviceRoundTrip | services/crypto-core/state.go:45-137 | A restored device is the saved one |
| Snapshot.DeviceReloadingChangesNothing | services/crypto-core/state.go:45-137 | Saving and restoring a device before every operation yields the same bundles, sessions and errors over every life of it |
| SnapshotMethods.ExportSession | services/crypto-core/state.go:139-164 | The loop over the cache writes every entry, and an empty cache is left out |
| SnapshotMethods.ImportSession | services/crypto-core/state.go:166-228 | A new object is built exactly when every text decodes, and it holds what the texts say |
| JsonNames.JsonKeepsExactly | services/messages/pkg/msgclient/api.go:116-150 | A session saved and read back as JSON, as Marshal and Clone do, finds exactly the stored keys whose names are UTF-8, and has the original entries if and only if all names are; for any coding of the public values in question as distinct 32-byte strings |
| Unicode.Utf8Exactly | services/messages/pkg/msgclient/api.go:116-150 | The byte strings that JSON keeps, given by their sequences as in section 4 of RFC 3629, are exactly the encodings of sequences of Unicode scalar values by section 3 |
| JsonNames.CoercedIsUtf8 | services/messages/pkg/msgclient/api.go:116-150 | What is read back in place of any name is UTF-8; the replacement character is U+FFFD |
| JsonNames.Message128IsLost | services/crypto-core/ratchet.go:241-246 | Whatever the sender key, the name of the key of message 128 is not UTF-8, so a copy by way of JSON loses it |
| Framing.ServerFrameRoundTrip | services/messages/internal/transport/http/router.go:497-531 | The client reads a server frame back with its opcode and payload and leaves what follows, exactly when the payload has at most 2^31 - 1 bytes; a longer one is refused |
| Framing.ClientFrameRoundTrip | services/messages/pkg/msgclient/client.go:836-881 | For every opcode below 16, payload and mask, reading the client's own frame gives opcode and payload back, under the same limit |
| Framing.ServerFrameOnWire | services/messages/internal/transport/http/router.go:497-531 | The bytes of a server frame as section 5.2 of RFC 6455 draws them: final bit and opcode, the length in its one, three or nine bytes with the most significant first, no mask bit, the payload |
| Framing.ClientFrameOnWire | services/messages/pkg/msgclient/client.go:836-881 | The bytes of a client frame: the same with the mask bit, the mask, and byte i of the payload under mask byte i mod 4 |
| Framing.FragmentsAreRefused | services/messages/pkg/msgclient/client.go:756-776 | A complete frame without the final bit is refused as a fragment, masked or not, whatever the opcode |
| Framing.PartialFrameWaits | services/messages/pkg/msgclient/client.go:756-820 | Every strict prefix of a frame is an unexpected end of input |
| Framing.MetaRoundTrip | services/messages/pkg/msgclient/client.go:778-809 | For every first byte and every length form: the opcode is the low four bits, the final mark the high bit, the length the one encoded, and a length above 2^31 - 1 is refused |
| Framing.UnmaskingInverts | services/messages/pkg/msgclient/client.go:830-834 | Masking twice with one mask gives the payload back |
| Framing.LengthFormIsShortest | services/messages/pkg/msgclient/client.go:845-866 | The form written encodes the length, and no encoding that section 5.2 of RFC 6455 offers for this length is shorter |
| Framing.StreamRoundTrip | services/messages/pkg/msgclient/client.go:756-828 | Reading the concatenation of any frames gives exactly those frames with nothing left over |
| Framing.ReadTextsOfStream | services/messages/pkg/msgclient/client.go:653-674 | Reading texts off any stream of server frames gives exactly the payloads of opcode 1 in order and answers each ping (opcode 9) once, in order, up to the first close frame (opcode 8) or frame too large, or to the end of the stream, and the error says which |
| WsConns.ServerConn.WriteFrame | services/messages/internal/transport/http/router.go:497-531 | The server appends one unmasked frame with the final bit set |
| WsConns.ApplyMask | services/messages/pkg/msgclient/client.go:830-834 | The loop masks the buffer in place |
| WsConns.ClientConn.ReadFrameMeta | services/messages/pkg/msgclient/client.go:778-809 | Reads the two header bytes and the extended length, refusing lengths above the limit and ends of input |
| WsConns.ClientConn.ReadMaskKey | services/messages/pkg/msgclient/client.go:811-820 | Reads four bytes for a masked frame and none for an unmasked one |
| WsConns.ClientConn.ReadFrame | services/messages/pkg/msgclient/client.go:756-776 | Consumes exactly one frame, unmasks it, and refuses a fragment |
| WsConns.ClientConn.WriteFrame | services/messages/pkg/msgclient/client.go:836-881 | The client appends one masked frame whose mask is the one drawn |
| WsConns.ClientConn.ReadText | services/messages/pkg/msgclient/client.go:653-674 | Returns the next text and has written one pong, opcode 10, for every ping passed on the way, with the ping's payload |
| Queue.PendingIsSorted | services/messages/internal/store/message.go:41-53 | The pending query is ordered by time of sending and lists every undelivered row to the device as often as the table does, and no other row |
| Queue.PendingAfterDelivery | services/messages/internal/store/message.go:96-105 | Marking the first rows of the answer leaves exactly the others, in the same order |
| Queue.PollLeavesOthers | services/messages/internal/store/message.go:96-105 | Delivering to one device leaves what is pending for the others |
| Queue.PollsTakeBatches | services/messages/internal/transport/http/router.go:334-363 | n successful polls write the first n batches of the pending rows, each row once, in order of sending |
| Queue.DrainsInCeil | services/messages/internal/transport/http/router.go:334-363 | With no new sends, n pending messages are gone after ceil(n / batch) successful polls and not before, and were written once each, in order |
| MessageStores.MessageStore.Create | services/messages/internal/store/message.go:37-39 | A row with a new ID is appended; a taken ID is refused and nothing changes |
| MessageStores.MessageStore.PendingForDevice | services/messages/internal/store/message.go:41-53 | A positive limit cuts the answer to its first rows; any other limit does not; a failed query gives nothing |
| MessageStores.MessageStore.MarkDelivered | services/messages/internal/store/message.go:96-105 | Marks exactly the named rows, or nothing when the update fails |
| MessageStores.SendPending | services/messages/internal/transport/http/router.go:334-363 | Succeeds exactly when the query, every write of the batch and the update do, and has then written the batch and marked it; otherwise it marked nothing and wrote exactly the rows the peer took before it was gone |
| QueueRuns.MarkedOnlyAfterWriting | services/messages/internal/transport/http/router.go:334-363 | In every run of enqueues and polls, with failures anywhere, a message is marked only after its frame was written, and no message is ever dropped or altered |
| QueueRuns.WrittenExactlyOnce | services/messages/internal/transport/http/router.go:334-363 | When no poll fails, no message is written twice and exactly the marked ones were written |
| QueueRuns.EveryMessageArrives | services/messages/internal/transport/http/router.go:334-363 | In every run, with failures anywhere, a message enqueued under a new ID is written and marked once ceil(pending / batch) further polls for its device have succeeded |
| ClientStates.State.EnsureSession | services/messages/pkg/msgclient/client.go:294-308 | An existing session is used without a handshake; otherwise the fetched bundle starts one; a failed fetch or start changes nothing |
| ClientStates.State.PrepareSend | services/messages/pkg/msgclient/api.go:153-160 | The envelope holds the encrypted message, its header, and the handshake if this call opened the session |
| ClientStates.State.HandleInbound | services/messages/pkg/msgclient/client.go:414-448 | Each failure comes at its place: after decoding the ciphertext, before or after the session is stored, or from decryption, and the state then is the one reached up to there |
| Clients.SendTouchesOneConversation | services/messages/pkg/msgclient/client.go:294-326 | Sending changes one conversation and never the device; the handshake is present exactly when there was no session |
| Clients.SendOutcomes | services/messages/pkg/msgclient/client.go:294-326 | Exactly when a send fails and with which error; a failed send changes nothing, a new session always sends, and the envelope seals the text that was given |
| Clients.InboundOutcomes | services/messages/pkg/msgclient/client.go:414-448 | Which part of an envelope is at fault decides the error, both ways; a text is shown only if it was sealed under the header that came with it |
| Clients.InboundTouchesOneConversation | services/messages/pkg/msgclient/client.go:414-448 | An envelope changes only its own conversation, whose session exists afterwards exactly if it did before or the handshake was accepted; the device changes exactly by the live one-time prekey that the handshake of a new conversation names |
| Clients.FirstEnvelopeIsNeeded | services/messages/pkg/msgclient/client.go:424-437 | If the envelope with the handshake is lost, every later one of the conversation is refused by a recipient without a session and changes nothing there, whatever the sender did in between |
| Conversation.ConversationDelivers | services/messages/pkg/msgclient/client.go:294-448 | End to end, for a single initiator, strictly increasing send times and no failed writes: at every moment of every run each client has displayed exactly a prefix of what the other's typing events say, decrypted, once and in order; with nothing left to receive, all of it |
| Conversation.NothingIsLost | services/messages/internal/transport/http/router.go:334-387 | From every point of every such run, polling with any batch size and handling what arrives makes a client display everything typed to it |
| Conversation.PublishedBundleBegins | services/messages/pkg/msgclient/client.go:294-308 | A bundle that the responder's device published in any life with fewer than 2^32 issues, none of it used yet, puts two clients at the beginning that these theorems start from |
| Conversation.TypingStarts | services/messages/pkg/msgclient/client.go:294-326 | The first message turns a fresh conversation into a two-party run in which the responder would accept the handshake and hold the matching session |
| Conversation.TypingContinues | services/messages/pkg/msgclient/client.go:310-326 | Every later message of either client is a send of the two-party run, queued behind all earlier ones |
| Conversation.PushingKeepsQueues | services/messages/internal/transport/http/router.go:334-363 | A push moves envelopes from the table to the connection and keeps the order of everything sent to each client |
| Conversation.HandlingContinues | services/messages/pkg/msgclient/client.go:414-448 | Handling the next envelope is the in-order delivery of the two-party run, including creating the responder's session from the first envelope |
| PrekeyDirectory.NoKeyTwice | services/keys/internal/store/one_time_prekey_store.go:18-47 | Over any interleaving of committing and aborting registrations, rotations and bundle requests, no one-time prekey is in two committed bundles, and the keys handed out are exactly the consumed rows, each to a bundle of its own device |
| PrekeyDirectory.ConsumedForGood | services/keys/internal/store/one_time_prekey_store.go:18-25 | Uploading a consumed ID again never revives or alters it, and it is in no later bundle |
| PrekeyDirectory.RegisteredForGood | services/keys/internal/store/one_time_prekey_store.go:18-25 | In every run, an ID inserted by a transaction that then commits is a row from the commit on; if it was new, the row is the key inserted for it, up to the consumption mark |
| PrekeyDirectory.BundleKeyExplained | services/keys/internal/store/one_time_prekey_store.go:27-47 | In every run each committed bundle goes back to a moment when its transaction chose: it has no one-time prekey exactly if at that moment every unconsumed row of the device was locked by another open transaction, and otherwise the oldest row that was not |
| PrekeyDirectory.StepKeepsTxs | services/keys/internal/store/one_time_prekey_store.go:27-47 | Every step keeps the locks exclusive, the locked rows unconsumed, and the uncommitted inserts apart from the table and from each other |
| PrekeyStores.CollectKeys | services/keys/internal/service/service.go:45-58 | A request is accepted exactly when every key has a public key and no unparsable ID; each row has the key's own or a drawn ID, the device, the public key and the time, and is unconsumed |
| PrekeyStores.Store.AddBatch | services/keys/internal/store/one_time_prekey_store.go:18-25 | The transaction keeps its earlier inserts and holds, for each ID of the batch that was neither a row nor inserted, the first key given under it; nothing else changes |
| PrekeyStores.Store.CommitAdded | services/keys/internal/service/service.go:60-77 | The inserts become unconsumed rows and every other row stays |
| PrekeyStores.Store.Rollback | services/keys/internal/service/service.go:60-77 | A transaction that fails leaves rows and bundles as they were |
| PrekeyStores.Store.Register | services/keys/internal/service/service.go:60-77 | A registration or rotation that nothing interrupts: each ID that was no row is one afterwards, with the first key given for it, and every earlier row is as it was |
| PrekeyStores.Store.ConsumeNext | services/keys/internal/store/one_time_prekey_store.go:27-47 | Locks and marks the device's oldest free key, or finds none |
| PrekeyStores.Store.TakeKey | services/keys/internal/service/service.go:86-136 | A bundle request that nothing interrupts consumes the oldest row that is neither consumed nor locked, and only that row; without such a row the table stays as it was |
| UnlockThrottle.ThrottleBound | frontend/src/crypto-core/keyManager.ts:154-184 | The k-th consecutive wrong PIN comes at least 1000 * (2^(k-1) - 1) ms after the first for k <= 7, and at least 63000 + 60000 * (k - 7) ms after it from then on, however the tries are spread over locks and restarts |
| UnlockThrottle.BoundIsAttained | frontend/src/crypto-core/keyManager.ts:249-257 | The bound is sharp for every k: trying as soon as it is allowed meets it exactly |
| UnlockThrottle.OnlyThePinUnlocks | frontend/src/crypto-core/keyManager.ts:131-184 | After a setup exactly the PIN of the setup unlocks, and it gives the same data key; any other PIN fails and starts the throttle |
| UnlockThrottle.UnlockExactly | frontend/src/crypto-core/keyManager.ts:154-184 | Which outcome comes when, both ways, and what each leaves behind: only a wrong PIN counts and only a success clears; a malformed or early try or another origin leaves the storage alone |
| UnlockThrottle.SetupExactly | frontend/src/crypto-core/keyManager.ts:131-152 | A setup with a PIN leaves a record that this PIN opens with the new key, for this user and origin, and no failures; without a PIN it changes nothing |
| UnlockThrottle.PinsExactly | frontend/src/crypto-core/keyManager.ts:266-270 | A PIN is exactly four characters from 0 to 9 |
| UnlockThrottle.BackoffExactly | frontend/src/crypto-core/keyManager.ts:249-257 | The delays are 1, 2, 4, 8, 16, 32 and from the seventh failure on 60 seconds |
| KeyManagers.KeyManager.SetupPin | frontend/src/crypto-core/keyManager.ts:131-152 | A four-digit PIN wraps a new data key, stores the record, clears the attempts and unlocks; any other PIN changes nothing |
| KeyManagers.KeyManager.Unlock | frontend/src/crypto-core/keyManager.ts:154-184 | The outcomes come in the code's order: bad PIN, no record, throttled, other origin, wrong PIN recorded, unlocked with attempts cleared |
| KeyManagers.KeyManager.Lock | frontend/src/crypto-core/keyManager.ts:109-125 | Locking forgets the data key and nothing else |
| KeyManagers.KeyManager.RecordFailedAttempt | frontend/src/crypto-core/keyManager.ts:249-257 | Counts one more failure, in memory and in storage, and doubles the delay up to one minute |
| KeyManagers.KeyManager.ResetAttempts | frontend/src/crypto-core/keyManager.ts:259-263 | Clears the count and the delay, in memory and in storage |
| RefreshTokens.OnlyTheLastRotationRefreshes | services/auth/internal/service/impl/token_service_impl.go:113-175 | In every interleaving of issues, split refreshes and revocations, a refresh token is accepted exactly when it carries the ID of its session's last rotation that took effect, is not expired, and the session is not revoked; so a session never has two good ones |
| RefreshTokens.AccessTokensVerify | services/auth/internal/service/impl/token_service_impl.go:181-280 | In every run an access token that was handed out verifies exactly while it is younger than the access lifetime and its session is neither revoked nor expired; it names the session and its device, and the refresh token beside it expires after the refresh lifetime |
| RefreshTokens.PairsAreExplained | services/auth/internal/service/impl/token_service_impl.go:58-175 | In every run each pair was minted by an issue at its time, for a session and device new then, or by a refresh that began at its time with a token of the session that was good |
| RefreshTokens.ForeignTokensFail | services/auth/internal/service/impl/token_service_impl.go:183-199 | A token under another key, of another issuer, for another audience or expired is refused by refresh and by verification |
| RefreshTokens.RefreshReplaces | services/auth/internal/service/impl/token_service_impl.go:113-175 | After a refresh that nothing interrupts the new token is good and the old one is not |
| RefreshTokens.RevokedForGood | services/auth/internal/store/session_store.go:42-67 | Once a session is revoked, no refresh token ever handed out for it is accepted again, none of its tokens verifies, and its row never rotates |
| RefreshTokens.RotationIsGoodUnlessRevoked | services/auth/internal/service/impl/token_service_impl.go:143-174 | The second half of a refresh always answers, and its new refresh token is good, until it expires, exactly if the session was not revoked since the read |
| RefreshTokens.LateRefreshAnswersInVain | services/auth/internal/service/impl/token_service_impl.go:138-174 | In every run, a refresh overtaken by a revocation still answers, with a pair that is good neither then nor at any later point |
| RefreshTokens.RefreshTokensVerify | services/auth/internal/service/impl/token_service_impl.go:183-223 | In every run a refresh token that was handed out, rotated out or not, verifies as an access token exactly while it is unexpired and its session is alive |
| RefreshTokens.RotatedOutStillVerifies | services/auth/internal/service/impl/token_service_impl.go:183-223 | After a refresh the old refresh token is refused by the next refresh and still verifies |
| RefreshTokens.StepKeepsOk | services/auth/internal/store/session_store.go:16-67 | Every step keeps refresh IDs unique, rows in step with their last effective rotation, sessions with their user and device, lifetimes as configured, and revoked rows frozen |
| TokenServices.TokenService.Issue | services/auth/internal/service/impl/token_service_impl.go:58-110 | Creates one session under a new ID for the user and device, good for the refresh lifetime, and returns a pair that names it: the access token for the access lifetime, the refresh token with the row's refresh ID; no other row changes |
| TokenServices.TokenService.ReadForRefresh | services/auth/internal/service/impl/token_service_impl.go:124-139 | Goes on exactly for an accepted token, with the row that the token names |
| TokenServices.TokenService.RotateAndMint | services/auth/internal/service/impl/token_service_impl.go:143-174 | Rotates the row to the new refresh ID and expiry unless it was revoked meanwhile, and in either case answers with a pair of the read's time for its session and device |
| TokenServices.TokenService.Refresh | services/auth/internal/service/impl/token_service_impl.go:113-175 | Uninterrupted, it succeeds exactly for a signed unexpired token whose ID is the refresh ID of a live session; that row and no other gets the new refresh ID and expiry, and the pair returned is of this time |
| TokenServices.TokenService.RevokeSession | services/auth/internal/service/impl/token_service_impl.go:177-179 | Marks an existing session as revoked at this time and touches no other; an unknown ID is no error |
| TokenServices.TokenService.VerifyAccess | services/auth/internal/service/impl/token_service_impl.go:183-223 | Valid exactly for a properly signed, unexpired token of an existing session that is neither revoked nor expired |
| TokenServices.ContainsAudience | services/auth/internal/service/impl/token_service_impl.go:318-325 | The search finds the expected audience exactly when it is in the list |

## Left out

- The cryptographic primitives (X25519, Ed25519, HKDF, HMAC, ChaCha20-Poly1305, AES-GCM, PBKDF2, JWT signing): they are symbolic constructors with equality, so collisions, including those of clamped X25519 scalars, do not exist in the model. Every 32-byte value is the public key of a scalar or one of the points X25519 refuses.
- Random sources that fail or repeat: key pairs of a run come from distinct seeds.
- Nil sessions, headers, bundles and snapshots: the Go functions refuse them with an error and the model has no such values.
- BrowserRuns.JumpExactly: the condition is exact for the loop taken store by store; where it fails, the cache after the last store of one particular longer jump can happen to be the newest 64 again.
- TwoPartyRuns.EveryDeliveryDecrypts: covers fewer than 2^32 messages on a chain, because the index wraps around after that; the single-session theorems have the wrap-around.
- The browser's Encrypt and sending turn, which do the same as the Go ones below 2^32 messages on a chain.
- Base64 and JSON: a text is the coding of a value or does not decode. The snapshot theorems compare snapshots before JSON is involved; of JSON only the coding of the skipped names is modelled, and which key two names that become equal keep is left open.
- Framing.ServerFrameRoundTrip: payloads of 2^64 bytes and more do not exist.
- Input/output errors of a connection other than its end, the WebSocket upgrade, buffering and flushing.
- Queue.PendingIsSorted: the order of rows with equal times of sending, which SQL leaves open, is the order of insertion here; the conversation theorems use strictly increasing times.
- MessageStores.SendPending: two connections of one device polling at the same time, which can write a message twice.
- Conversation.ConversationDelivers: assumes one initiator, one listener for each device and no failed writes, as the design does; runs in which both sides open the conversation, or an older saved state is restored, are outside it.
- Converting a fetched bundle: the client drops a one-time prekey whose ID is no 32-bit number, and the model starts from the converted bundle.
- Posting a message over HTTP and saving the state file, with what happens when either fails after the session advanced.
- The upserts of users, devices, identity keys and signed prekeys, and the device-not-found errors: single-row overwrites beside the one-time prekeys; a request that fails on them is an aborted transaction here.
- PrekeyDirectory.NoKeyTwice: covers runs in which no row is deleted; deleting an account frees its IDs. Of the SQL engine it has rows, row locks, commit, abort and the do-nothing conflict rule.
- The key manager's timers, visibility and page events, callbacks, and storage that fails.
- UnlockThrottle.ThrottleBound: covers unlock calls that do not overlap, a clock that does not run backwards and one live manager at a time; two managers over one storage, as in two tabs, each keep their own copy of the attempts and are not held to the bound.
- RefreshTokens.AccessTokensVerify: times are exact here; a JWT keeps its expiry in whole seconds.
- Device authorisation inside VerifyAccess, IP and user-agent fields, and the revocation of all sessions of a user.
- History and conversation queries, deletion, HTTP handlers, gateway, rate limiting, metrics, logging, configuration, React components and the WASM bridge: plumbing or easy members only.
