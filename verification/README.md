# AttestP2P, modelled in Dafny

This project models the protocol core of AttestP2P, a peer-to-peer file transfer node written in
JavaScript, and proves what its event-driven parts keep true: the encrypted session and its key renewal,
the multi-source download scheduler with its chunk store, the anti-replay cache and the time-window
defences, the two stream codecs, and the Internet checksums of the capture writer.
`dafny verify dfyconfig.toml` checks everything.

## How it is built

Every stateful class of the source appears twice. A *specification* says on values what each event does
(`Apply` for a session end, `Next` for a file node, `Check` for the replay cache, `Decode` for a stream).
A *class* with the source's own fields and loops has methods whose `ensures` equate the new state with the
specification applied to the old one. The theorems are about the specification, over all inputs or all runs.

| file | what it holds |
|---|---|
| `Arithmetic`, `Bytes` | big-endian integers, concatenation, quotients |
| `StreamCodec`, `Frame`, `Packet`, `TcpServer`, `ServerGates` | incremental parsing under any fragmentation, both wire formats, the packet server's `data` handler, all its sockets together |
| `FixedWindow`, `IpRateLimiter`, `IpBlacklist`, `Replay` | the counters and caches, over whole runs |
| `Checksum` | JavaScript's 32-bit operators, the checksum loops, the built segment |
| `Manifest`, `FileProtocol`, `ChunkStore` | partition of a file, messages, index and bitfields |
| `Download`, `FileNode`, `FileEvents`, `Transfer`, `TransferWitness`, `FileNodeObject` | scheduling, the node as a transition relation with its invariant, what single events do, whole runs, runs on which a claim fails, the class |
| `Handshake`, `SecureConnection`, `SessionObject` | handshake and sealing, one session end as a value, and as the objects of the source |
| `SessionQueue`, `SessionLink`, `SessionPair`, `SessionRun` | what is in flight, one direction, two joined ends, all their interleavings |
| `SessionSafety`, `SessionDelivery`, `SessionKeys`, `SessionAccounts`, `SessionLimits`, `SessionRenewal`, `SessionKeyUse`, `SessionOpening` | the theorems about sessions |
| `SessionInput`, `SessionEnds` | one end against arbitrary input: whom it takes for its peer, what it acts on, how it gives up |
| `WireLayout` | every wire format byte by byte |
| `FileSession` | file nodes joined by a session |

Cryptographic primitives are functions about which only stated equations are assumed, as a precondition
(`Handshake.Laws`, `Packet.Sound`) that a lemma shows to be satisfiable: decryption undoes encryption and
sealing adds 40 bytes, a signature verifies under its signer's key, both ends of an X25519 exchange compute
the same secret (section 6.1 of RFC 7748), HKDF is a function (section 2 of RFC 5869). Where keys have to
differ HKDF is further assumed to separate them (`SessionKeys.Separates`, satisfiable as well). SHA-256 is never
assumed injective: where it matters, the conclusion is "the right bytes, or two byte strings with one digest".

Clocks, random nonces, identification numbers and read buffers are parameters of the operations that use
them. Throws are values (`None`, `Threw`). Time is in integer milliseconds and does not go back.

### The session

A state of `SessionRun.Sys` is two ends; the bytes each has handed to its socket and the other has not read
are on the wire. An event is anything that can happen to one end (a call of `send`, `rekey` or `close`, a
timer, a socket event, a turn of the loop over decoded frames) or the arrival of any number of bytes. What
handlers do from inside `emit` is the next event, because every `emit` that matters comes last in its branch.
`Reachable` is reachability from the constructors through any sequence of events. The invariant keeps, for
each direction, a queue of messages in flight and says that undecoded bytes, decoded frames and wire together
are their encodings, sealed under successive key generations.

### Where the code and its comments or documentation differ (the model follows the code)

- `src/network/ipBlacklist.js:1-3` announces a sliding window; the window is fixed, so seven strikes within a
  millisecond can pass with a threshold of five (`IpBlacklist.LargestBurstPasses`). How many strikes force a
  ban is settled for every setting by `IpBlacklist.ForcedExactly`.
- `src/protocol/replay.js:25-26` says later entries of the cache are valid when one is; entries hold sender
  timestamps, so a run can break this (`Replay.PurgeStopsEarly`). A purge is complete if and only if the expired
  entries are in front (`Replay.PurgeCompleteIff`), which accepted timestamps in order always ensure
  (`Replay.InOrderPurges`). No safety result depends on it.
- `src/file/fileNode.js:205` says a timeout retries elsewhere; nothing excludes the slow peer, and a run from a
  new node asks it again although another peer could serve (`TransferWitness.SlowPeerAskedAgain`). A chunk asked
  for again goes to another peer if and only if the slow one is not the first least loaded eligible peer once its
  request is dropped (`Transfer.TimeoutRetries`).
- `README.md:418` says keys are renewed by one end only; the code lets either end call `rekey`, even both at
  once (`SessionOpening.BothRenew` is such a state), and the rekey invariant covers that.

### Properties that fail as first stated, and the exact condition

- "A packet is never accepted twice" fails once the cache has turned over: a repeated, still fresh packet is
  accepted if and only if at least `maxEntries` others were accepted since (`Replay.ReplayIff`).
- "Thresholds bound the use of a key" fails: sends while a renewal is awaited share one key and are then
  forgotten, without limit (`SessionLimits.NoBoundPerKey`, `SessionKeyUse.ImpatientRun`). In every run the
  excess over `everyMsgs` is at most the number of such sends (`SessionKeyUse.PerKeyBound`), which is reached
  whatever that number (`SessionKeyUse.PerKeyBoundTight`), so an application that waits for the answer keeps the
  bound (`SessionKeyUse.PatientKeyBound`). Between renewals it always holds
  (`SessionRenewal.BetweenRenewals`).
- `tcpChecksum` alone is wrong for sums of 2^31 and more, which its longest segments reach
  (`Checksum.LongestTcpOverflows`); it is right exactly below 2^31 (`Checksum.TcpChecksum`), and `buildSegment`
  stays below (`Checksum.BuildSegment`). For sums of any size `Checksum.FoldsRight` is the condition.
- "A body that `send` accepts reaches the other end" fails for long ones, past either rate limit, and on an end
  that can no longer write. From an open session at rest, with the whole wire delivered and one turn taken, the
  body is emitted if and only if the sender can write and the receiver reads, the body is at most the frame limit
  less 49 bytes, the frame limiter allows its frame and the session counter its message
  (`SessionDelivery.DeliveredExactly`). The receiver ends on arrival exactly for longer bodies
  (`SessionSafety.RefusedExactly`); while all bodies fit, no chunk is ever refused (`SessionSafety.NoChunkRefused`).

## Model

| member | source | states |
|---|---|---|
| `SessionSafety.FifoDelivery` | src/session/secureConnection.js:95-238 | In every reachable state of a session, in both directions, the bodies emitted as messages are, in order and without repetition, a prefix of the bodies whose `send` returned |
| `SessionSafety.NothingLost` | src/session/secureConnection.js:95-238 | While the sender can write and the receiver reads, once nothing is on the wire, undecoded or waiting, every body sent has been emitted |
| `SessionSafety.SentLog` | src/session/secureConnection.js:95-107 | Only a `send` that returns adds to the bodies sent, and it adds its own |
| `SessionSafety.MirroredKeys` | src/crypto/handshake.js:88-181 | Once both sessions exist their keys are generations of one exchange, equal wherever the generations are, and each names the other's identity |
| `SessionKeys.KeysAgreeIff` | src/crypto/handshake.js:42-51 | In every reachable state, if HKDF separates the keys, a sender and its receiver hold the same key exactly when they are in the same generation, and no end sends with a key that it or its peer ever receives or sends with in the other direction at that moment |
| `SessionKeys.RekeyChangesKey` | src/session/secureConnection.js:110-115 | Over any run, under the same assumption, the key an end sends with after `rekey` differs from its key at every earlier moment and from the key of every earlier generation of its direction |
| `SessionKeys.GenerationsDiffer` | src/crypto/handshake.js:42-44 | If renewal by HKDF is injective and leads to no first key, the keys of generations g and h of a direction are equal if and only if g = h |
| `SessionKeys.AllDifferIff` | src/crypto/handshake.js:42-44 | If it is only injective (as a permutation of keys of one length is), the keys up to generation n all differ if and only if none of the first n renewals leads back to the first key |
| `SessionKeys.SeparatesSatisfiable` | src/crypto/handshake.js:35-51 | Some primitives satisfy all that is assumed, for every exchange |
| `SessionSafety.RekeyPhases` | src/session/secureConnection.js:110-115 | In every reachable state, from the constructors on: every sealed frame in flight is under its receiver's generation plus the renewals ahead of it; a writable sender is ahead by the renewals in flight; while both can write an end awaits a renewal exactly when one REKEY of its own or one answer to it is in flight, simultaneous renewals included; CLOSE is last; only MSG3 can be ahead of the initiator's first frames; bodies emitted and in flight are, in order, the first bodies sent, and all of them while the sender can write |
| `SessionSafety.NoFrameRefused` | src/session/secureConnection.js:170-238 | Handling any decoded frame of an honest session does not throw and passes the sequence check; only the session rate limit can end the receiver there |
| `SessionSafety.NoChunkRefused` | src/session/secureConnection.js:146-153 | While no body sent exceeds the frame limit less 49 bytes, no chunk of any size ends its receiver |
| `SessionSafety.RefusedExactly` | src/session/secureConnection.js:95-102 | In both directions, after a `send` on an open session at rest and delivery of the whole wire, the receiver has ended if and only if the body is longer than the frame limit less 49 bytes |
| `SessionDelivery.DeliveredExactly` | src/session/secureConnection.js:84-193 | From any reachable state with an open, resting direction, after a `send` that returns, delivery of the whole wire and one turn of the receiver, the messages emitted there grow by that body if and only if the sender can write, the receiver reads, the body is at most the frame limit less 49 bytes, the frame limiter allows the frame and the session counter is within its limit; otherwise by nothing |
| `SessionDelivery.SendThrowsExactly` | src/session/secureConnection.js:95-102 | `send` throws exactly without a session, with 2^64 numbers used up, or on an open end for a frame of 2^32 bytes or more; it has written nothing then, but used up a number |
| `SessionRun.StepKeepsInv` | src/session/secureConnection.js:84-255 | Every event at either end, and every delivery, keeps the invariant on keys, queues, renewals and handshake progress |
| `SessionRun.ReachableInv` | src/session/secureConnection.js:39-255 | The invariant holds in every state reachable from the two constructors |
| `SessionOpening.HandshakeCompletes` | src/session/secureConnection.js:217-237 | Some run opens both sessions, mirrored, with nothing left in flight: the theorems about open sessions are not vacuous |
| `SessionOpening.BothRenew` | src/session/secureConnection.js:110-115 | Some run reaches a state where both ends can write and both await the answer to a renewal of their own |
| `SessionPair.SealedTurn` | src/session/secureConnection.js:170-215 | The oldest frame in flight opens under the receiver's generation; handling it keeps both directions and the count of awaited renewals, and only the rate limit destroys the receiver |
| `SessionPair.StartRekeyKeeps` | src/session/secureConnection.js:110-115 | On an open end that awaits no renewal `rekey` sets the flag and puts exactly one REKEY last in flight, if it can be written and is still read; otherwise flag and flight stay as they were; both directions are kept |
| `SessionPair.SendKeeps` | src/session/secureConnection.js:95-108 | `send`, whether it throws, writes or is silently dropped, keeps both directions and the awaited renewals |
| `SessionPair.ChunkKeeps` | src/session/secureConnection.js:146-153 | Arrival of any part of the wire keeps both directions; the receiver gives up only if some frame in flight is oversized |
| `SessionLink.LinkTurn` | src/session/secureConnection.js:172-213 | The frame whose turn comes is the oldest in flight, sealed under the receiver's generation, with a number above the last one; a CLOSE is the last thing the sender wrote |
| `SessionQueue.DecodePrefix` | src/protocol/frame.js:24-41 | Decoding any prefix of the encoding of some frames yields the first frames whole and leaves the bytes of the others, unless one of them is over the limit |
| `SessionLimits.NeverReplayed` | src/session/secureConnection.js:187-193 | Whatever bytes arrive, the numbers of the messages emitted rise strictly: none is emitted twice |
| `SessionInput.PeerAuthenticated` | src/crypto/handshake.js:114-180 | Whatever bytes arrive and whatever else happens, an end has a session only with an identity under which a signature of the peer's ephemeral key followed by its own was verified, and the session's keys are generations of the two derived from the exchange of these keys, in the directions its role gives them |
| `SessionInput.Message1Vouches` | src/crypto/handshake.js:147-169 | A MSG1 is answered only if it is 128 bytes long and its last 64 sign its first 32 under the identity in between |
| `SessionInput.FrameActsExactly` | src/session/secureConnection.js:170-214 | Whoever sent a frame: a message is emitted if and only if it opens to type 0, a number above the last one and a body, within the limit per second, with that number and body; a frame that does not open or has no known form, a stale number and a message over the limit each end the session |
| `SessionInput.ControlActs` | src/session/secureConnection.js:196-211 | What REKEY, its answer and CLOSE do to keys, accounts and socket, the answer's bytes included |
| `SessionInput.ChunkActsExactly` | src/session/secureConnection.js:146-153 | Arriving bytes do nothing to a destroyed end; otherwise, even after CLOSE, the whole frames wait for their turns and the rest is kept; a length over 2 MiB ends an open end |
| `SessionInput.NumbersCountSends` | src/session/secureConnection.js:95-100 | In any run an end's number is how many calls of `send` found a session: each gets the next number from 1, whether it throws or not |
| `SessionEnds.GivenUp` | src/session/secureConnection.js:65-80 | After the handshake timer of an end without a session, an error or a denied frame on an open end, or a closed socket, that end emits nothing more for the rest of the run, and a session not open by then never opens |
| `SessionEnds.EndedIsMute` | src/session/secureConnection.js:84-86 | An end whose writing side has finished writes nothing more, whatever happens to it |
| `SessionEnds.CloseSays` | src/session/secureConnection.js:128-134 | `close` on an open end writes CLOSE last, sealed under the sending key, and finishes the writing side |
| `SessionLimits.SessionBurstBound` | src/session/secureConnection.js:136-144 | From any state, against any peer, while the messages counted fall within one second at most twice the limit are emitted |
| `SessionLimits.SessionLongRun` | src/session/secureConnection.js:136-144 | Over T ms a new end emits at most limit * (T / 1001 + 1) messages |
| `SessionLimits.AlwaysInTime` | src/session/secureConnection.js:104-125 | After every operation of an initiator, whatever arrives, a renewal is awaited or its accounts of messages and of bytes are below both limits (`SessionAccounts.UnansweredRun` says what the accounts are) |
| `SessionLimits.NoBoundPerKey` | src/session/secureConnection.js:95-115 | While a renewal is awaited, any number of messages is sent under one key, and the answer resets the accounts without changing that key |
| `SessionKeyUse.PerKeyBound` | src/session/secureConnection.js:95-125 | In every run, the messages the initiator seals under any one key exceed those it sent while awaiting an answer by at most `everyMsgs` |
| `SessionKeyUse.PerKeyBoundTight` | src/session/secureConnection.js:95-125 | That bound is reached: for every w some run from the constructors, answer delivered and taken, seals under one key exactly w messages while waiting and `everyMsgs` more |
| `SessionKeyUse.PatientKeyBound` | src/session/secureConnection.js:95-125 | If the application sends nothing while an answer is awaited, at most `everyMsgs` messages are sealed under any one key |
| `SessionKeyUse.ImpatientRun` | src/session/secureConnection.js:95-115 | Otherwise there is no bound: for every n below 2^64 some run from the constructors seals n messages under one key |
| `SessionRenewal.BetweenRenewals` | src/session/secureConnection.js:104-125 | With an honest peer, from the answer to one renewal up to and including the event that starts the next, at most `everyMsgs` messages are sent |
| `SessionAccounts.RenewsExactly` | src/session/secureConnection.js:104-125 | From fresh accounts through any calm run: at a `send` that returns and at each tick, a renewal is then awaited if and only if the bodies sent since number at least `everyMsgs` (1000 by default), or add up to at least `everyBytes` (8 MiB), or at least `everyMs` (5 minutes) have passed; without the last event they reach neither of the first two |
| `SessionAccounts.CalmLedger` | src/session/secureConnection.js:104-107 | Over a calm run the accounts are exactly the number and the total length of the bodies sent in it |
| `SessionAccounts.UnansweredRun` | src/session/secureConnection.js:104-107 | The same whatever the peer sends, up to the next answer handled |
| `SessionAccounts.SentInTime` | src/session/secureConnection.js:104-125 | So whatever the peer sends short of an answer, an initiator with fresh accounts has sent fewer than `everyMsgs` messages and fewer than `everyBytes` bytes since, or awaits a renewal |
| `SessionAccounts.AnswerFreshens` | src/session/secureConnection.js:202-206 | Only the turn that takes the answer ends the wait, and it makes the accounts fresh as of its time |
| `SessionAccounts.FreshWhenOpened` | src/session/secureConnection.js:63 | When the session opens the accounts are fresh as of the construction |
| `SessionAccounts.OnlyLooksRenew` | src/session/secureConnection.js:110-125 | Nothing starts a renewal but `rekey`, a `send` that returns and the timer |
| `SessionAccounts.ResponderNeverRenews` | src/session/secureConnection.js:117-118 | An end that is no initiator renews only by a call of `rekey` |
| `SessionAccounts.PolicyOf` | src/session/secureConnection.js:52-63 | In every reachable state each end has its given limits, an absent or zero one replaced by 100 messages per second, 1000 messages, 8 MiB or 5 minutes |
| `SessionRenewal.NoStrayAnswer` | src/session/secureConnection.js:202-206 | An end that awaits no renewal receives no answer to one, so its accounts are only reset by the answer it waits for |
| `SecureConnection.PlainRoundTrip` | src/session/secureConnection.js:96-102 | Every plaintext (DATA with its 64-bit number, REKEY, REKEY_ACK, CLOSE) reads back as itself, and its length is known |
| `WireLayout.PlainLayout` | src/session/secureConnection.js:96-131 | The plaintexts byte by byte |
| `Handshake.HandshakeAgreement` | src/crypto/handshake.js:99-181 | Between honest ends no handshake message is refused and the two sessions mirror each other and name each other's identity |
| `WireLayout.Message1Layout` | src/crypto/handshake.js:109-112 | MSG1 is the ephemeral key, the identity and its signature of that key |
| `WireLayout.Message2Layout` | src/crypto/handshake.js:130-169 | MSG2 is the same of the responder, its signature covering both ephemeral keys, its own first; MSG3 is the initiator's, its own first |
| `Handshake.OpenSealed` | src/crypto/handshake.js:62-83 | What is sealed under a key opens under it, and sealing adds 40 bytes |
| `Handshake.LawsSatisfiable` | src/crypto/handshake.js:19-53 | The equations assumed of the primitives do not contradict each other |
| `SessionObject.SecureSession.Seal` | src/crypto/handshake.js:62-70 | What `seal` returns opens under the same key to the plaintext and is 40 bytes longer |
| `SessionObject.SecureSession.Open` | src/crypto/handshake.js:72-83 | `open` gives back whatever was sealed, with any nonce, under the receiving key, and throws on anything shorter than a nonce |
| `SessionObject.SecureSession.AdvanceTx` | src/crypto/handshake.js:88-91 | `rekeyTx` advances the sending key to its HKDF and its generation by one, and nothing else (`SessionKeys` says what that achieves) |
| `SessionObject.SecureSession.AdvanceRx` | src/crypto/handshake.js:93-96 | `rekeyRx` advances the receiving key to its HKDF and its generation by one, and nothing else |
| `SessionObject.SecureConnection.constructor` | src/session/secureConnection.js:39-82 | The new end is the specified one; an initiator has written MSG1 |
| `SessionObject.SecureConnection.Send` | src/session/secureConnection.js:95-108 | `send` does what the specification says, throw, accounts and renewal included, to the whole state |
| `SessionObject.SecureConnection.Rekey` | src/session/secureConnection.js:110-115 | `rekey` does what the specification says to the whole state |
| `SessionObject.SecureConnection.MaybeAutoRekey` | src/session/secureConnection.js:117-125 | The automatic renewal happens exactly when the specification says |
| `SessionObject.SecureConnection.Close` | src/session/secureConnection.js:128-134 | `close` does what the specification says to the whole state |
| `SessionObject.SecureConnection.MsgAllow` | src/session/secureConnection.js:136-144 | The session counter is the shared fixed-window counter with a window of 1000 ms |
| `SessionObject.SecureConnection.OnData` | src/session/secureConnection.js:146-168 | A `data` event decodes the chunk, gives every frame its turn in order and stops where the specification stops |
| `SessionObject.SecureConnection.OnFrame` | src/session/secureConnection.js:170-238 | `_handleFrame`, handshake and transport, follows the specification branch by branch, throws included |
| `SessionObject.SecureConnection.Fail` | src/session/secureConnection.js:247-254 | `_fail` ends an open end and leaves a closed one alone |
| `SessionObject.DataIsRun` | src/session/secureConnection.js:146-168 | A `data` event equals a run of the operations that the theorems range over |
| `FileNode.NextKeepsInv` | src/file/fileNode.js:35-267 | Every event keeps, for every active download: requests only for wanted chunks, at most `parallel`, each to a connected peer that announced it and sent no bad copy; every chunk not wanted is stored; `received + needed >= nb`; and no servable chunk is idle while there is room |
| `FileNode.NewNodeInv` | src/file/fileNode.js:22-31 | A node opened over a sound store satisfies the invariant |
| `FileEvents.NextSessions` | src/file/fileNode.js:35-51 | After any event exactly these are connected: those before, one more with the next number after an attachment, one less after a close |
| `FileEvents.ClosedIsGone` | src/file/fileNode.js:244-253 | After a close the peer is not connected, nothing it announced is left, no request to it is in flight in any download; requests to others, announcements of others, wanted chunks and marks are as before |
| `FileEvents.NeverAskedAfterClose` | src/file/fileNode.js:177-253 | In no later state of a run is a request in flight to a peer that has closed |
| `FileEvents.HaveHeard` | src/file/fileNode.js:83-92 | HAVE adds to what its sender announced exactly the set bits below the chunk count known from the manifest, or else the store, and changes no other announcement; for a file neither knows it is ignored |
| `FileEvents.PieceHeard` | src/file/fileNode.js:93-96 | HAVE_PIECE adds one chunk to what its sender announced and changes no other announcement |
| `FileEvents.StartWants` | src/file/fileNode.js:126-147 | A download wants when it starts exactly the chunks its store lacks, with no mark; if it lacks none the download is not opened and its promise settles at once, reassembled |
| `FileEvents.SeededNeedsNobody` | src/file/fileNode.js:59-147 | Seeding a file and then downloading it settles at once with that file and `matches` true, or two byte strings with one SHA-256 are exhibited |
| `FileEvents.GenuineTaken` | src/file/fileNode.js:208-242 | A chunk in range whose digest is that of the manifest and is the one named, signed with identifier, index and digest by its sender's identity, is stored as it came and wanted no more; nothing else in store or wants changes; the download ends exactly when nothing else was wanted |
| `FileEvents.ForgedRefused` | src/file/fileNode.js:208-232 | Any other chunk leaves store, wants and outcomes as they were and marks exactly its sender for that chunk |
| `FileEvents.ServesExactly` | src/file/fileNode.js:117-123 | A chunk is served exactly when indexed and on disk, as its bytes, their digest and the signature of identifier, index and digest |
| `FileEvents.ManifestTaken` | src/file/manifest.js:60-77 | Exactly a manifest with an identifier, as many entries as it claims, sizes that add up and its sender's signature of its digest is registered; any other changes nothing |
| `FileNode.FinishAssembles` | src/file/fileNode.js:256-267 | When nothing is needed any more, `assemble` does not throw |
| `FileNode.AgreementNeeded` | src/file/chunkStore.js:27-37 | With exactly the chunks of one manifest indexed and on disk, whatever count the store keeps, reassembly succeeds if and only if that count is the same |
| `TransferWitness.DisagreementRejects` | src/file/chunkStore.js:27-37 | For any verified manifest of one chunk and another of two with its identifier: registering the first, starting the second and receiving both its chunks, each passing every check, ends with the download rejected |
| `Transfer.CompletionCorrect` | src/file/fileNode.js:208-267 | In any run a promise settles with a reassembled file: the bytes the manifest was built from with `matches` true, or else two distinct byte strings with one SHA-256 are exhibited |
| `Transfer.SeedCompletes` | src/file/fileNode.js:59-69 | Seeding with the bytes at `i * chunk_size` stores every chunk |
| `Transfer.NeverAskedAgain` | src/file/fileNode.js:226-232 | A peer that sent a bad copy of a chunk is never again asked for it as long as that download lasts |
| `Transfer.TimeoutRetries` | src/file/fileNode.js:160-206 | After a timeout the slow peer is still eligible; if the chunk is asked for again it is of the first least loaded eligible peer, so elsewhere if and only if that is not the slow one; and it is asked for again whenever there was room for one more request |
| `Transfer.SlowPeerPreferred` | src/file/fileNode.js:186-189 | With nothing else in flight and the slow peer first among those eligible, it is preferred again |
| `TransferWitness.SlowPeerAskedAgain` | src/file/fileNode.js:198-206 | A run from a new node: two peers announce a chunk, the request to the first times out, the second may serve it, and the first is asked again |
| `Transfer.PhiStep` | src/file/fileNode.js:76-254 | No event but a new session or a new download of the file raises the measure of an active download; every reply from the peer that was asked lowers it |
| `Transfer.NeverIdle` | src/file/fileNode.js:177-196 | While a reliable peer stays connected something is in flight |
| `Transfer.ServedIsGood` | src/file/fileNode.js:117-123 | The reply a node builds from a sound store, signed with its identity, passes every check of the requester |
| `Transfer.ServingIsHonest` | src/file/fileNode.js:117-123 | So a peer that serves from such a store is honest in the sense of the convergence theorem |
| `Transfer.RepliesBound` | src/file/fileNode.js:208-242 | The solicited replies of a run without new sessions and the measure left never exceed the initial measure |
| `Transfer.Convergence` | src/file/fileNode.js:126-254 | Without new sessions, with one honest peer that stays, an active download always has a request in flight and has had fewer than nb * (1 + sessions) solicited replies: it completes after that many |
| `FileSession.DeliveredIsGood` | src/file/fileNode.js:74-123 | A CHUNK_DATA read from any message a session emitted passes every check of the requester, if the node at the other end sends only well-formed messages and chunks served from a store like its manifests |
| `FileSession.AttachedAs` | src/file/fileNode.js:35-37 | The identity under which a session is attached is that of the node at its other end |
| `FileSession.ConvergesOverSession` | src/file/fileNode.js:74-254 | Convergence holds with the honest peer realised by a connection over a session to such a node: no hypothesis on what arrives through it is left |
| `Download.ScheduledKeeps` | src/file/fileNode.js:177-196 | A scheduling call keeps the in-flight table sound, leaves earlier requests alone and leaves no servable chunk idle while there is room |
| `Download.RarestFirst` | src/file/fileNode.js:180-184 | For any tie-breaking, a chunk asked for is announced by no more peers than any servable chunk left out |
| `Download.LeastLoadedIsLeast` | src/file/fileNode.js:188-189 | The peer chosen has the fewest requests in flight among the eligible ones |
| `Download.LeastLoadedIsFirst` | src/file/fileNode.js:188-189 | Those before it in the list have strictly more: it is the first of a stable sort |
| `Download.CountIs` | src/file/fileNode.js:150-158 | The availability of a chunk is the number of peers that announced it |
| `Download.ScheduledOne` | src/file/fileNode.js:177-193 | When one chunk only can be asked for, it goes to the first least loaded eligible peer |
| `Download.ScheduledAsks` | src/file/fileNode.js:177-193 | With room for a request, the only servable idle chunk is asked for |
| `Download.ScheduledBalanced` | src/file/fileNode.js:184-193 | If every connected peer may serve every candidate and loads differ by at most one before, they still do after |
| `Download.PhiBound` | src/file/fileNode.js:126-147 | The measure of a download is at most nb * (1 + sessions) |
| `FileNodeObject.FileNode.AvailabilityCount` | src/file/fileNode.js:150-158 | The nested loops compute, for exactly the wanted idle announced chunks, how many peers announce each |
| `FileNodeObject.FileNode.Peers` | src/file/fileNode.js:160-171 | The loop lists exactly the eligible peers, in order |
| `FileNodeObject.FileNode.InFlightForPeer` | src/file/fileNode.js:173-175 | The loop counts the requests in flight to one peer |
| `FileNodeObject.SortByCount` | src/file/fileNode.js:181-182 | The candidates come each once, by rising availability, ties in any order |
| `FileNodeObject.FileNode.Schedule` | src/file/fileNode.js:177-196 | `_schedule` is one of the specified schedulings of its download and touches nothing else |
| `FileNodeObject.FileNode.AttachSession` | src/file/fileNode.js:35-51 | A new session is connected and has announced nothing |
| `FileNodeObject.FileNode.OnManifest` | src/file/fileNode.js:80-82 | A manifest is registered exactly when it verifies |
| `FileNodeObject.FileNode.OnHave` | src/file/fileNode.js:83-92 | HAVE adds the parsed indices to what the peer announced and reschedules, or is ignored for an unknown file |
| `FileNodeObject.FileNode.OnHavePiece` | src/file/fileNode.js:93-96 | HAVE_PIECE adds one index and reschedules |
| `FileNodeObject.FileNode.OnTimeout` | src/file/fileNode.js:198-206 | A timeout drops the request, if still there, and reschedules |
| `FileNodeObject.FileNode.OnChunkData` | src/file/fileNode.js:208-242 | CHUNK_DATA clears the request, checks signature and digests, stores or marks the sender, and completes or reschedules, as the transition relation says |
| `FileNodeObject.FileNode.Complete` | src/file/fileNode.js:256-267 | The download is settled with the outcome of reassembly and forgotten |
| `FileNodeObject.FileNode.StartDownload` | src/file/fileNode.js:126-147 | `download` does what the specified start does to the whole node (`FileEvents.StartWants` says what that is) |
| `FileNodeObject.FileNode.SeedFile` | src/file/fileNode.js:59-69 | Seeding registers the manifest and puts every buffer in turn |
| `FileNodeObject.FileNode.OnClose` | src/file/fileNode.js:244-253 | `_onClose` does what the specified close does to the whole node (`FileEvents.ClosedIsGone` says what that is) |
| `ChunkStore.PutKeepsInv` | src/file/chunkStore.js:48-59 | A put succeeds exactly for a registered file and matching (or absent) digest, adds exactly that index, stores exactly those bytes and keeps the index strictly sorted and on disk |
| `ChunkStore.SortPush` | src/file/chunkStore.js:55-57 | Pushing a new index and sorting inserts it in its place |
| `ChunkStore.CompleteIff` | src/file/chunkStore.js:65-68 | `length === nb_chunks` holds exactly when every chunk is present |
| `ChunkStore.CompleteIsReadable` | src/file/chunkStore.js:65-99 | Reassembly succeeds exactly for complete files |
| `ChunkStore.ParsedBits` | src/file/chunkStore.js:78-84 | `parseBitfield` lists exactly the set bits below nb, in increasing order |
| `ChunkStore.BitfieldParses` | src/file/chunkStore.js:71-84 | Setting the bits of an index and parsing them gives back the index |
| `ChunkStore.AvailabilityRoundTrip` | src/file/protocol.js:31-59 | A HAVE message built from a store, encoded, decoded and parsed, yields exactly the stored indices |
| `ChunkStore.ChunkStore.RegisterManifest` | src/file/chunkStore.js:27-37 | A known file keeps its old entry |
| `ChunkStore.ChunkStore.PutChunk` | src/file/chunkStore.js:48-59 | `putChunk` is the specified put, result and state |
| `ChunkStore.ChunkStore.BuildBitfield` | src/file/chunkStore.js:71-77 | The loop over the index, setting bits of a buffer in place, computes the specified bitfield |
| `ChunkStore.ChunkStore.Parse` | src/file/chunkStore.js:78-84 | The loop over the bits computes the specified list |
| `ChunkStore.ChunkStore.Assemble` | src/file/chunkStore.js:87-100 | The loop writes the stored chunks in order and returns their digest, or throws exactly when the file is not readable |
| `Manifest.PiecesConcat` | src/file/manifest.js:39-45 | The chunks of a file concatenate to it |
| `Manifest.PieceIsSlice` | src/file/manifest.js:40-45 | Chunk i is the slice at `i * chunkSize` |
| `Manifest.PiecesCount` | src/file/manifest.js:37 | There are `ceil(size / chunkSize)` chunks |
| `Manifest.BuiltManifestVerifies` | src/file/manifest.js:33-77 | A built and signed manifest passes `verifyManifest` and partitions the file |
| `Manifest.BuildManifest` | src/file/manifest.js:33-58 | The loop builds exactly the chunk entries of the partition |
| `FileProtocol.MessageRoundTrip` | src/file/protocol.js:28-78 | Every well-formed message decodes back to itself |
| `WireLayout.ChunkDataLayout` | src/file/protocol.js:42-45 | CHUNK_DATA byte by byte |
| `WireLayout.MessageLayout` | src/file/protocol.js:28-50 | The other messages byte by byte, each with its type |
| `WireLayout.ReadsExactly` | src/file/protocol.js:51-81 | Exactly a MANIFEST whose text parses, a HAVE, a HAVE_PIECE, CHUNK_REQ or CHUNK_DATA as far as its index and an ACK as far as its index are read; anything else is a throw |
| `WireLayout.BitLayout` | src/file/chunkStore.js:71-84 | Chunk i is bit i % 8 of byte i / 8 of a bitfield, counted from the most significant |
| `StreamCodec.FeedIsDecode` | src/protocol/frame.js:24-41 | However a stream is cut, the parsing loop throws exactly when one pass would; otherwise it yields the same units and leftover; what it yields before throwing is a prefix |
| `StreamCodec.DecodeCut` | src/protocol/frame.js:24-41 | Parsing a first part, then its leftover with the rest, is parsing the whole |
| `StreamCodec.DecodeKeepsBytes` | src/protocol/frame.js:24-41 | Units and leftover, in order, are the input: no byte is lost |
| `StreamCodec.DecodeStops` | src/protocol/packet.js:134-161 | The loop stops only where more bytes are needed or the header is refused |
| `StreamCodec.DecodeConcat` | src/protocol/frame.js:9-41 | A concatenation of whole units decodes to exactly them |
| `Frame.FrameStreamRoundTrip` | src/protocol/frame.js:9-41 | Encoded frames, cut anyhow, are handed out in order with nothing kept back |
| `Frame.EncodeFrameIsUnit` | src/protocol/frame.js:9-14 | An encoded frame reads as one unit carrying its payload |
| `WireLayout.FrameLayout` | src/protocol/frame.js:9-14 | A frame is the length of its payload in four bytes, most significant first, and the payload |
| `Frame.OversizeRefused` | src/protocol/frame.js:30-32 | A frame over the limit is refused whatever follows |
| `Frame.LeftoverBound` | src/protocol/frame.js:24-41 | The decoder never keeps more than max + 3 bytes |
| `Frame.LeftoverBoundTight` | src/protocol/frame.js:24-41 | That bound is reached |
| `Frame.FrameDecoder.Push` | src/protocol/frame.js:24-41 | `push` is one pass over the leftover and the chunk; a throw loses the frames completed in it |
| `Packet.BuiltPacket` | src/protocol/packet.js:41-128 | A built packet is one whole unit, passes both checks and parses back to its fields |
| `WireLayout.PacketLayout` | src/protocol/packet.js:41-72 | The fields of a built packet by offset, the signature of all before it, and the HMAC of all before that |
| `WireLayout.IntegrityExactly` | src/protocol/packet.js:114-128 | A packet passes `verifyPacket` if and only if it has at least 137 bytes, begins with the magic and ends in the HMAC of everything before its last 32 bytes |
| `WireLayout.SignatureExactly` | src/protocol/packet.js:16-39 | `verifySignature` of a parsed packet checks the signature of the packet's own bytes up to the end of its payload, under the node it names |
| `Packet.PacketStreamRoundTrip` | src/protocol/packet.js:41-168 | Built packets, cut anyhow, are extracted exactly |
| `Packet.PacketSizeUnreachable` | src/protocol/packet.js:144-154 | The packet-size throw can never happen |
| `Packet.ExtractedParses` | src/protocol/packet.js:74-112 | Everything extracted can be parsed |
| `Packet.NeedBound` | src/protocol/packet.js:130-168 | At most MAX_PAYLOAD_SIZE + 136 bytes wait for the rest of a packet |
| `Packet.NeedBoundTight` | src/protocol/packet.js:130-168 | That bound is reached |
| `Packet.BufferBound` | src/network/tcpServer.js:71-80 | Chunks of at most MAX_BUFFER_SIZE less that bound never trigger the overflow guard |
| `Packet.ExtractPackets` | src/protocol/packet.js:130-168 | The loop computes the one-pass decoding, throws included |
| `Packet.EnvelopeRoundTrip` | src/protocol/message.js:17-36 | Nonce and data come back from the envelope, and the timestamp as the nearest double: unchanged exactly when no bit beyond the significand is set, as below 2^53 |
| `Packet.DoubleExact` | src/protocol/message.js:32 | An integer read as a `Number` is unchanged exactly when its bits beyond the 53-bit significand are zero |
| `Packet.DoubleNearest` | src/protocol/message.js:28-36 | Otherwise it becomes the nearest multiple of the unit of its significand, of two equally near the even one (IEEE 754) |
| `TcpServer.OnDataKeeps` | src/network/tcpServer.js:71-135 | An open socket stays open with at most an incomplete packet buffered, or is flagged; small enough chunks are never taken for an overflow |
| `TcpServer.SessionIsOnePass` | src/network/tcpServer.js:71-144 | Whatever other sockets and the cleanup timer do between chunks, a connection never flagged read exactly the packets of its whole byte stream, in order, each once, all of them passed, and keeps the incomplete tail |
| `TcpServer.SessionCounts` | src/network/tcpServer.js:90-99 | Over a whole connection the socket counter is the fixed-window counter of all the packets read, and let every one through |
| `TcpServer.AloneIsOneChunk` | src/network/tcpServer.js:71-144 | If nothing else changed the shared counters and cache, every gate answered as if the stream had come in one chunk |
| `TcpServer.GatesInOrder` | src/network/tcpServer.js:88-131 | Which attack a packet is flagged as: the first gate it fails of socket rate (50 per second), address rate, HMAC, signature, replay |
| `TcpServer.AttacksBan` | src/network/tcpServer.js:55-62 | More than 2 * threshold - 3 attacks of one address within a strike window, on whatever sockets and after whatever strikes, get it banned |
| `TcpServer.Connection.FlagAttack` | src/network/tcpServer.js:55-62 | An attack is one strike against the address and closes the socket |
| `TcpServer.Connection.InspectPacket` | src/network/tcpServer.js:88-131 | The gates are passed in order: socket rate, IP rate, HMAC, signature, replay |
| `TcpServer.Connection.Receive` | src/network/tcpServer.js:71-144 | The `data` handler is the specified step on buffer, counters, caches and flag; the blacklist gets one strike of the address if the chunk is flagged and is untouched otherwise |
| `ServerGates.NoPacketTwice` | src/network/tcpServer.js:101-131 | Over all sockets of a server, whatever their own counters, addresses and order: if one packet passes twice, at least `maxEntries` packets passed on the server strictly between |
| `ServerGates.IpQuota` | src/network/tcpServer.js:101-105 | Over all sockets of a server, at most 2 * limit - 1 packets of one address pass within one window (none for a limit of zero) |
| `ServerGates.PassIsGrant` | src/network/tcpServer.js:88-131 | In such a run a packet passes exactly when it verifies, gets past both counters and the guard, fed the requests of all sockets so far, accepts it |
| `FixedWindow.BurstBound` | src/network/ipRateLimiter.js:16-24 | At most 2 * limit calls pass in a closed interval of one window, one fewer when the counter is created by a call |
| `FixedWindow.BurstBoundTight` | src/network/ipRateLimiter.js:16-24 | Both bounds are reached for every limit of at least 1, by calls within one millisecond, hence for every window of at least 1 |
| `FixedWindow.ZeroWindow` | src/network/ipRateLimiter.js:16-24 | With a window of 0, which holds a single moment, at most `limit` calls pass |
| `FixedWindow.LongRunBound` | src/network/ipRateLimiter.js:16-24 | A run spanning T ms lets at most limit * (T / (window + 1) + 1) calls pass |
| `IpRateLimiter.OwnCounter` | src/network/ipRateLimiter.js:16-33 | Whatever other IPs do and whenever cleanup runs, an IP gets the answers of its own fixed-window counter |
| `IpRateLimiter.CleanupTransparent` | src/network/ipRateLimiter.js:27-33 | Dropping every cleanup from a run changes no answer |
| `IpRateLimiter.IpBurstBound` | src/network/ipRateLimiter.js:16-33 | From an empty table at most 2 * limit - 1 calls of an IP pass within one window (none for a limit of zero) |
| `IpRateLimiter.CleanedTable` | src/network/ipRateLimiter.js:27-33 | After any run of calls and cleanups from an empty table, right after a cleanup every address in it made a call in the last two windows |
| `IpRateLimiter.Limiter.Allow` | src/network/ipRateLimiter.js:16-24 | `allow` is the specified step on the table |
| `IpRateLimiter.Limiter.Cleanup` | src/network/ipRateLimiter.js:27-33 | The loop removes exactly the stale entries |
| `IpBlacklist.BanSound` | src/network/ipBlacklist.js:21-54 | Without explicit bans, an IP found banned committed `strikeThreshold` strikes within one window ending when the ban was set |
| `IpBlacklist.EnoughStrikesBan` | src/network/ipBlacklist.js:39-54 | More than 2 * threshold - 3 strikes within one window length force a ban, from any reachable state |
| `IpBlacklist.LargestBurstPasses` | src/network/ipBlacklist.js:39-54 | For every setting with a threshold above 1, 2 * threshold - 3 strikes within one millisecond can pass without a ban (seven with the defaults): the window is fixed, not sliding |
| `IpBlacklist.ForcedExactly` | src/network/ipBlacklist.js:39-54 | For every setting, n strikes within one window length always force a ban if and only if n exceeds 2 * threshold - 3 (0 for a threshold of 1) |
| `IpBlacklist.DefaultsForce` | src/network/ipBlacklist.js:39-54 | With the default settings, n strikes within a minute always force a ban if and only if n is at least eight |
| `IpBlacklist.BanExact` | src/network/ipBlacklist.js:21-54 | A ban set at t holds exactly on [t, t + banMs), strikes in between notwithstanding, and the next strike starts a new count |
| `IpBlacklist.StrikeAnswers` | src/network/ipBlacklist.js:39-54 | During a ban a strike changes nothing and tells the threshold; otherwise it tells the count of its window, which at the threshold becomes a ban |
| `IpBlacklist.OwnEntry` | src/network/ipBlacklist.js:21-64 | Whatever other IPs do and whenever cleanup runs, an IP gets the answers of its own entry |
| `IpBlacklist.CleanupKeeps` | src/network/ipBlacklist.js:57-64 | A cleanup forgets exactly the bans that are over and the strikes whose window is, and keeps the rest as it is |
| `IpBlacklist.Blacklist.IsBanned` | src/network/ipBlacklist.js:21-30 | `isBanned` is the specified query, lazy removal included |
| `IpBlacklist.Blacklist.Ban` | src/network/ipBlacklist.js:32-36 | `ban` sets the ban and forgets the strikes |
| `IpBlacklist.Blacklist.Strike` | src/network/ipBlacklist.js:39-54 | `strike` is the specified step, answer included |
| `IpBlacklist.Blacklist.Cleanup` | src/network/ipBlacklist.js:57-64 | The loops remove exactly the expired bans and windows |
| `Replay.NoDoubleAcceptance` | src/protocol/replay.js:20-53 | If one packet is accepted twice, at least `maxEntries` others were accepted strictly between, whatever the timestamps and wherever the purge stops |
| `Replay.ReplayIff` | src/protocol/replay.js:33-53 | A repeated, still fresh packet is accepted exactly when the cache has turned over since its last acceptance |
| `Replay.FirstAcceptedIff` | src/protocol/replay.js:33-53 | A request whose node and nonce were not accepted before is accepted if and only if its timestamp is a number at most the window before or after the time of the check |
| `Replay.AcceptedInWindow` | src/protocol/replay.js:33-37 | Whatever is accepted has such a timestamp |
| `Replay.OutOfWindowExactly` | src/protocol/replay.js:33-37 | Exactly other timestamps are refused as out of the window, and they leave the cache alone |
| `Replay.CacheBounded` | src/protocol/replay.js:45-51 | The cache never exceeds `maxEntries` (at least one) and its keys are distinct |
| `Replay.KeyInjective` | src/protocol/replay.js:15-17 | Different node and nonce pairs have different keys |
| `Replay.ReplayAfterEviction` | src/protocol/replay.js:45-51 | With room for one entry a packet is accepted twice around another one |
| `Replay.PurgeCompleteIff` | src/protocol/replay.js:20-30 | A purge leaves valid entries only, if and only if no expired entry stood behind a valid one |
| `Replay.InOrderPurges` | src/protocol/replay.js:20-30 | After any run whose accepted requests carry nondecreasing timestamps every purge is complete |
| `Replay.PurgeStopsEarly` | src/protocol/replay.js:20-30 | A run of two accepted packets, the later one stamped earlier, leaves an expired entry that the purge does not reach |
| `Replay.ReplayGuard.PurgeExpired` | src/protocol/replay.js:20-30 | The loop removes exactly the leading expired entries |
| `Replay.ReplayGuard.CheckRequest` | src/protocol/replay.js:33-53 | `check` is the specified step, verdict and cache (`Replay.FirstAcceptedIff` and `Replay.ReplayIff` say which verdict) |
| `Checksum.Fold` | demo/alice-bob-demo.js:34 | The folding loop on signed 32-bit values ends; it gives the one's-complement sum exactly when the multiple of 2^32 lost by the conversion vanishes modulo 0xffff and the converted value does not fold to zero |
| `Checksum.FoldsRightBelow` | demo/alice-bob-demo.js:34 | For a 32-bit sum that is so exactly below 2^31 |
| `Checksum.OnesSumIsReducedTotal` | demo/alice-bob-demo.js:31-36 | One's-complement addition of words is their integer sum reduced modulo 0xffff |
| `Checksum.CheckVerifies` | demo/alice-bob-demo.js:31-47 | Writing the checksum of a buffer into its zero field makes the buffer sum to all ones |
| `Checksum.SegmentVerifies` | demo/alice-bob-demo.js:50-70 | For every payload that fits, the IP header and the pseudo-header with the TCP segment sum to 0xffff, odd lengths included |
| `WireLayout.SegmentLayout` | demo/alice-bob-demo.js:50-70 | Every field of the segment is where section 3.1 of RFC 791 and section 3.1 of RFC 9293 put it, sender before receiver |
| `Checksum.IpChecksum` | demo/alice-bob-demo.js:31-36 | `ipChecksum` throws exactly on odd lengths and is right exactly for the sums that fold right, below 2^32 those below 2^31 |
| `Checksum.TcpChecksum` | demo/alice-bob-demo.js:37-47 | `tcpChecksum` is right exactly when the sum stays below 2^31 and throws exactly over 65535 bytes |
| `Checksum.LongestTcpOverflows` | demo/alice-bob-demo.js:37-47 | The longest segment it accepts, all 0xff, reaches 2^31 |
| `Checksum.BuildSegment` | demo/alice-bob-demo.js:50-70 | The buffers written field by field are the specified segment; the throw is exactly on payloads that do not fit |

## Left out

- What a node sends (`_safeSend`, the announcements of `attachSession` and `seed`) and the events it emits: replies reach the model as `GotData` events from any peer. `FileSession` says what a serving node sends as a condition on the bodies handed to `send`.
- FileNode.NextKeepsInv: verified manifests with the same identifier agree (`FileNode.Agrees`), because the store keeps the first one it saw; `TransferWitness.DisagreementRejects` is a run where they do not and `FileNode.AgreementNeeded` says when reassembly works. A second download of an active file is covered; that the first one's promise then never settles is not stated.
- Persistence: `index.json`, directories and file descriptors are in-memory maps; a restart is not modelled. `ManifestHash` and message MANIFEST take the JSON text as a function.
- Hexadecimal spellings: digests and identifiers are the byte strings they stand for, except in the replay keys, whose injectivity is proved.
- Sockets, timers and backpressure are events. A destroyed socket reads nothing more; what it had written may or may not arrive.
- The per-node sequence suffix of `attachSession` is the number of the session; its state is `Peer`.
- Liveness under timeouts: a slow peer may be asked again without end, as `TransferWitness.SlowPeerAskedAgain` begins; only that the measure does not grow is claimed.
- IpBlacklist: settings are positive, as the `||` defaults make zero and absent settings.
- SecureConnection: reports to the security monitor (`_report`) and the IP defences shared between sessions appear only as the answer of the frame limiter for each frame.
- SessionObject.SecureConnection: the responder's session object is created when MSG3 is consumed, not when MSG1 is; `pending` is a field for the local list of frames.
- Handshake: the all-zero-secret refusal of X25519 is the `None` of `dh`; honest exchanges never meet it.
- SessionKeys.KeysAgreeIff: assumes renewal injective with no first key among its values (`SessionKeys.Separates`). On keys of one length an injective renewal is a permutation and has no such key; there `SessionKeys.AllDifferIff` is the exact statement, and how soon a key comes back is a matter of HKDF.
- Cryptographic strength and randomness of nonces. `SessionInput.PeerAuthenticated` says which signature was verified, not who can produce it.
- `src/session/peerManager.js`, `src/node/`, `src/security/attackLog.js`, discovery, HTTP, UI and command line: wiring or easy members.
