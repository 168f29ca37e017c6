# Jitong IM, modelled and proved

This project models the parts of the Jitong instant messenger in which a mistake would not show up in a
finite number of examples, and proves what they promise: the streaming SHA-256 of the upload path, the
application-layer secure channel between the Android client and the C++ server with its framing and write
queues, refresh-token rotation, the message log with its single-writer queue, paging and delivery, the
client's message lists, the AI request limiter and the context builder. `dafny verify dfyconfig.toml`
checks everything.

The files follow the components.

| file | component |
|---|---|
| `Sha256.dfy` | `protocol/sha256.h` against FIPS 180-4 |
| `Bytes.dfy`, `Framing.dfy` | length and type framing, both ends, and the Kotlin `Frame` |
| `WriteQueue.dfy` | the outgoing queues of `Session.cpp` and `TcpTransport.cpp` |
| `Hkdf.dfy` | the two HKDF loops against RFC 5869 |
| `Channel.dfy` | the established channel: two ends and an arbitrary network |
| `Handshake.dfy` | transcripts, key schedule, both handshake machines, agreement |
| `Session.dfy` | the whole life of a server connection, and the class that carries it out |
| `SecureSession.dfy` | the handshake handed on to the channel, and an honest run of both |
| `Tokens.dfy`, `TokenLaws.dfy` | the auth tables, `TokenService`, and the client's retry loop; exactly when a token is exchanged and when it validates |
| `DbWriteQueue.dfy` | the single-writer queue |
| `MessageLog.dfy`, `Paging.dfy` | the message table, and history by pages |
| `Delivery.dfy`, `DeliveryLaws.dfy` | who is handed which message; exactly when one counts as delivered |
| `ClientList.dfy` | the Android message lists |
| `AiLimiter.dfy`, `AiRequests.dfy` | the limiter, and the active and cancelled sets around it |
| `AiContext.dfy` | `utf8Truncate` and `buildReplyContext` |
| `ConversationId.dfy` | the packed conversation id and its migrations |
| `Sorting.dfy`, `Options.dfy` | stable sorting, used by the message log and the client lists; the option type |

Components that change state are classes or methods whose contracts name the new state as a function of the
old one; what the system promises is then proved about that function over whole runs. Concurrency is a step
function over atomic actions (a lock's critical section, a queue task, a strand handler), and the theorems
hold for every sequence of actions.

What is taken as given, and where:

- X25519, Ed25519, HMAC, SHA-256 and AES-GCM are functions passed in. AES-GCM is ideal in `ChannelRun`:
  an envelope opens only to what was sealed under the same key, nonce and additional data. Protobuf is a
  pair that round-trips.
- Signatures and MACs are ideal in `HandshakeRun.Ideal`, which speaks of the bytes that arrive and not of
  what either end makes of them: if a pinned key verifies the signature that has arrived, the server has
  signed that transcript; if the MAC of a key and data has arrived, somebody has made it. For an honest
  exchange (`Handshake.HonestParties`) the pinned key verifies whatever the server's key signs.
- The agreement theorems further assume that the two transcripts at hand do not collide under SHA-256
  (`HandshakeRun.NoCollision`), that the adversary has used no Finished key agreed between two honest
  ephemeral keys (`ClientKeysSecret`), and that lengths and key ids fit their 32-bit fields (`Bounded`).
  `SecureSessionExample.EndToEndHappens` gives a run in which all of them hold.
- The channel theorems assume that the derived keys or the derived prefixes of the two directions differ
  (`ChannelRun.SeparateDirections`), which the code does not check either.
- Random tokens, session and family ids are fresh (`TokenSpec.Admissible`). The honest-client theorems
  assume a fair run (`RefreshClient.Fair`): nobody else presents tokens of this client's family or its
  request id, a new request id is not one already remembered, and the pending entry is neither the victim
  of the cache cap nor past its 120 seconds (`RefreshClient.Retained`).
- The clock of the limiter never goes back (`AiLimiter.Monotonic`).
- Database writes may fail: `begun`, `stored`, `inserted`, `recorded`, `renewed` and `committed` are
  parameters that say which statement or transaction goes through, and `AuthTables.Update` says whether a
  revoking update is prepared and carried out. Reads are assumed to succeed.
- Randomness, time, the network and other connections' actions are parameters or events.

Some properties that one might expect hold only under a condition; each lemma states it exactly:
`Framing.FrameRoundTrip` (the 10 MB limit counts the type field), `ConversationId.WhenFormsAgree` (ids that
are not positive), `RefreshClient.ResendAnswered` (the 120 seconds and the cache cap; a failing input is
`TooLateLosesTheFamily`), `TokenSpec.ReplayRevokes` (the revoking update is carried out),
`AiContext.CutIsLastExactlyWhen` (a cut message need not be the last of the context; a failing input is
`CutIsNotAlwaysLast`), and for any message, cut or not, `AiContext.LastExactlyWhen`;
`DeliveryLaws.PulledExactlyWhen` (a message handed over by a chat is pulled again unless that chat stored it
new; a failing input is `ResentComesTwice`).

A comment in `Database.cpp` (line 747) says that `saveMessage` went back to a plain `BEGIN`; the code
executes `BEGIN IMMEDIATE`, which makes no difference to the model.

## Model

| member | source | states |
|---|---|---|
| Sha256Spec.PaddingIsLeast | IMproject-main/protocol/sha256.h:45-60 | the number of zero bits solves the padding equation of section 5.1.1 of FIPS 180-4, and no smaller number does |
| Sha256Spec.Pad | IMproject-main/protocol/sha256.h:45-60 | the padded message is a whole number of 64-byte blocks for every length |
| Sha256Spec.Digest | IMproject-main/protocol/sha256.h:62-69 | a digest is 32 bytes |
| Sha256Spec.ChainStep | IMproject-main/protocol/sha256.h:30-36 | compressing one more block is one more link of the chain defined over the whole padded message |
| StreamingSha256.Sha256.constructor | IMproject-main/protocol/sha256.h:14-28 | a new object has absorbed nothing |
| StreamingSha256.Sha256.Reset | IMproject-main/protocol/sha256.h:16-28 | reset leaves the initial state, whatever was absorbed before |
| StreamingSha256.Sha256.Transform | IMproject-main/protocol/sha256.h:84-119 | one block: the array state becomes the recursive compression of the old state and the buffer |
| StreamingSha256.Sha256.RunRounds | IMproject-main/protocol/sha256.h:99-111 | the 64 rounds over the eight working variables are the rounds of the specification |
| StreamingSha256.Sha256.FillSchedule | IMproject-main/protocol/sha256.h:86-97 | the array w holds the 64 words of the recursive schedule |
| StreamingSha256.Sha256.Update | IMproject-main/protocol/sha256.h:30-36 | after any chunk the object represents everything absorbed so far followed by the chunk |
| StreamingSha256.Sha256.Final | IMproject-main/protocol/sha256.h:45-71 | for every message under 2^64 bits, and every residue of the buffer, the output is the one-shot digest of all that was absorbed |
| StreamingSha256.Sha256.PadTail | IMproject-main/protocol/sha256.h:47-55 | the 0x80 byte and zeros, in one block or two, precede the length field exactly as in the padded message |
| StreamingSha256.Sha256.WriteLength | IMproject-main/protocol/sha256.h:56-60 | the 64-bit length goes big-endian into the last eight bytes, which completes the block |
| StreamingSha256.Sha256.Emit | IMproject-main/protocol/sha256.h:62-70 | the state words leave big-endian |
| StreamingSha256.PadSplit | IMproject-main/protocol/sha256.h:47-55 | all 64 residues: whether the tail spills or not, what precedes the length field is message, 0x80 and the fewest zeros |
| StreamingSha256.HashChunks | IMproject-main/protocol/sha256.h:30-71 | however a byte string is cut into update calls, the digest is that of the whole |
| StreamingSha256.Sha256Hex | IMproject-main/protocol/sha256.h:126-140 | sha256Hex spells the digest in 64 lower-case hexadecimal digits: two for each byte in order, the first for the sixteens |
| StreamingSha256.SpellingIsUnique | IMproject-main/protocol/sha256.h:126-140 | a byte string is spelled in exactly one way |
| Bytes.BigEndian32RoundTrip | IMproject-main/im_server/src/Session.h:25-38 | a length written big-endian is read back |
| Bytes.LittleEndian32RoundTrip | IMproject-main/im_server/src/Session.h:41-55 | a type written little-endian is read back |
| Bytes.ByteOrder | IMproject-main/im_server/src/Session.h:25-55 | which byte is written first, for lengths and for types |
| Framing.BodyRoundTrip | IMproject-main/im_server/src/Session.cpp:164-200 | a body is read back with the rest of the stream untouched if and only if its length is legal |
| Framing.FrameRoundTrip | IMproject-main/im_server/src/Session.cpp:144-200 | a frame is recovered if and only if its type and payload together are within the 10 MB limit |
| Framing.BodyStream | IMproject-main/client_core/src/TcpTransport.cpp:124-145 | repeated reading recovers exactly the list of bodies, however long |
| Framing.FrameStream | IMproject-main/im_server/src/Session.cpp:164-200 | repeated reading recovers exactly the list of types and payloads |
| Framing.ReadingIsMonotone | IMproject-main/im_server/src/Session.cpp:164-200 | what has been read never changes when more bytes arrive |
| Framing.CutStream | IMproject-main/im_server/src/Session.cpp:164-200 | a stream cut at any byte yields a prefix of the frames sent |
| Framing.OversizedFrameBreaks | IMproject-main/im_server/src/Session.cpp:171-175 | an oversized frame ends reading: its predecessors are recovered and nothing behind it is |
| FrameKt.EncodeArray | IMproject-main/jitong_android/app/src/main/java/com/jitong/im/net/Frame.kt:14-29 | the Kotlin encoder fills its array with the same bytes as the server |
| FrameKt.ReadFrom | IMproject-main/jitong_android/app/src/main/java/com/jitong/im/net/Frame.kt:32-49 | reading consumes exactly one frame, or reports the clean end, a truncated stream or an illegal length |
| FrameKt.ReadLoop | IMproject-main/jitong_android/app/src/main/java/com/jitong/im/net/Frame.kt:32-49 | the client's loop hands up exactly the frames sent, then the clean end |
| SessionWriteQueue.WireIsInOrder | IMproject-main/im_server/src/Session.cpp:144-152 | in every run the bytes written followed by those queued are the enqueued frames in order, with at most one write in flight |
| SessionWriteQueue.DrainedBeforeClose | IMproject-main/im_server/src/Session.cpp:418-439 | when the socket is closed, every frame enqueued before closeAfterWrite is on the wire, in order |
| SessionWriteQueue.DrainCloses | IMproject-main/im_server/src/Session.cpp:491-499 | in any run in which closeAfterWrite was asked for, completing the queued writes and the posted close ends with the socket closed |
| SessionWriteQueue.PeerReadsPromised | IMproject-main/im_server/src/Session.cpp:491-499 | the peer reads the frames enqueued before closeAfterWrite first, complete and in order |
| SessionWriteQueue.Session.EnqueueRawFrame | IMproject-main/im_server/src/Session.cpp:144-152 | appends the encoded frame and starts a write exactly when the queue was empty |
| SessionWriteQueue.Session.OnWritten | IMproject-main/im_server/src/Session.cpp:428-438 | a completed write moves one frame to the wire, starts the next or posts the close |
| SessionWriteQueue.Session.CloseAfterWriteTask | IMproject-main/im_server/src/Session.cpp:491-499 | closes at once when nothing is queued, else leaves the close to the last write |
| SessionWriteQueue.Session.CloseTask | IMproject-main/im_server/src/Session.cpp:441-463 | the posted close shuts the socket and nothing else happens afterwards |
| TcpTransport.WireIsInOrder | IMproject-main/client_core/src/TcpTransport.cpp:88-160 | bytes written, queued and posted are together what was posted, in order, with at most one write in flight |
| TcpTransport.PeerReadsBodies | IMproject-main/client_core/src/TcpTransport.cpp:88-145 | reading all that is written, queued and posted recovers exactly the bodies sent, without the empty and the oversized ones |
| TcpTransport.DrainedBeforeClose | IMproject-main/client_core/src/TcpTransport.cpp:104-160 | once the socket is closed every body posted before close() is completely on the wire |
| TcpTransport.DrainCloses | IMproject-main/client_core/src/TcpTransport.cpp:104-160 | in any run in which close() was called, carrying out the posted tasks and completing the queued writes ends with the socket closed |
| TcpTransport.Client.SendBody | IMproject-main/client_core/src/TcpTransport.cpp:88-102 | posts the framed body; a closed transport, an empty body or one over the limit is dropped |
| TcpTransport.Client.CloseTransport | IMproject-main/client_core/src/TcpTransport.cpp:104-122 | stops accepting and posts the close behind everything already posted |
| TcpTransport.Client.RunOneTask | IMproject-main/client_core/src/TcpTransport.cpp:97-118 | the oldest posted task appends its bytes and starts a write when idle, or closes at once or marks the transport as closing |
| TcpTransport.Client.OnWritten | IMproject-main/client_core/src/TcpTransport.cpp:147-160 | a completed write starts the next or, when closing, shuts the socket |
| Hkdf.OkmByte | IMproject-main/im_server/src/crypto/AppCrypto.cpp:183-207 | byte i of the output is byte i mod 32 of T(i / 32 + 1) of section 2.3 of RFC 5869 |
| Hkdf.OkmPrefix | IMproject-main/im_server/src/crypto/AppCrypto.cpp:183-207 | a shorter request is a prefix of a longer one |
| Hkdf.BlockStep | IMproject-main/im_server/src/crypto/AppCrypto.cpp:196-204 | one turn of the loop appends HMAC(previous, info, counter) cut at the length, and the one-byte counter has not wrapped |
| Hkdf.LoopEnds | IMproject-main/im_server/src/crypto/AppCrypto.cpp:196-206 | the loop stops after exactly ceil(L / 32) blocks |
| Hkdf.HkdfServer | IMproject-main/im_server/src/crypto/AppCrypto.cpp:183-207 | the C++ loop returns the first L bytes of T(1), T(2), ..., or refuses L over 255 * 32 |
| Hkdf.HkdfClient | IMproject-main/jitong_android/app/src/main/java/com/jitong/im/net/AppCrypto.kt:153-181 | the Kotlin loop returns the same bytes or the same refusal |
| Hkdf.BothEnds | IMproject-main/jitong_android/app/src/main/java/com/jitong/im/net/AppCrypto.kt:153-181 | for any HMAC and any length both ends derive the same bytes, and do so if and only if the length is at most 255 * 32 |
| Channel.NonceInjective | IMproject-main/jitong_android/app/src/main/java/com/jitong/im/net/SecureChannel.kt:25-52 | under one prefix a nonce determines the sequence number; different prefixes never meet |
| Channel.PlainRoundTrip | IMproject-main/im_server/src/Session.cpp:202-227 | the type is recovered from the first four plaintext bytes and the payload from the rest |
| Channel.AcceptedExactlyWhen | IMproject-main/im_server/src/Session.cpp:229-272 | exactly when a frame is handed up: version, session, next number below the end's own limit, 16-byte tag, opening under the other side's key and prefix, and no control type |
| Channel.SealedUnder | IMproject-main/im_server/src/Session.cpp:202-227 | a sealed frame carries its type and payload under this side's key, prefix, session and next number |
| Channel.AadInjective | IMproject-main/jitong_android/app/src/main/java/com/jitong/im/net/SecureChannel.kt:25-52 | the additional data bind the session and the sequence number |
| SecureChannelKt.SecureChannel.Encrypt | IMproject-main/jitong_android/app/src/main/java/com/jitong/im/net/SecureChannel.kt:25-52 | seals under the next sequence number, or throws and leaves the channel as it was |
| SecureChannelKt.SecureChannel.Decrypt | IMproject-main/jitong_android/app/src/main/java/com/jitong/im/net/SecureChannel.kt:54-92 | accepts only the next number of this session that opens to a business type, and counts it only then |
| SecureChannelKt.SecureChannel.Destroy | IMproject-main/jitong_android/app/src/main/java/com/jitong/im/net/SecureChannel.kt:94-101 | wipes both keys, both prefixes and the session id, and resets both counters |
| ChannelRun.DeliveredIsPrefix | IMproject-main/im_server/src/Session.cpp:229-272 | whatever the network drops, reorders, duplicates or alters, each end hands up a prefix of what the other sent |
| ChannelRun.NoncesAreFresh | IMproject-main/im_server/src/Session.cpp:202-227 | no nonce is used twice under either key |
| ChannelRun.ClientSendsNoControl | IMproject-main/jitong_android/app/src/main/java/com/jitong/im/net/SecureChannel.kt:25-52 | the client never sends a control type under the keys of the channel |
| ChannelRun.OnlyTheNextIsAccepted | IMproject-main/im_server/src/Session.cpp:229-272 | an accepted frame is the next one sent, and is refused when it arrives again |
| ChannelRun.BadFrameEndsDelivery | IMproject-main/im_server/src/Session.cpp:229-272 | one frame that is not accepted ends delivery for good |
| ChannelRun.ClosedIsSilent | IMproject-main/im_server/src/Session.cpp:441-454 | a closed end stays closed, sends nothing and hands up nothing in any continuation |
| ChannelRun.HonestFrameArrives | IMproject-main/jitong_android/app/src/main/java/com/jitong/im/net/SecureChannel.kt:54-92 | an unaltered business frame that arrives in order is handed up |
| Handshake.SigningTranscriptInjective | IMproject-main/im_server/src/Session.cpp:49-65 | equal signing transcripts mean equal hello, version, key, nonce, session id, key id and suite |
| Handshake.FinishedInputInjective | IMproject-main/im_server/src/Session.cpp:67-75 | equal Finished inputs mean equal hello payloads |
| Handshake.Labels | IMproject-main/im_server/src/Session.cpp:49-350 | the three labels that keep transcripts, keys and frames apart, letter by letter |
| Handshake.CutIsPartition | IMproject-main/im_server/src/Session.cpp:352-358 | the six slices of the 136-byte material are the material, in order, each of its own size |
| Handshake.ServerAnswersExactlyWhen | IMproject-main/im_server/src/Session.cpp:274-395 | exactly which frame the server answers in which state; any other closes the connection and leaves its secrets |
| Handshake.ClientAcceptsExactlyWhen | IMproject-main/jitong_android/app/src/main/java/com/jitong/im/net/SecureChannel.kt:120-200 | exactly which ServerHello the client accepts: sizes, pin, signature over its own hello, and agreement |
| Handshake.ClientFinishesExactlyWhen | IMproject-main/jitong_android/app/src/main/java/com/jitong/im/net/SecureChannel.kt:200-236 | exactly which ServerFinished makes the client use the keys |
| Handshake.HonestHandshake | IMproject-main/im_server/src/Session.cpp:310-395 | over an honest network, whatever the server state before, each message is accepted in turn and both ends finish with equal secrets; only the size limit of the last message is a condition |
| HandshakeRun.RunKeeps | IMproject-main/im_server/src/Session.cpp:310-395 | every run with an adversary keeps what is known about every signature, MAC and connection |
| HandshakeRun.ClientNeverSkipsACheck | IMproject-main/jitong_android/app/src/main/java/com/jitong/im/net/SecureChannel.kt:120-236 | in any run, whatever can be forged, a client that has sent its Finished holds a hello that its pinned key verifies, and keys cut from the material of its own secret, both nonces, the session id and the hashed hellos |
| HandshakeRun.ServerNeverSkipsACheck | IMproject-main/im_server/src/Session.cpp:310-370 | in any run a connection past its hello has had a valid one, and its keys are cut in the same way |
| HandshakeRun.SameTranscriptSameSecrets | IMproject-main/jitong_android/app/src/main/java/com/jitong/im/net/SecureChannel.kt:120-236 | matching transcripts give both ends the same session id, keys, prefixes and Finished keys |
| HandshakeRun.AcceptedKeyIsTheServers | IMproject-main/jitong_android/app/src/main/java/com/jitong/im/net/SecureChannel.kt:238-263 | an accepted ServerHello carries the ephemeral key the server drew for this very hello |
| HandshakeRun.ClientAgreement | IMproject-main/jitong_android/app/src/main/java/com/jitong/im/net/SecureChannel.kt:120-236 | when the client has completed, a server connection has completed with the same hellos, session id, keys and prefixes |
| HandshakeRun.ServerAgreement | IMproject-main/im_server/src/Session.cpp:372-395 | when a server connection has completed under a Finished key the adversary has not used, this client has sent its Finished over the same hellos with the same secrets, whether it still waits, has completed or has failed since |
| SessionLife.RunKeeps | IMproject-main/im_server/src/Session.cpp:202-272 | every run keeps the link between security state, counters, secrets and the nonces used |
| SessionLife.NoNonceTwice | IMproject-main/im_server/src/Session.cpp:202-227 | over the whole life of a connection all sealing is under one key and no nonce repeats |
| SessionLife.OutputsAreLicensed | IMproject-main/im_server/src/Session.cpp:121-142 | a ServerHello is answered in clear only to the first hello and a ServerFinished only on establishing; nothing is enciphered or handed up unless established, and each frame handed up counts the receive number by one |
| SessionLife.OnlyTheHandshakeInClear | IMproject-main/im_server/src/Session.cpp:121-142 | over a whole connection at most one ServerHello and then one ServerFinished leave in clear, and exactly these two once established |
| SessionLife.CounterResetsOnlyWhenClosed | IMproject-main/im_server/src/Session.cpp:441-454 | neither the send nor the receive counter falls except when the connection is closed for good |
| SessionLife.RefusedIsFinal | IMproject-main/im_server/src/Session.cpp:121-142 | after one refused frame nothing is handed up, enciphered or answered, in any continuation |
| SessionLife.ClosingWipes | IMproject-main/im_server/src/Session.cpp:441-463 | once the socket has closed, keys, Finished keys, transcript and counters are gone, in any continuation |
| SessionLife.NoKeysBeforeTls | IMproject-main/im_server/src/Session.cpp:441-489 | before TLS completes there are no keys |
| SessionLife.TimeoutEndsOpenHandshake | IMproject-main/im_server/src/Session.cpp:405-416 | a timeout ends an open handshake for good and does nothing to an established channel |
| SessionCpp.Session.OnTlsDone | IMproject-main/im_server/src/Session.cpp:465-489 | TLS completion opens the application handshake |
| SessionCpp.Session.Deliver | IMproject-main/im_server/src/Session.cpp:121-142 | what is enqueued, raw or enciphered, and the state afterwards, are those of the step |
| SessionCpp.Session.EncryptBusinessFrame | IMproject-main/im_server/src/Session.cpp:202-227 | seals under the next sequence number or refuses and closes |
| SessionCpp.Session.OnFrame | IMproject-main/im_server/src/Session.cpp:177-200 | the reply and the business frame handed up are those of the step |
| SessionCpp.Session.HandleApplicationHandshake | IMproject-main/im_server/src/Session.cpp:274-296 | each handshake type is accepted only in its state, anything else ends the connection |
| SessionCpp.Session.HandleClientHello | IMproject-main/im_server/src/Session.cpp:310-370 | validates, agrees, derives and answers, or fails the handshake |
| SessionCpp.Session.CutMaterial | IMproject-main/im_server/src/Session.cpp:352-358 | the fields become the six slices of the material |
| SessionCpp.Session.HandleClientFinished | IMproject-main/im_server/src/Session.cpp:372-395 | a Finished that verifies establishes the channel, any other ends it |
| SessionCpp.Session.HandleEncryptedFrame | IMproject-main/im_server/src/Session.cpp:229-272 | accepts only the next number that opens to a business type, else closes |
| SessionCpp.Session.OnClosed | IMproject-main/im_server/src/Session.cpp:441-463 | closing resets counters and wipes keys only with the state Closed |
| SessionCpp.Session.ClearKeys | IMproject-main/im_server/src/Session.cpp:447-451 | all keys and the transcript hash are gone |
| SessionCpp.Session.OnTimeout | IMproject-main/im_server/src/Session.cpp:405-416 | a timeout ends the connection only while the handshake is open |
| SessionCpp.Establish | IMproject-main/jitong_android/app/src/main/java/com/jitong/im/net/SecureChannel.kt:120-236 | the client sends these two payloads and ends with these keys, or fails at the first frame that does not check |
| SecureSession.HandshakeOpensChannel | IMproject-main/jitong_android/app/src/main/java/com/jitong/im/net/SecureChannel.kt:120-236 | when the client has completed under an active adversary, it and one connection of the server are at the start of one and the same channel |
| SecureSession.EndToEnd | IMproject-main/im_server/src/Session.cpp:202-395 | after such a handshake, whatever the network does, each end hands up a prefix of what the other sent and no nonce repeats under either key |
| SecureSession.HonestRunCompletes | IMproject-main/im_server/src/Session.cpp:310-395 | honest parties meet the assumptions of the agreement theorems, and their run completes at both ends |
| SecureSessionExample.EndToEndHappens | IMproject-main/jitong_android/app/src/main/java/com/jitong/im/net/SecureChannel.kt:120-236 | a concrete run meets every assumption of the end-to-end theorem |
| AuthTables.CreateKeeps | IMproject-main/im_server/src/Database.cpp:1035-1061 | a fresh login is never refused and keeps every law of the tables |
| AuthTables.RotateKeeps | IMproject-main/im_server/src/Database.cpp:1116-1163 | a rotation moves the old hash to the history and keeps every law of the tables |
| AuthTables.RevokeKeeps | IMproject-main/im_server/src/Database.cpp:1183-1223 | revoking a family, a session or a user keeps every law of the tables |
| TokenSpec.RunKeeps | IMproject-main/im_server/src/auth/TokenService.cpp:95-205 | every reachable auth state satisfies the laws, and the cache never exceeds 1024 entries |
| TokenSpec.FamilyLaw | IMproject-main/im_server/src/auth/TokenService.cpp:151-205 | a family has one session, its generation is one more than its history, which carries exactly generations 1..g-1, and no hash is both live and in history |
| TokenSpec.AtMostOneUsable | IMproject-main/im_server/src/auth/TokenService.cpp:133-205 | of all tokens ever issued in a family at most one refresh and one access token are usable |
| TokenSpec.ReplayRevokes | IMproject-main/im_server/src/auth/TokenService.cpp:174-182 | a rotated token presented under a request the cache does not know is refused; its family is revoked exactly if the update is carried out or it was revoked before, and its user is reported unless the update cannot be prepared |
| TokenSpec.DeadForever | IMproject-main/im_server/src/Database.cpp:1183-1201 | revocation is permanent: in every continuation the family stays revoked |
| TokenSpec.DeadTokensAreUseless | IMproject-main/im_server/src/auth/TokenService.cpp:133-198 | no token ever issued in a revoked family validates or rotates; exactly a remembered request is still answered, with a pair that does not validate |
| TokenSpec.ReplayIsFinal | IMproject-main/im_server/src/auth/TokenService.cpp:133-205 | after one replay whose revocation is carried out, whatever happens next, no token of the family validates or rotates |
| TokenSpec.RunKeepsCache | IMproject-main/im_server/src/auth/TokenService.cpp:159-204 | in every run a remembered pair belongs to the family of the token it was exchanged for |
| RefreshClient.LoginIsHonest | IMproject-main/jitong_android/app/src/main/java/com/jitong/im/ui/MainViewModel.kt:710-725 | a client that has just been given its first pair holds a live token |
| RefreshClient.HonestRun | IMproject-main/jitong_android/app/src/main/java/com/jitong/im/ui/MainViewModel.kt:1174-1187 | in every fair run the client token is live, or its exchange is remembered under the pending id |
| RefreshClient.FirstAnswer | IMproject-main/im_server/src/auth/TokenService.cpp:185-204 | a granted pair is remembered under its request id for 120 seconds and its refresh token is live |
| RefreshClient.LostAnswerHappens | IMproject-main/im_server/src/auth/TokenService.cpp:159-204 | a concrete login, an exchange whose answer is lost, and a retry or a replay meet all the assumptions of the honest-client and replay theorems |
| RefreshClient.RetryGetsTheSamePair | IMproject-main/im_server/src/auth/TokenService.cpp:159-172 | after the first success every further attempt, whatever was lost before it, gets the identical pair and changes no table |
| RefreshClient.HonestNeverRevokes | IMproject-main/jitong_android/app/src/main/java/com/jitong/im/ui/MainViewModel.kt:1174-1187 | no attempt of an honest client ever revokes a family, whichever requests or answers are lost |
| RefreshClient.ResendAnswered | IMproject-main/im_server/src/auth/TokenService.cpp:159-182 | an exchanged token is answered again if and only if its request is still remembered for this token and device; if it is not remembered at all, the family is revoked exactly as the update is carried out |
| RefreshClient.TooLateLosesTheFamily | IMproject-main/im_server/src/auth/TokenService.cpp:159-182 | the same request of an honest client is answered with the same pair one second before its entry expires and loses the family at the expiry |
| TokenServer.Database.FindByAccessHash | IMproject-main/im_server/src/Database.cpp:1086-1099 | the row with this access hash, if any |
| TokenServer.Database.FindByRefreshHash | IMproject-main/im_server/src/Database.cpp:1101-1114 | the row with this refresh hash, if any |
| TokenServer.Database.WasRefreshTokenUsed | IMproject-main/im_server/src/Database.cpp:1165-1181 | the family under which the hash is in the history, if it is |
| TokenServer.Database.CreateAuthSession | IMproject-main/im_server/src/Database.cpp:1035-1061 | one new first-generation row, or nothing when an id or hash is taken or the insert fails |
| TokenServer.Database.RotateRefreshToken | IMproject-main/im_server/src/Database.cpp:1116-1163 | history row and guarded update together, or the tables of before, whichever statement fails |
| TokenServer.Database.Withdraw | IMproject-main/im_server/src/Database.cpp:1203-1223 | exactly the rows named are flagged revoked, or none when the update fails |
| TokenServer.Database.RevokeTokenFamily | IMproject-main/im_server/src/Database.cpp:1183-1201 | the whole family is revoked unless the update fails; its user is reported unless the update cannot be prepared |
| TokenServer.TokenService.IssuePair | IMproject-main/im_server/src/auth/TokenService.cpp:95-131 | a new family with five minutes and two days of life, or an error and unchanged tables when it could not be saved |
| TokenServer.TokenService.ValidateAccess | IMproject-main/im_server/src/auth/TokenService.cpp:133-149 | valid exactly for a live, unexpired, unrevoked access hash on its device and session |
| TokenServer.TokenService.PurgeResults | IMproject-main/im_server/src/auth/TokenService.cpp:161-164 | the loop removes exactly the expired entries |
| TokenServer.TokenService.RotateRefresh | IMproject-main/im_server/src/auth/TokenService.cpp:151-205 | result, reported user, tables and cache are those of the specified refresh, with other revocations in between and any statement failing |
| TokenServer.TokenService.RevokeSession | IMproject-main/im_server/src/auth/TokenService.cpp:207-210 | an empty id revokes nothing; any other revokes its session unless the update fails |
| TokenServer.TokenService.RevokeAllForUser | IMproject-main/im_server/src/auth/TokenService.cpp:212-215 | only positive users are revoked, unless the update fails |
| TokenLaws.GrantedExactlyWhen | IMproject-main/im_server/src/auth/TokenService.cpp:151-205 | in every reachable state a pair is granted if and only if the answer is remembered for this token and device, or a session holds the token on this device, neither expired nor revoked before or meanwhile, the drawn hashes are free and the transaction commits |
| TokenLaws.GrantChangesOneSession | IMproject-main/im_server/src/auth/TokenService.cpp:183-204 | a grant gives one session the new hashes, fifteen minutes, thirty days and the next generation, moves the old hash to the history, and leaves every other session to what others revoke |
| TokenLaws.GrantedPairWorks | IMproject-main/im_server/src/auth/TokenService.cpp:133-204 | the access token just granted validates exactly on its device, for its session and for fifteen minutes |
| TokenLaws.RotateExactlyWhen | IMproject-main/im_server/src/Database.cpp:1116-1163 | the guarded update goes through if and only if the hash is not in the history, the session read earlier still holds it at its generation and is not revoked, and the new hashes are free |
| TokenLaws.CreatedExactlyWhen | IMproject-main/im_server/src/Database.cpp:1035-1061 | a login is refused if and only if its session id or one of its hashes is taken |
| TokenLaws.ValidExactlyWhen | IMproject-main/im_server/src/auth/TokenService.cpp:133-149 | an access token validates, and for whom, if and only if an unrevoked, unexpired session on this device, and of this id if one is named, holds it |
| TokenLaws.WithdrawIsFinal | IMproject-main/im_server/src/auth/TokenService.cpp:207-215 | revoking a family, session or user ends for good every session it names, and leaves all others as they are |
| DbWriteQueue.Linearizes | IMproject-main/im_server/src/DbWriteQueue.h:46-82 | every interleaving equals the accepted tasks run one by one in order of acceptance, each answered with its own result or exception |
| DbWriteQueue.ExitLeavesNothing | IMproject-main/im_server/src/DbWriteQueue.cpp:88-109 | when the worker has left, every accepted task was carried out and answered and nothing is accepted |
| DbWriteQueue.AcceptedExactlyWhen | IMproject-main/im_server/src/DbWriteQueue.h:46-82 | a submission is queued last if and only if the queue has been opened and not stopped since and the caller is not the worker; a refused one changes nothing |
| DbWriteQueue.DrainAnswersAll | IMproject-main/im_server/src/DbWriteQueue.cpp:88-109 | as many rounds as there are queued tasks answer all callers, and after a stop the worker then leaves |
| DbWriteQueue.WriteQueue.OpenQueue | IMproject-main/im_server/src/DbWriteQueue.cpp:21-66 | opening twice is opening once; a database that does not open is reported and a thread that does not start is thrown, both leaving the queue closed |
| DbWriteQueue.WriteQueue.BeginRun | IMproject-main/im_server/src/DbWriteQueue.cpp:88-94 | the worker records its own thread |
| DbWriteQueue.WriteQueue.SubmitTask | IMproject-main/im_server/src/DbWriteQueue.h:46-82 | a task is queued last, or refused exactly when the queue is not running or the caller is the worker |
| DbWriteQueue.WriteQueue.TakeAndRun | IMproject-main/im_server/src/DbWriteQueue.cpp:95-109 | the first task is taken, run alone and its promise fulfilled |
| DbWriteQueue.WriteQueue.DrainAndExit | IMproject-main/im_server/src/DbWriteQueue.cpp:7-19 | after a stop the loop empties the queue: database and answers are those of the sequential run |
| MessageLog.InsertMeetsNoClash | IMproject-main/im_server/src/Database.cpp:778-812 | MAX(seq)+1 never meets a row of its conversation, so the unique index is never violated |
| MessageLog.NumbersAreConsecutive | IMproject-main/im_server/src/Database.cpp:742-820 | from an empty table every conversation is numbered 1..n in order of saving, and no id is stored twice |
| MessageLog.ResaveIsIdempotent | IMproject-main/im_server/src/Database.cpp:758-775 | saving a known id, however much later, returns its old number and changes nothing |
| MessageLog.ConcurrentSaves | IMproject-main/im_server/src/Database.cpp:742-820 | whatever the interleaving of callers, the table is so numbered and every answered save was told the number it is stored under |
| MessageLog.PullIsExact | IMproject-main/im_server/src/Database.cpp:823-863 | a pull returns exactly the receiver's unmarked messages, by time and within a second by row |
| MessageLog.ConversationListIsExact | IMproject-main/im_server/src/Database.cpp:911-935 | the conversation list holds exactly the last message of each of the user's conversations, each conversation once, most recent first |
| MessageLog.EveryConversationIsListed | IMproject-main/im_server/src/Database.cpp:911-935 | no conversation of the user is missing from the list |
| MessageLog.Database.NextNumber | IMproject-main/im_server/src/Database.cpp:778-790 | the loop computes MAX(seq)+1 of the conversation |
| MessageLog.Database.SaveMessage | IMproject-main/im_server/src/Database.cpp:742-820 | table and number are those of the specified save; a failed transaction changes nothing |
| MessageLog.Database.MarkDelivered | IMproject-main/im_server/src/Database.cpp:866-880 | exactly the known ids of the list become marked |
| MessageLog.Database.PullUndelivered | IMproject-main/im_server/src/Database.cpp:823-863 | the loop returns the specified pull |
| Paging.PageIsSlice | IMproject-main/im_server/src/Database.cpp:937-957 | on a numbered log a page is the next slice below the cursor, newest first |
| Paging.PagesCoverHistory | IMproject-main/im_server/src/handlers/RoamHandler.cpp:29-48 | following min_seq from the maximum cursor returns every message saved before the first request exactly once, descending, whatever is saved meanwhile, in floor(n/limit)+1 pages, with 20 for no limit and at most 100 |
| Paging.RoamHandler.RoamRows | IMproject-main/im_server/src/Database.cpp:937-957 | walking down from the cursor returns the specified rows |
| Paging.RoamHandler.OnMessages | IMproject-main/im_server/src/handlers/RoamHandler.cpp:29-48 | limit and cursor are clamped and has_more and min_seq filled in as specified; nobody logged in gets no answer |
| Paging.HistoryCursor.LoadMoreHistory | IMproject-main/jitong_android/app/src/main/java/com/jitong/im/ui/MainViewModel.kt:300-312 | asks below the smallest known number unless loading or at the end |
| Paging.HistoryCursor.OnRoamMessages | IMproject-main/jitong_android/app/src/main/java/com/jitong/im/ui/MainViewModel.kt:934-940 | the cursor only moves down and remembers whether there is more |
| Paging.OneRequestAtATime | IMproject-main/jitong_android/app/src/main/java/com/jitong/im/ui/MainViewModel.kt:300-312 | however often the user scrolls, no request is sent before the page of the last one has arrived |
| Paging.AsksBelowAll | IMproject-main/jitong_android/app/src/main/java/com/jitong/im/ui/MainViewModel.kt:934-940 | what is asked for is the smallest number that has arrived, and nothing is asked for after a page that was the last |
| Delivery.RunKeeps | IMproject-main/im_server/src/handlers/AuthHandler.cpp:59-99 | every interleaving of chats, logins, kicks and closings keeps the accounts of who was handed what |
| Delivery.FlaggedIsHanded | IMproject-main/im_server/src/handlers/MessageHandler.cpp:91-115 | a message flagged delivered has been, or is about to be by the same handler, handed to a session registered for its receiver |
| Delivery.UnflaggedIsPulled | IMproject-main/im_server/src/handlers/AuthHandler.cpp:79-95 | an unflagged message is in its receiver's next pull, and only the receiver's own unflagged ones are |
| Delivery.RegistrationStays | IMproject-main/im_server/src/Presence.cpp:12-30 | a registration survives everything but its own closing and a newer login, above all the closing of sessions it displaced |
| DeliveryLaws.FlaggedExactlyWhen | IMproject-main/im_server/src/Database.cpp:742-880 | a message is flagged if and only if a chat stored it for a receiver it had found online, or a login that had handed it over marked it |
| DeliveryLaws.PulledExactlyWhen | IMproject-main/im_server/src/Database.cpp:823-863 | a pull holds exactly the receiver's own messages that no event has flagged |
| DeliveryLaws.ForwardedIsNotPulled | IMproject-main/im_server/src/handlers/MessageHandler.cpp:91-115 | a new message stored for an online receiver is stored as it is, flagged, and in no later pull of anybody |
| DeliveryLaws.LoginHandsOverAndMarks | IMproject-main/im_server/src/handlers/AuthHandler.cpp:77-95 | whatever others do meanwhile, when a login marks, everything it pulled has been handed to its session, is flagged, and is in no later pull |
| DeliveryLaws.ResentComesTwice | IMproject-main/im_server/src/Database.cpp:758-775 | a message stored before its receiver came online and sent again afterwards is handed over, stays unflagged, and is pulled once more |
| DeliveryLaws.NewestLoginIsFound | IMproject-main/im_server/src/Presence.cpp:12-38 | after a login, until a newer one or its own closing, a chat finds its session; its own closing takes the registration away |
| DeliveryLaws.FoundIsHanded | IMproject-main/im_server/src/handlers/MessageHandler.cpp:91-115 | a session that a chat has found is handed the message once it is saved, whatever others do meanwhile |
| DeliveryServer.Presence.Lookup | IMproject-main/im_server/src/Presence.cpp:32-38 | the registered session unless it no longer exists |
| DeliveryServer.Presence.Replace | IMproject-main/im_server/src/Presence.cpp:12-19 | the new registration and the old session in one step |
| DeliveryServer.Presence.Offline | IMproject-main/im_server/src/Presence.cpp:21-30 | a session that is not the registered one changes nothing |
| DeliveryServer.Handlers.OnChat | IMproject-main/im_server/src/handlers/MessageHandler.cpp:46-116 | refused requests change nothing and get their refusal; any other is the three actions of a chat on the message that says what the request says and, for media, what the upload record says: that message is stored as it is, flagged if its receiver is online, and sent in exactly the frames stated |
| DeliveryServer.OneMessage | IMproject-main/im_server/src/handlers/MessageHandler.cpp:75-89 | what the request and the upload record say fixes the message |
| DeliveryServer.Handlers.Forward | IMproject-main/im_server/src/handlers/MessageHandler.cpp:81-116 | save under the looked-up flag, answer an error or forward, receipt and, for media, give up the upload only after saving |
| DeliveryServer.Handlers.Greet | IMproject-main/im_server/src/handlers/AuthHandler.cpp:67-75 | the new session learns its own and its friends' status, and every friend online learns of it |
| DeliveryServer.FriendsLearn | IMproject-main/im_server/src/handlers/AuthHandler.cpp:67-75 | the new session learns of itself and which of its friends are online, and each friend who is online learns of the user |
| DeliveryServer.Handlers.HandOver | IMproject-main/im_server/src/handlers/AuthHandler.cpp:79-93 | the loop hands over each message and a receipt to its sender, in order |
| DeliveryServer.EachIsHandedOver | IMproject-main/im_server/src/handlers/AuthHandler.cpp:79-94 | each pulled message goes to the session under its number, and a receipt to its sender if online |
| DeliveryServer.Handlers.ActivateSession | IMproject-main/im_server/src/handlers/AuthHandler.cpp:59-99 | replace, kick, hand over and mark are the actions of one login in the state machine; what is sent is the kick, the friend frames in both directions and the handed messages with their receipts, in this order |
| ClientList.AppendKeeps | IMproject-main/jitong_android/app/src/main/java/com/jitong/im/ui/MainViewModel.kt:1001-1046 | a new, duplicate or repaired message leaves the list without repeated ids and in order |
| ClientList.UpdateStatusKeeps | IMproject-main/jitong_android/app/src/main/java/com/jitong/im/ui/MainViewModel.kt:1093-1104 | a receipt keeps the list without repeated ids and in order |
| ClientList.MergeKeeps | IMproject-main/jitong_android/app/src/main/java/com/jitong/im/ui/MainViewModel.kt:1057-1072 | a late database load keeps the order and holds exactly the database rows and the messages only in memory |
| ClientList.RunKeeps | IMproject-main/jitong_android/app/src/main/java/com/jitong/im/ui/MainViewModel.kt:1001-1104 | across any events the list has no repeated id, is in order and carries only server numbers |
| ClientList.OrderIgnoresArrival | IMproject-main/jitong_android/app/src/main/java/com/jitong/im/ui/MainViewModel.kt:1074-1076 | with server-unique numbers the order of confirmed messages depends only on which are present |
| ClientList.UnconfirmedAreLast | IMproject-main/jitong_android/app/src/main/java/com/jitong/im/ui/MainViewModel.kt:1074-1076 | an unconfirmed message comes after every confirmed one |
| ClientList.ArrivedIsListed | IMproject-main/jitong_android/app/src/main/java/com/jitong/im/ui/MainViewModel.kt:1001-1072 | every message that ever arrived stays listed, even across a database load that lacks it |
| ClientList.ListedInOrder | IMproject-main/jitong_android/app/src/main/java/com/jitong/im/ui/MainViewModel.kt:1074-1076 | in every run confirmed messages are listed by number, then the others by time |
| ClientList.ArrivalExactly | IMproject-main/jitong_android/app/src/main/java/com/jitong/im/ui/MainViewModel.kt:1001-1046 | a new id is added as it is, media sent again by the peer correct the listed message field by field where something is sent, and any other arrival changes nothing |
| ClientList.ReceiptExactly | IMproject-main/jitong_android/app/src/main/java/com/jitong/im/ui/MainViewModel.kt:1093-1104 | a receipt changes the status of its message and, if it carries one, the number, and nothing else |
| ClientList.LastReceiptWins | IMproject-main/jitong_android/app/src/main/java/com/jitong/im/ui/MainViewModel.kt:1001-1104 | in every run a message has the status and number its last receipt gave it, until it arrives again or is loaded |
| ClientList.MessageLists.AppendMessage | IMproject-main/jitong_android/app/src/main/java/com/jitong/im/ui/MainViewModel.kt:1001-1046 | one peer's list becomes the specified one, all others stay |
| ClientList.MessageLists.UpdateMessageStatus | IMproject-main/jitong_android/app/src/main/java/com/jitong/im/ui/MainViewModel.kt:1093-1104 | one peer's list becomes the specified one, all others stay |
| ClientList.MessageLists.Merge | IMproject-main/jitong_android/app/src/main/java/com/jitong/im/ui/MainViewModel.kt:1057-1072 | every peer's list becomes the merge of database and memory |
| AiLimiter.AtMostPerMinute | IMproject-main/im_server/src/ai/AiRequestLimiter.cpp:27-33 | no closed minute, wherever it begins, holds more than perMinute acceptances of a user |
| AiLimiter.NoReplay | IMproject-main/im_server/src/ai/AiRequestLimiter.cpp:18-23 | two acceptances of one id by one user are more than the replay window apart |
| AiLimiter.DuplicateWhen | IMproject-main/im_server/src/ai/AiRequestLimiter.cpp:18-23 | an id is refused as a replay if and only if it was accepted within the window |
| AiLimiter.InFlightExactlyWhen | IMproject-main/im_server/src/ai/AiRequestLimiter.cpp:24-40 | a user is in flight if and only if accepted and not released since |
| AiLimiter.DecidesExactly | IMproject-main/im_server/src/ai/AiRequestLimiter.cpp:12-35 | every decision, in its order, from the history of acceptances and releases alone: replay, busy, full, too many within the last minute, or accepted |
| AiLimiter.PendingIsBounded | IMproject-main/im_server/src/ai/AiRequestLimiter.cpp:24-40 | never more than maxPending users in flight |
| AiLimiter.Configure | IMproject-main/im_server/src/ai/AiRequestLimiter.cpp:7-10 | every limit is at least one |
| AiLimiter.AiRequestLimiter.Acquire | IMproject-main/im_server/src/ai/AiRequestLimiter.cpp:12-35 | result and state are those of the specified decision, in the order of its checks |
| AiLimiter.AiRequestLimiter.PurgeSeen | IMproject-main/im_server/src/ai/AiRequestLimiter.cpp:18-22 | the loop forgets exactly the ids older than the window |
| AiLimiter.AiRequestLimiter.Prune | IMproject-main/im_server/src/ai/AiRequestLimiter.cpp:27-28 | the loop drops exactly the leading old times |
| AiLimiter.AiRequestLimiter.ReleaseUser | IMproject-main/im_server/src/ai/AiRequestLimiter.cpp:37-40 | the user is no longer in flight |
| AiRequests.KeyInjective | IMproject-main/im_server/src/handlers/AiHandler.cpp:80-82 | the request key determines user and request |
| AiRequests.KeysBelongToInFlight | IMproject-main/im_server/src/handlers/AiHandler.cpp:84-105 | in every interleaving active and cancelled keys belong to in-flight users, one request each, within the limit |
| AiRequests.CancelledIff | IMproject-main/im_server/src/handlers/AiHandler.cpp:84-95 | an active request counts as cancelled if and only if its user has cancelled that request since it became active |
| AiRequests.CancelDoesNotCarryOver | IMproject-main/im_server/src/handlers/AiHandler.cpp:168-202 | a request that becomes active is never cancelled already, even under an id cancelled before |
| AiRequests.Rollout | IMproject-main/im_server/src/handlers/AiHandler.cpp:148-153 | every user is in one of a hundred buckets, so a rollout of 0 percent admits nobody and one of 100 everybody |
| AiRequests.AiHandler.OnReply | IMproject-main/im_server/src/handlers/AiHandler.cpp:126-188 | for each of the nine statuses exactly when it is given; only a started request changes limiter and active set, and the counters add up |
| AiRequests.AiHandler.OnCancel | IMproject-main/im_server/src/handlers/AiHandler.cpp:115-124 | only an active request is cancelled and counted |
| AiRequests.AiHandler.FinishRequest | IMproject-main/im_server/src/handlers/AiHandler.cpp:97-105 | the keys go before the user is released |
| Utf8.PrefixWellFormed | IMproject-main/client_core/include/client_core/Protocol.h:151-158 | a prefix of well-formed UTF-8 (section 4 of RFC 3629) is well formed if and only if it does not end before a continuation byte |
| Utf8.TruncateIsLongest | IMproject-main/client_core/include/client_core/Protocol.h:151-158 | truncating gives the longest well-formed prefix within the limit |
| Utf8.TruncateTwice | IMproject-main/client_core/include/client_core/Protocol.h:151-158 | truncating twice is truncating once to the smaller limit, for any bytes |
| Utf8.CutIsTight | IMproject-main/client_core/include/client_core/Protocol.h:151-158 | a cut wastes at most three bytes |
| Utf8.Utf8Truncate | IMproject-main/client_core/include/client_core/Protocol.h:151-158 | the loop returns the specified prefix |
| AiContext.KeepsNewest | IMproject-main/im_server/src/ai/AiContextBuilder.cpp:44-73 | the context takes the newest eligible messages in unbroken order and ends only at a limit; count and bytes stay within theirs |
| AiContext.ContextIsSound | IMproject-main/im_server/src/ai/AiContextBuilder.cpp:44-75 | every turn is well formed, not empty, within the message limit, and the turns are chronological |
| AiContext.EligibleExactlyWhen | IMproject-main/im_server/src/ai/AiContextBuilder.cpp:44-58 | eligible are exactly the texts of this conversation of which redaction leaves something |
| AiContext.TurnsQuoteMessages | IMproject-main/im_server/src/ai/AiContextBuilder.cpp:44-75 | every turn begins the redacted text of a text message of this conversation, under the role of its sender; one to three suggestions are asked for |
| AiContext.CutNearlyFills | IMproject-main/im_server/src/ai/AiContextBuilder.cpp:59-63 | a message is cut only when fewer than four bytes of the budget then remain |
| AiContext.LastExactlyWhen | IMproject-main/im_server/src/ai/AiContextBuilder.cpp:44-73 | a taken message is the last of the context if and only if nothing older is eligible, the count is reached, or nothing of the next message fits |
| AiContext.CutIsLastExactlyWhen | IMproject-main/im_server/src/ai/AiContextBuilder.cpp:59-71 | a cut message leaves at most three bytes and is the last if and only if nothing older is eligible, the count is reached, or the first character of the next message is longer than what is left |
| AiContext.CutIsNotAlwaysLast | IMproject-main/im_server/src/ai/AiContextBuilder.cpp:59-71 | a concrete input outside that condition, in which an older message follows a cut one |
| AiContext.BuildReplyContext | IMproject-main/im_server/src/ai/AiContextBuilder.cpp:31-76 | the loop returns the specified context |
| ConversationId.OrAdds | IMproject-main/im_server/src/Database.h:214 | shifted halves do not overlap, so the bitwise or is the sum |
| ConversationId.MaskIsRemainder | IMproject-main/jitong_android/app/src/main/java/com/jitong/im/data/ChatStore.kt:28-29 | masking with ones is the remainder by a power of two |
| ConversationId.AllFormsAgree | IMproject-main/im_server/src/Database.h:206-217 | for positive ids the C++, both SQL and the Kotlin form are one positive 64-bit number |
| ConversationId.WhenFormsAgree | IMproject-main/jitong_android/app/src/main/java/com/jitong/im/data/db/AppDatabase.kt:42-55 | exactly for which other ids the forms agree |
| ConversationId.IdDeterminesPair | IMproject-main/im_server/src/Database.h:206-217 | the id is symmetric and equal if and only if the unordered pairs are |
| ConversationId.OldIdCollides | IMproject-main/jitong_android/app/src/main/java/com/jitong/im/data/db/AppDatabase.kt:44 | the old formula shares ids between conversations, and never below 20-bit ids |
| ConversationId.MigrationKeepsUnique | IMproject-main/im_server/src/Database.cpp:98-119 | the migrated table is unique exactly when no two messages of one pair share a number; a unique table stays unique; migrating again changes nothing |
| ConversationId.MessagesTable.MigrateConversationIds | IMproject-main/im_server/src/Database.cpp:88-119 | all rows and the version change together, or nothing does |

## Left out

- TokenSpec.Refresh: between reading a session and writing it, other connections may revoke but do not create sessions; a session created there would have other hashes and another family.
- TokenSpec.Refresh: a read that fails (`findByRefreshHash`, `wasRefreshTokenUsed`) is not modelled; the code takes it for a row that is not there.
- TokenSpec.RunKeeps: message and token ids are compared whole; the text binding that stops at a NUL byte is not modelled.
- HandshakeRun.ClientAgreement: one client attempt against any number of server connections; other honest clients appear only as the adversary, and timeouts and closes of the server are in `SessionLife` only.
- ChannelRun.DeliveredIsPrefix: a send that races with the client's own closing of the connection is ordered either before or after it.
- MessageLog.NumbersAreConsecutive: numbers are unbounded; the 64-bit limit on 2^63 messages of one conversation is not modelled.
- Delivery.FlaggedIsHanded: handing to a session means putting the frame in its queue; whether the bytes arrive is the subject of the write-queue and channel modules.
- ClientList.RunKeeps: blank means made of ASCII white space; Kotlin also counts other Unicode spaces.
- ConversationId.MigrationKeepsUnique: the update is one whole-table step; the row-by-row index checks inside it are SQLite's.
- AiContext.ContextIsSound: redaction is any function that keeps UTF-8 well formed; the regular expressions are not modelled.
- DeliveryServer.Handlers.OnChat: names, avatars and texts of frames are carried as values; the file of an upload is not modelled, only its entry.
- AiRequests.AiHandler.OnReply: what the worker does with the model's answer, and the shutdown that discards work not yet started, are not part of the state machine.
- SQLite itself, its indexes and statements, and faults other than those listed above as parameters.
- The inner workings of OpenSSL, Argon2, JCA, BouncyCastle, Keystore and TLS, which appear only as abstract functions.
- The HTTP upload and download server, the file system, media sniffing and garbage collection: input and output.
- AI model clients, JSON building and environment configuration: plumbing.
- Registration, friend requests, seeding, routing of packet types and the heartbeat scan: simple members that would add little.
- The Qt client, Compose screens and the older Windows server and client: user interface, or superseded code that repeats these models.
- The order of offline pulls across conversations follows wall-clock seconds, which need not match sequence numbers; nothing is claimed about it.
- A message whose receipt was lost keeps number 0 at its sender and stays last there, so the client's list is not claimed to equal the server's.
