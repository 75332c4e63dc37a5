# A verified model of the ORTC protocol core

This project models, in Dafny, the protocol core of a Rust WebRTC/ORTC stack and proves what the protocols rely on:

- **DTLS handshake transport** (RFC 6347): records and datagrams (`DtlsRecord`), fragmentation and reassembly
  (`DtlsFragment`), the handshake cache (`DtlsCache`), receiving (`DtlsReceiver`) and sending (`DtlsSender`), delivery over
  a network that drops, repeats and reorders (`DtlsDelivery`, `DtlsEndToEnd`), the record ciphers that delivery rests on
  (`DtlsCipher`), and both directions at once (`DtlsDuplex`).
- **DTLS handshake**: the seven flights (`DtlsFlights`), the machine that drives them (`DtlsHandshaker`), what must hold
  when a handshake completes (`DtlsCompletion`), and agreement of the two transcripts, as functions of two caches
  (`DtlsTranscript`) and over every run of client and server (`DtlsAgreement`).
- **STUN** (RFC 5389): transactions of client and agent (`StunAgent`, `StunClient`), the message buffer and its codec
  (`StunMessage`), MESSAGE-INTEGRITY and FINGERPRINT (`StunIntegrity`).
- **ICE** (RFC 8445): priorities (`IcePriority`), one agent (`IceAgent`), two agents and their nomination
  (`IceNomination`), and runs that show why it needs its conditions and how an agent panics (`IceFailure`).
- **Codecs**: RTP headers (`RtpHeader`), SCTP packets, chunks and chunk sources (`SctpPacket`, `SctpChunks`,
  `ChunkSource`), ClientHello and key exchanges (`HandshakeCodec`), hello extensions (`DtlsExtensions`). `Bytes` holds
  what they share.

Objects that the source updates in place are classes. Each method is proved equal to a function on values, and the
properties are lemmas about those functions over every input, every run or every reachable state. Loops of the source are
loops here, apart from those named under "Left out". Where a fact about the code is not what one would hope, the exact
condition is a lemma, with an input that fails beside it: a re-encoded empty STUN message (`EncodeBuildsIff`,
`EncodeKeepsStaleLength`), a second MESSAGE-INTEGRITY (`SameInputIff`, `SecondIntegrityDiffers`), attributes after
FINGERPRINT (`FingerprintSameInputIff`, `FingerprintNotLast`), the 770-byte ServerKeyExchange (`CurveKeyRoundTripIff`,
`CurveKeyMistaken`), a packet without chunks (`PartialAcceptsIff`, `EmptyPacketSplits`), a SHUTDOWN or FORWARD-TSN that is
not the last chunk (`ChunksRoundTripIff`, `ShutdownInFront`), a chunk too long for its length field (`CookieTooLong`), an
RTP extension that runs past its packet (`UnmarshalPanicsIff`), an ICE agent that is given a local candidate or is started
again after its connection failed (`FailedControlledSelectsIff`, `FailedControllingSelectsIff`, `SelectsTwice`,
`SelectsTwiceRestarted`), an ICE agent whose connection fails while it handles a request (`PanicsIff`, `RunPanics`).

What the environment decides is a parameter: the clock, the order in which a hash map is walked, the answers of the replay
detector, the keyed hash, the checksum, the PRF and the record cipher. The network is a list of deliveries of anything ever
sent. Integers are unbounded; every 8-, 16- and 48-bit field is cut or checked where the source does so.

`dafny verify dfyconfig.toml` checks the project.

## Model

| member | source | states |
|---|---|---|
| DtlsRecord.MarshalRecordHeader | rtc-dtls/src/record_layer/record_layer_header.rs:47-63 | fails exactly when the record number exceeds 2^48 - 1; otherwise writes the 13-byte header that RecordHeaderRoundTrip reads back |
| DtlsRecord.RecordHeaderRoundTrip | rtc-dtls/src/record_layer/record_layer_header.rs:47-89 | a header with a supported version and a number in range decodes to itself, whatever follows it |
| DtlsRecord.HandshakeHeaderRoundTrip | rtc-dtls/src/handshake/handshake_header.rs:24-48 | every handshake header, with its 24-bit lengths and offsets, decodes to itself, whatever follows it |
| DtlsRecord.UnpackDatagram | rtc-dtls/src/record_layer/mod.rs:85-106 | the offset loop computes Unpack, including both length errors |
| DtlsRecord.UnpackOfRecords | rtc-dtls/src/record_layer/mod.rs:85-106 | unpacking a concatenation of records gives back exactly those records |
| DtlsRecord.UnpackedAreRecords | rtc-dtls/src/record_layer/mod.rs:85-106 | whatever unpacks is cut without loss into records whose length field is their length |
| DtlsRecord.CompactRawPackets | rtc-dtls/src/conn/mod.rs:784-803 | the packing loop computes the grouping Groups |
| DtlsRecord.GroupsPartition | rtc-dtls/src/conn/mod.rs:784-803 | packing keeps every record, once and in order |
| DtlsRecord.SharedDatagramsFit | rtc-dtls/src/conn/mod.rs:784-803 | a datagram that holds two or more records is shorter than the MTU |
| DtlsRecord.UnpackCompacted | rtc-dtls/src/conn/mod.rs:784-803 | unpacking a packed datagram at the receiver gives the group of records that was packed into it |
| DtlsFragment.SplitBytes | rtc-dtls/src/conn/mod.rs:805-818 | the cutting loop computes the consecutive cuts of the given length, none for empty input |
| DtlsFragment.PiecesCover | rtc-dtls/src/conn/mod.rs:805-818 | the pieces of a body concatenate to the body |
| DtlsFragment.PiecesWithin | rtc-dtls/src/conn/mod.rs:388-431 | each piece is the part of the body at its offset, at most an MTU long, and empty only for an empty body |
| DtlsFragment.PiecesAdjacent | rtc-dtls/src/conn/mod.rs:388-431 | each piece ends where the next begins and the last ends with the body |
| DtlsFragment.FragmentHandshake | rtc-dtls/src/conn/mod.rs:388-431 | every fragment carries the message header with its own offset and length, followed by its piece; one fragment per piece, in order |
| DtlsFragment.AppendMessage | rtc-dtls/src/fragment_buffer/mod.rs:136-160 | the recursion terminates because offsets grow; it succeeds exactly when Assemble finds a chain of fragments to the end, and yields that chain |
| DtlsFragment.FragmentBuffer.Size | rtc-dtls/src/fragment_buffer/mod.rs:128-134 | the size loop sums the data of every cached fragment |
| DtlsFragment.FragmentBuffer.Push | rtc-dtls/src/fragment_buffer/mod.rs:39-86 | the new buffer and result are Pushed: refusal when too large, skipping of other content, per-sequence storage |
| DtlsFragment.FragmentBuffer.Pop | rtc-dtls/src/fragment_buffer/mod.rs:88-126 | the result is PopResult and the new buffer Popped; a failed pop leaves the buffer as it was |
| DtlsFragment.PushKeepsBound | rtc-dtls/src/fragment_buffer/mod.rs:39-86 | a push of any bytes keeps buffered data below 2,000,000 bytes |
| DtlsFragment.BufferedDataBounded | rtc-dtls/src/fragment_buffer/mod.rs:39-134 | in every state reachable by pushes and pops of any input, buffered data stays below 2,000,000 bytes |
| DtlsCache.HandshakeCache.Push | rtc-dtls/src/handshake/handshake_cache.rs:39-65 | an item is added exactly when no item of that sequence and side is held; the first copy is kept |
| DtlsCache.HandshakeCache.Pull | rtc-dtls/src/handshake/handshake_cache.rs:67-90 | the nested loops compute PullSpec, one best item per rule |
| DtlsCache.BestIsBest | rtc-dtls/src/handshake/handshake_cache.rs:67-90 | what is pulled for a rule matches it and has the highest sequence number of all matches; nothing is pulled only if nothing matches |
| DtlsCache.HandshakeCache.PullAndMerge | rtc-dtls/src/handshake/handshake_cache.rs:143-153 | the merged bytes are the transcript of the cache under the rules |
| DtlsCache.HandshakeCache.FullPullMap | rtc-dtls/src/handshake/handshake_cache.rs:92-141 | the two loops compute FullPull: missing mandatory message, wrong sequence and undecodable message included |
| DtlsCache.PushKeeps | rtc-dtls/src/handshake/handshake_cache.rs:39-65 | pushing keeps one item per sequence and side, keeps everything already cached, and leaves the item held |
| DtlsCache.TranscriptDependsOnContents | rtc-dtls/src/handshake/handshake_cache.rs:67-90 | what is pulled and the transcript depend only on the set of cached items, not on their order of arrival |
| DtlsCache.PulledIsCached | rtc-dtls/src/handshake/handshake_cache.rs:92-141 | every message a full pull returns is the decoding of a cached item of its rule |
| DtlsCache.MandatoryIsPulled | rtc-dtls/src/handshake/handshake_cache.rs:92-141 | a successful full pull returns every message whose rule is not optional |
| DtlsCache.CachedStays | rtc-dtls/src/handshake/handshake_cache.rs:39-65 | a cached message stays cached while the cache grows |
| DtlsReceiver.Conn.TakeMessages | rtc-dtls/src/conn/mod.rs:630-666 | the pop loop empties the buffer of complete messages and caches each under the sequence number it carries |
| DtlsReceiver.Conn.ProcessContent | rtc-dtls/src/conn/mod.rs:668-768 | alerts, change of cipher spec and application data are handled as HandleContent, which queues what came too early |
| DtlsReceiver.Conn.HandleIncomingPacket | rtc-dtls/src/conn/mod.rs:511-769 | one record: header errors, future epochs, replays, decryption, fragments and other content, as HandleRecord |
| DtlsReceiver.Conn.Read | rtc-dtls/src/conn/mod.rs:441-475 | one datagram: every record in turn until one is fatal; the result says that none was, the receive flag is set exactly when a handshake record was handled, and the alerts sent back are those of the records, in order |
| DtlsReceiver.Conn.HandleIncomingQueuedPackets | rtc-dtls/src/conn/mod.rs:477-509 | after completion every queued record is handled once, until one is fatal; the result says that none was, the alerts are theirs, and the receive flag is left alone |
| DtlsReceiver.RereadKeepsQueue | rtc-dtls/src/conn/mod.rs:477-509 | handling a queued record again never queues another |
| DtlsDelivery.AssembleGenuine | rtc-dtls/src/fragment_buffer/mod.rs:136-160 | assembling fragments of a sent message yields its bytes from the target offset on, under any cipher |
| DtlsDelivery.AssembleIff | rtc-dtls/src/fragment_buffer/mod.rs:136-160 | assembly succeeds if and only if every piece from the target offset on is present, whatever the order and duplicates |
| DtlsDelivery.PopGenuine | rtc-dtls/src/fragment_buffer/mod.rs:88-126 | a message popped from fragments of sent messages is byte-identical to the message sent, with its epoch |
| DtlsDelivery.PopIff | rtc-dtls/src/fragment_buffer/mod.rs:88-126 | pop succeeds if and only if every piece of the current message is buffered |
| DtlsDelivery.PopIffAllAccepted | rtc-dtls/src/fragment_buffer/mod.rs:39-126 | over any arrival of fragments of sent messages: pop succeeds if and only if each fragment of the current message has been accepted |
| DtlsDelivery.PushGenuine | rtc-dtls/src/fragment_buffer/mod.rs:39-86 | pushing a record of a sent fragment leaves only fragments of sent messages in the buffer |
| DtlsDelivery.WireDecodes | rtc-dtls/src/conn/mod.rs:558-628 | a record on the wire, encrypted or not, is one well-formed record that shows its type and epoch, and opens to the content it carries |
| DtlsDelivery.WireOpens | rtc-dtls/src/conn/mod.rs:590-628 | what the receiver works on, decrypted unless its epoch is 0, is a handshake record only if the sender made it; unencrypted change of cipher spec and alerts in later epochs included |
| DtlsDelivery.RecordKeeps | rtc-dtls/src/conn/mod.rs:511-769 | handling any record the sender put on the wire keeps the receiver invariant |
| DtlsDelivery.NetworkKeeps | rtc-dtls/src/conn/mod.rs:441-509 | the receiver invariant holds after any datagrams, dropped, repeated, reordered or read again from the queue |
| DtlsDelivery.EndToEndDelivery | rtc-dtls/src/conn/mod.rs:253-275 | messages taken at the receiver are a gap-free in-order prefix of those sent, each byte-identical to the sender cache copy, and those that parse are cached, for any MTU, any cipher that opens what it sealed, and any loss, repetition or reordering |
| DtlsCipher.Encrypt | rtc-dtls/src/crypto/crypto_gcm.rs:54-83 | header, explicit nonce and protected payload, with the length field rewritten, as Seal |
| DtlsCipher.Decrypt | rtc-dtls/src/crypto/crypto_gcm.rs:85-118 | unreadable headers and records too short are refused, a change of cipher spec passes unchanged, the rest is unprotected under its header, as Open |
| DtlsCipher.SealLayout | rtc-dtls/src/crypto/crypto_gcm.rs:54-83 | a sealed record is one well-formed record: nonce and protected payload behind the header it had, counted by its length field |
| DtlsCipher.OpenSealed | rtc-dtls/src/crypto/crypto_gcm.rs:54-118 | opening a sealed record that is no change of cipher spec gives back its header and its content |
| DtlsCipher.SuiteIsGood | rtc-dtls/src/crypto/crypto_gcm.rs:54-118 | a suite whose unprotection inverts its protection meets everything delivery asks of a cipher, for records that leave room for what the suite adds |
| DtlsCipher.CipherSpecPasses | rtc-dtls/src/crypto/crypto_ccm.rs:145-151 | an unencrypted change of cipher spec passes unchanged in every epoch |
| DtlsCipher.AeadSuiteIsGood | rtc-dtls/src/crypto/crypto_ccm.rs:106-187 | for any AEAD whose open inverts its seal: the wrapping of GCM and CCM, with their nonce and additional data, is inverted too |
| DtlsCipher.UnpadPadded | rtc-dtls/src/crypto/padding.rs:9-41 | removing the padding gives back what was padded |
| DtlsCipher.CbcSuiteIsGood | rtc-dtls/src/crypto/crypto_cbc.rs:53-128 | for any block cipher with an inverse and any 20-byte MAC: MAC, padding, encryption and initial vector are undone and the MAC accepted |
| DtlsCipher.AeadSessionProtected | rtc-dtls/src/crypto/crypto_ccm.rs:106-187 | GCM and CCM sessions, whose records grow by 8 bytes of nonce and the tag, meet the cipher hypothesis of delivery |
| DtlsCipher.CbcSessionProtected | rtc-dtls/src/crypto/crypto_cbc.rs:53-128 | CBC sessions, whose records grow by up to 52 bytes, meet the cipher hypothesis of delivery |
| DtlsCipher.ExampleIsProtected | rtc-dtls/src/crypto/crypto_gcm.rs:54-118 | a cipher that makes every record 24 bytes longer meets the hypothesis, with any messages |
| DtlsSender.Conn.WritePackets | rtc-dtls/src/conn/mod.rs:237-241 | packets are appended to the queue and nothing else changes |
| DtlsSender.Conn.PadCounters | rtc-dtls/src/conn/mod.rs:301-312 | record counters are padded with zeros up to the epoch |
| DtlsSender.Conn.NumberRecords | rtc-dtls/src/conn/mod.rs:336-386 | fragments are numbered from the epoch counter; a protection or range failure stops the packet |
| DtlsSender.Conn.ProcessPacket | rtc-dtls/src/conn/mod.rs:301-386 | one packet gives the numbered records of NumberPacket |
| DtlsSender.Conn.HandleOutgoingPackets | rtc-dtls/src/conn/mod.rs:243-299 | the queue is drained packet by packet, caching handshake messages before they are sent, and packed into datagrams |
| DtlsSender.DrainTaken | rtc-dtls/src/conn/mod.rs:243-386 | draining a queue only advances counters, and each record sent took a number of its own |
| DtlsSender.RecordNumbersNeverRepeat | rtc-dtls/src/conn/mod.rs:243-386 | over any sequence of writes, flushes, resends and errors: numbers strictly increase within each epoch, so no pair of epoch and number repeats, and none exceeds 2^48 - 1 |
| DtlsEndToEnd.PacketLegit | rtc-dtls/src/conn/mod.rs:336-386 | the records of a queued packet are records of fragments of that message |
| DtlsEndToEnd.CachedKeeps | rtc-dtls/src/conn/mod.rs:253-275 | the sender caches exactly the bytes of each message it sends and keeps the first copy |
| DtlsEndToEnd.DrainLegit | rtc-dtls/src/conn/mod.rs:243-299 | every record drained from a queue belongs to a message cached before it was sent |
| DtlsEndToEnd.PackedEmitted | rtc-dtls/src/conn/mod.rs:784-803 | packed datagrams carry only records the sender made |
| DtlsEndToEnd.SenderRunKeeps | rtc-dtls/src/conn/mod.rs:243-299 | over any sender run every datagram handed out carries records of cached messages only |
| DtlsEndToEnd.SentIsTaken | rtc-dtls/src/conn/mod.rs:243-299 | sender, network and receiver together: whatever the receiver has taken is a prefix of the messages, each equal to what the sender cached; it caches nothing else under that name and everything taken that parses |
| DtlsDuplex.ReceiveHears | rtc-dtls/src/conn/mod.rs:441-666 | receiving keeps what is cached and adds messages of the peer only |
| DtlsDuplex.EndKeeps | rtc-dtls/src/conn/mod.rs:243-509 | whatever happens at one end, with both ends sending and receiving through one cache each, both directions keep their invariants |
| DtlsDuplex.ReachableIsGood | rtc-dtls/src/conn/mod.rs:243-509 | in every state two connected ends can reach: each cache holds one message per number and side, and in both directions what is sent belongs to the session and what is taken was sent before |
| DtlsTranscript.MergeUnsent | rtc-dtls/src/flight/flight5.rs:296-393 | the client marshals its unsent messages under numbers predicted by a loop that starts at its send sequence |
| DtlsTranscript.Prepare | rtc-dtls/src/handshaker.rs:136-149 | numbers are given to handshake packets in order, the next number and the highest epoch are kept |
| DtlsTranscript.PrepareAssignsPredicted | rtc-dtls/src/handshaker.rs:136-149 | the number each pending message gets in prepare is exactly the one predicted for it, whatever follows in the flight |
| DtlsTranscript.SessionTranscriptsAgree | rtc-dtls/src/handshake/handshake_cache.rs:155-228 | two caches that hold the same messages: the server hashes for the session exactly the bytes the client hashed before sending |
| DtlsTranscript.FinishedTranscriptsAgree | rtc-dtls/src/flight/flight5.rs:296-393 | the same for the transcript up to the client Finished; the two caches are joined up by FinishedHashesAgree |
| DtlsAgreement.TranscriptsAgree | rtc-dtls/src/handshake/handshake_cache.rs:143-153 | in every run of client and server in which each has taken what the other has cached, every transcript is the same at both ends |
| DtlsAgreement.FlightPackets | rtc-dtls/src/handshaker.rs:136-149 | flight 5 as prepare numbers it: the pending messages under the predicted numbers in epoch 0, then change of cipher spec, then the encrypted Finished |
| DtlsAgreement.FlightCached | rtc-dtls/src/conn/mod.rs:253-299 | flushing flight 5 leaves in the client cache exactly what was predicted: the items it hashed beforehand, then the Finished |
| DtlsAgreement.FlightItems | rtc-dtls/src/handshaker.rs:136-149 | the session messages from the send sequence on are the predicted items |
| DtlsAgreement.FlightAgrees | rtc-dtls/src/handshake/handshake_cache.rs:67-90 | after any further run the server holds, as far as the rules see, exactly the client cache of before plus the predicted items |
| DtlsAgreement.SessionHashesAgree | rtc-dtls/src/handshake/handshake_cache.rs:155-228 | in every run: as soon as the server has taken the key messages, it hashes for the extended master secret and CertificateVerify exactly the bytes the client hashed before it sent them |
| DtlsAgreement.FinishedHashesAgree | rtc-dtls/src/flight/flight5.rs:296-393 | in every run: before the client Finished arrives, the server cache gives the bytes that Finished was computed over |
| DtlsAgreement.ServerFinishedHashesAgree | rtc-dtls/src/flight/flight6.rs:82-145 | in every run: what the server hashes for its Finished, once it has taken the whole client flight, is what the client hashes at any later time at which it holds the server hello flight |
| DtlsAgreement.ServerFinishedAccepted | rtc-dtls/src/flight/flight6.rs:82-176 | with equal master secrets flight 5 accepts a Finished it has pulled, at any later time, if and only if it carries the verify data that flight 6 generated |
| DtlsAgreement.FlightFive | rtc-dtls/src/flight/flight5.rs:168-590 | what flight 5 generates is such a flight, and its extended master secret is derived from the hash of its key messages under predicted numbers |
| DtlsAgreement.MasterSecretsAgree | rtc-dtls/src/flight/flight4.rs:326-360 | client and server that agree on the premaster secret derive the same extended master secret, in every run of the two |
| DtlsFlights.FindMatching | rtc-dtls/src/lib.rs:29-56 | the search loop returns the first common element, or none only when there is none |
| DtlsFlights.ReadClientExtensions | rtc-dtls/src/flight/flight0.rs:95-133 | the extension loop writes curve, SRTP profile, extended master secret and server name as ClientExtensions, and fails on an empty curve list or without a common SRTP profile |
| DtlsHandshaker.Conn.constructor | rtc-dtls/src/conn/mod.rs:92-152 | a new connection prepares flight 1 as client and flight 0 as server, with nothing cached, sent or armed |
| DtlsHandshaker.Conn.PrepareFlight | rtc-dtls/src/handshaker.rs:113-159 | packets are generated, numbered and stored, counters reset, and the epoch raised, as PrepareStep |
| DtlsHandshaker.Conn.SendFlight | rtc-dtls/src/handshaker.rs:161-173 | the stored flight is sent again unchanged; the last flight finishes, any other arms the timer |
| DtlsHandshaker.Conn.WaitForFlight | rtc-dtls/src/handshaker.rs:175-223 | the receive flag is consumed, the flight parsed, and the machine moves on, finishes, waits or fails as WaitStep |
| DtlsHandshaker.Conn.Handshake | rtc-dtls/src/handshaker.rs:75-111 | the loop terminates, by the receive flag and the rank of the state, and computes HandshakeRun |
| DtlsHandshaker.Conn.HandshakeTimeout | rtc-dtls/src/handshaker.rs:251-290 | a timeout counts and resends, fails after the maximum, or rearms, and drives the machine |
| DtlsHandshaker.RunKeeps | rtc-dtls/src/handshaker.rs:75-111 | what each step keeps a whole call keeps, and a call completes exactly when it ends in the finished state |
| DtlsHandshaker.RetransmissionBounded | rtc-dtls/src/handshaker.rs:161-173 | in every run of a fresh connection a flight is sent at most 1 + maximum_retransmit_number times between two prepares |
| DtlsHandshaker.TimeoutResendsSame | rtc-dtls/src/handshaker.rs:251-290 | a timeout resends exactly the packets prepared before, with their numbers, and changes only counters and timer |
| DtlsHandshaker.ErroredIsAbsorbing | rtc-dtls/src/endpoint.rs:150-245 | after a failure no later read or timeout completes the handshake, resends or moves the flight |
| DtlsCompletion.Parse0Keeps | rtc-dtls/src/flight/flight0.rs:25-174 | flight 0 accepts a hello only with extended master secret in use when required, and never touches the cookie |
| DtlsCompletion.Parse2Keeps | rtc-dtls/src/flight/flight2.rs:27-102 | flight 2 goes on to flight 4 only for a cached ClientHello that echoes the cookie |
| DtlsCompletion.Parse3Keeps | rtc-dtls/src/flight/flight3.rs:40-334 | the client goes on to flight 5 only with a cipher suite and with extended master secret when required |
| DtlsCompletion.Parse4Keeps | rtc-dtls/src/flight/flight4.rs:44-494 | the server goes on to flight 6 only with a cached Finished of the encrypted epoch and its client-certificate policy met |
| DtlsCompletion.Parse5Keeps | rtc-dtls/src/flight/flight5.rs:38-166 | the client accepts the last flight only if the cached server Finished equals the PRF over the transcript |
| DtlsCompletion.Generate5Keeps | rtc-dtls/src/flight/flight5.rs:168-590 | building flight 5 never drops the cipher suite nor the extended master secret decision |
| DtlsCompletion.FlightsAreGood | rtc-dtls/src/handshaker.rs:113-223 | every parse and generate keeps what completion rests on |
| DtlsCompletion.CallSafe | rtc-dtls/src/handshaker.rs:75-111 | one call of the machine keeps the invariant, never lowers the flight, and completes only safely |
| DtlsCompletion.EventsSafe | rtc-dtls/src/endpoint.rs:150-245 | the invariant holds after any events and the flight has not gone back |
| DtlsCompletion.CompletionIsSafe | rtc-dtls/src/handshaker.rs:75-224 | from a fresh connection, after any events: an event that completes the handshake finds, at a client, a cipher suite and a verified server Finished; at a server, an echoed cookie, the client Finished and the certificate policy; at both, extended master secret if required; no event lowers the flight |
| StunAgent.Agent.Start | rtc-stun/src/agent.rs:138-152 | a transaction is registered unless the agent is closed or has it already |
| StunAgent.Agent.Stop | rtc-stun/src/agent.rs:154-171 | a live transaction is removed and one event queued for it; otherwise an error |
| StunAgent.Agent.Process | rtc-stun/src/agent.rs:100-114 | a response queues exactly one event and ends its transaction |
| StunAgent.Agent.Collect | rtc-stun/src/agent.rs:176-208 | exactly the transactions whose deadline has passed end, one timeout event each |
| StunAgent.Agent.Close | rtc-stun/src/agent.rs:117-133 | every live transaction ends with one closed event and nothing starts afterwards |
| StunAgent.Agent.PollTimeout | rtc-stun/src/agent.rs:85-93 | the earliest deadline of the live transactions, none only if there are none |
| StunClient.Client.PollEvent | rtc-stun/src/client.rs:150-196 | the loop terminates, each turn shortening the agent queue, and computes Poll: retransmit, swallow or return |
| StunClient.Client.HandleRead | rtc-stun/src/client.rs:198-203 | a decoded message goes to the agent, an undecodable one is an error |
| StunClient.Client.HandleWrite | rtc-stun/src/client.rs:205-236 | a transaction is recorded at the client unless its id is, started at the agent and queued for sending; an id the agent already has is an error that leaves the client entry behind; a closed client changes nothing |
| StunClient.Client.HandleTimeout | rtc-stun/src/client.rs:242-244 | expired transactions are collected at the agent |
| StunClient.Client.HandleClose | rtc-stun/src/client.rs:246-252 | client and agent close together |
| StunClient.RestartRefusedOnlyWhenClosed | rtc-stun/src/client.rs:150-196 | in every reachable state a retransmission is refused by the agent exactly when the client is closed |
| StunClient.StepKeeps | rtc-stun/src/client.rs:146-252 | every client operation keeps the invariant that links the two maps and the event queue |
| StunClient.ExactlyOnce | rtc-stun/src/client.rs:150-236 | in every run a written transaction has had exactly one event once it is no longer outstanding, none before, and an id never written has none |
| StunClient.Coverage | rtc-stun/src/client.rs:150-196 | every outstanding transaction is live in the agent or has a queued event; queued failures plus the live entry never exceed one |
| StunClient.BoundedRetransmission | rtc-stun/src/client.rs:150-236 | everything transmitted is the message written under its id, at most 1 + max_attempts times |
| StunClient.TimeoutOnlyAfterAllAttempts | rtc-stun/src/client.rs:150-196 | a timeout is reported, while open, only after all 1 + max_attempts transmissions |
| StunClient.CloseThenDrain | rtc-stun/src/client.rs:246-252 | after closing at the end of any run, draining returns exactly one event for each outstanding transaction and empties the client map |
| StunMessage.TypeOfNumbers | rtc-stun/src/message.rs:595-643 | the bit groups stand for exactly the 16-bit methods and 8-bit classes |
| StunMessage.TypeRoundTripIff | rtc-stun/src/message.rs:595-643 | method and class survive the interleaved type field exactly when they fit 12 and 2 bits |
| StunMessage.TypeValueRoundTripIff | rtc-stun/src/message.rs:595-643 | a type field survives exactly when its two top bits are clear |
| StunMessage.BodyIsAligned | rtc-stun/src/attributes.rs:192-198 | the body of any attribute list is a multiple of four bytes long |
| StunMessage.PaddingNeeded | rtc-stun/src/message.rs:222-235 | padding is added exactly when the length as kept in 16 bits is no multiple of four |
| StunMessage.Message.Grow | rtc-stun/src/message.rs:177-186 | the buffer is zero-filled to the length, or cut to it when resizing |
| StunMessage.Message.WriteLength | rtc-stun/src/message.rs:241-244 | the two length bytes become the low 16 bits of the length |
| StunMessage.Message.WriteHeader | rtc-stun/src/message.rs:247-255 | type, length, cookie and id are written over the first 20 bytes |
| StunMessage.Message.SetType | rtc-stun/src/message.rs:279-282 | the type and its two bytes change and nothing else |
| StunMessage.Message.SetTransactionId | rtc-stun/src/message.rs:258-261 | the id and its twelve bytes change and nothing else |
| StunMessage.Message.Add | rtc-stun/src/message.rs:191-238 | the buffer is cut to the current length, one padded TLV is appended, the length field rewritten and the attribute recorded |
| StunMessage.Message.WriteAttributes | rtc-stun/src/message.rs:264-270 | all attributes are added again and the list is restored |
| StunMessage.Message.Encode | rtc-stun/src/message.rs:285-290 | the result is Encoded: header with the old length, then every attribute |
| StunMessage.Message.Decode | rtc-stun/src/message.rs:293-366 | every error, and the partly decoded message it leaves, as Decoded |
| StunMessage.Message.Get | rtc-stun/src/attributes.rs:18-27 | the value of the first attribute of the type |
| StunMessage.HeaderWritten | rtc-stun/src/message.rs:247-255 | a header written over an empty buffer is exactly the 20 header bytes |
| StunMessage.AddKeepsBuilt | rtc-stun/src/message.rs:191-238 | adding any attribute keeps the buffer equal to header plus padded TLVs of the list, with the length counting them |
| StunMessage.SetTypeKeepsBuilt | rtc-stun/src/message.rs:273-282 | setting the type keeps that invariant |
| StunMessage.SetIdKeepsBuilt | rtc-stun/src/message.rs:258-261 | setting the transaction id keeps that invariant |
| StunMessage.EncodeBuildsIff | rtc-stun/src/message.rs:264-290 | re-encoding gives a well-built message exactly when there is an attribute or the old length was zero in 16 bits |
| StunMessage.EncodeKeepsStaleLength | rtc-stun/src/message.rs:264-290 | a message without attributes and with a length of 4 left from before is not well built after re-encoding |
| StunMessage.DecodeRoundTripIff | rtc-stun/src/message.rs:293-366 | decoding a built message recovers type, length, id and attributes exactly when the type fits 14 bits, the body 65535 bytes and no attribute has type 0x8020 |
| StunIntegrity.AddIntegrity | rtc-stun/src/integrity.rs:39-60 | refused exactly when a FINGERPRINT is present, and then nothing changes; otherwise the digest of the length-adjusted message is added |
| StunIntegrity.CheckIntegrity | rtc-stun/src/integrity.rs:83-112 | the verdict compares the first digest with the hash of the cut message, and the length field is written back |
| StunIntegrity.DecodedIsCheckable | rtc-stun/src/integrity.rs:83-112 | on any decoded message with MESSAGE-INTEGRITY the size arithmetic of check neither underflows nor leaves the buffer |
| StunIntegrity.IntegrityChecks | rtc-stun/src/integrity.rs:39-112 | for any keyed hash: add the digest, then any attributes, and check hashes exactly the bytes that were hashed, accepts, and leaves the message unchanged |
| StunIntegrity.SameInputIff | rtc-stun/src/integrity.rs:39-112 | both sides hash the same bytes exactly when the message carried no MESSAGE-INTEGRITY before |
| StunIntegrity.SecondIntegrityDiffers | rtc-stun/src/integrity.rs:39-112 | integrity added twice: the two sides hash different bytes |
| StunIntegrity.AddFingerprint | rtc-stun/src/fingerprint.rs:40-50 | the checksum of the length-adjusted message is added |
| StunIntegrity.CheckFingerprint | rtc-stun/src/fingerprint.rs:56-63 | missing, wrong size, match or mismatch against the bytes before the last eight |
| StunIntegrity.FingerprintSameInputIff | rtc-stun/src/fingerprint.rs:40-63 | both sides cover the same bytes exactly when nothing is added after FINGERPRINT |
| StunIntegrity.FingerprintNotLast | rtc-stun/src/fingerprint.rs:40-63 | one attribute after FINGERPRINT: the two sides cover different bytes |
| StunIntegrity.FingerprintChecks | rtc-stun/src/fingerprint.rs:40-63 | a single final FINGERPRINT is accepted, for any checksum |
| StunIntegrity.ReceiverAccepts | rtc-stun/src/integrity.rs:39-112 | integrity, any further attributes, then fingerprint, then decoding at a receiver: both checks accept and the message is left as decoded |
| StunIntegrity.ApplyKeepsBuilt | rtc-stun/src/message.rs:442-449 | every setter, failing or not, keeps the message well built |
| StunIntegrity.Build | rtc-stun/src/message.rs:442-449 | build applies the setters up to the first failure and always leaves a well-built message |
| IcePriority.ComputedInRange | rtc-ice/src/candidate/mod.rs:265-279 | computed candidate priorities with component at most 256 lie between 1 and 2^31 - 1 |
| IcePriority.TypeDominates | rtc-ice/src/candidate/mod.rs:84-91 | a higher type preference outweighs transport and component |
| IcePriority.PairPriorityFits | rtc-ice/src/candidate/candidate_pair.rs:128-140 | for any 32-bit priorities the pair priority fits 64 bits, and is the largest 64-bit number only for two largest inputs |
| IcePriority.RfcPriorityOverflows | rtc-ice/src/candidate/candidate_pair.rs:128-140 | the factor 2^32 of RFC 5245 would overflow where the source factor does not |
| IcePriority.PairPriorityOrders | rtc-ice/src/candidate/candidate_pair.rs:128-140 | below 2^31, pair priorities order pairs by minimum, maximum and larger side |
| IcePriority.OrdersAsRfc | rtc-ice/src/candidate/candidate_pair.rs:128-140 | below 2^31, pairs are ordered exactly as by the formula of section 5.7.2 of RFC 5245 |
| IcePriority.PairPriorityInjective | rtc-ice/src/candidate/candidate_pair.rs:128-140 | below 2^31, distinct pairs have distinct priorities |
| IcePriority.CollisionAbove31Bits | rtc-ice/src/candidate/candidate_pair.rs:128-140 | at 2^31 two different pairs already share a priority |
| IcePriority.SameFromBothSides | rtc-ice/src/candidate/candidate_pair.rs:128-140 | both agents compute the same pair priority |
| IceAgent.Agent.BestPair | rtc-ice/src/agent/mod.rs:1123-1163 | the first eligible pair of highest priority, each counted under the role it was added with; none only if no pair is eligible |
| IceAgent.Agent.FindPairIndex | rtc-ice/src/agent/mod.rs:644-651 | the first pair of the two candidates, none only if there is none |
| IceAgent.Agent.FindRemoteCandidate | rtc-ice/src/agent/mod.rs:740-748 | the first remote candidate with the address |
| IceAgent.Agent.FindLocalCandidate | rtc-ice/src/agent/mod.rs:750-761 | the first local candidate with the address |
| IceAgent.Agent.InvalidatePending | rtc-ice/src/agent/mod.rs:827-853 | exactly the pending requests that are too old are dropped, in order |
| IceAgent.Agent.SendBindingRequest | rtc-ice/src/agent/mod.rs:763-786 | a pending entry with destination and USE-CANDIDATE mark is recorded and the request sent |
| IceAgent.Agent.SendBindingSuccess | rtc-ice/src/agent/mod.rs:788-821 | an answer with the request id goes back to the sender address |
| IceAgent.Agent.MarkPairs | rtc-ice/src/agent/mod.rs:592-625 | waiting pairs move on, exhausted ones fail, and the others are listed for a check |
| IceAgent.Agent.PingAllCandidates | rtc-ice/src/agent/mod.rs:592-631 | one check for each listed pair |
| IceAgent.Agent.NominatePair | rtc-ice/src/agent/agent_selector.rs:89-143 | the nominated pair is checked with USE-CANDIDATE |
| IceAgent.Agent.SetSelectedPair | rtc-ice/src/agent/mod.rs:568-590 | the pair is flagged, becomes the selected one, is announced with its addresses, and the connection counts as connected |
| IceAgent.Agent.CheckKeepalive | rtc-ice/src/agent/mod.rs:695-721 | a due keepalive is one check on the selected pair |
| IceAgent.Agent.ValidateSelectedPair | rtc-ice/src/agent/mod.rs:655-691 | a selected pair on which nothing has come in for too long fails the connection; otherwise nothing changes |
| IceAgent.Agent.MaintainSelectedPair | rtc-ice/src/agent/agent_selector.rs:226-229 | the selected pair is validated and, if it still is selected, kept alive |
| IceAgent.Agent.ContactCandidates | rtc-ice/src/agent/agent_selector.rs:217-259 | a selected pair is validated, which may fail the connection, and kept alive; else repeated nomination, first nomination of the best valid ready pair, or checks, by role; a candidate index out of range is a panic |
| IceAgent.Agent.RequestConnectivityCheck | rtc-ice/src/agent/mod.rs:518-547 | nothing is contacted before the remote credentials are set nor while the connection is failed; an agent that has checked for too long fails; else candidates are contacted |
| IceAgent.Agent.StartConnectivityChecks | rtc-ice/src/agent/mod.rs:449-467 | every call, not only the first, makes the remote credentials known, sets the role, drops the nomination of a controlling agent, takes the connection back to checking and requests a check |
| IceAgent.Agent.GiveUp | rtc-ice/src/agent/mod.rs:549-566 | a failure clears the selection and both candidate lists, once, and keeps the pairs, the nomination and the pending requests |
| IceAgent.Agent.HandleInboundBindingSuccess | rtc-ice/src/agent/mod.rs:857-871 | the pending request of the id is returned and removed, once |
| IceAgent.Agent.HandleSuccessResponse | rtc-ice/src/agent/agent_selector.rs:293-340 | an answer from the asked address makes its pair valid and, at the controlling agent, selects it if it was nominated |
| IceAgent.Agent.RequestToControlling | rtc-ice/src/agent/agent_selector.rs:342-384 | a request is answered and may nominate its pair, or adds a pair |
| IceAgent.Agent.RequestToControlled | rtc-ice/src/agent/agent_selector.rs:479-515 | a USE-CANDIDATE request selects a valid pair and is then answered, or triggers a check; other requests are answered and checked |
| IceAgent.Agent.AddRemoteCandidate | rtc-ice/src/agent/mod.rs:293-318 | a new remote candidate is paired with every local one and a check requested, in which the connection may fail; a known one changes nothing |
| IceAgent.Agent.AddLocalCandidate | rtc-ice/src/agent/mod.rs:274-290 | a new local candidate is paired with every remote one and a check requested, in which the connection may fail; a known one changes nothing |
| IceAgent.Agent.HandleInbound | rtc-ice/src/agent/mod.rs:874-1031 | missing credentials, role errors, unknown candidates, peer-reflexive candidates, answers and requests as Inbound, whatever the state of the connection; a panic if adding the peer-reflexive candidate has failed the connection |
| IceAgent.SendRequestKeeps | rtc-ice/src/agent/mod.rs:763-786 | sending a check keeps the agent invariant: fresh ids, every pending entry was sent, USE-CANDIDATE only on the nominated pair |
| IceAgent.ContactKeeps | rtc-ice/src/agent/mod.rs:518-547 | a contact fails the connection exactly when its deadline has passed, checking or on the selected pair, and then changes nothing else; otherwise it keeps the invariant, selects nothing and answers nothing |
| IceAgent.InboundAtControlling | rtc-ice/src/agent/agent_selector.rs:293-384 | whatever arrives: a selection needs an answer, from where it was asked, to a USE-CANDIDATE request, and picks the pair the answer came in on; a request overtaken by the deadline panics |
| IceAgent.InboundAtControlled | rtc-ice/src/agent/agent_selector.rs:434-515 | whatever arrives: only a USE-CANDIDATE request selects, on the pair it came in on, and it is answered only once a pair is selected; a request overtaken by the deadline panics |
| IceAgent.PanicsIff | rtc-ice/src/agent/mod.rs:977-996 | handling a message at an agent that has not failed panics if and only if it is an accepted request from an unknown address and the deadline of the connection has passed |
| IceAgent.FailedControlledSelectsIff | rtc-ice/src/agent/agent_selector.rs:479-515 | a controlled agent whose connection has failed selects exactly when a USE-CANDIDATE request reaches a local candidate it has and the old pair of those indices was valid |
| IceAgent.FailedControllingSelectsIff | rtc-ice/src/agent/agent_selector.rs:293-340 | a controlling agent whose connection has failed selects exactly on an answer, from where it was asked, to a USE-CANDIDATE request still pending, if a pair of those indices is there |
| IceNomination.NextKeeps | rtc-ice/src/agent/agent_selector.rs:89-515 | every step of two agents that freeze when they fail, in the middle of a call or not, keeps the joint invariant |
| IceNomination.RunFollows | rtc-ice/src/agent/mod.rs:518-566 | in every orderly run (checks started once, no local candidate added to a failed agent) the agents as written do what agents that freeze would do, and they panic if and only if some step delivers a request overtaken by the deadline |
| IceNomination.NominationAgreement | rtc-ice/src/agent/agent_selector.rs:89-515 | in every orderly run, failures and panics included: one pair carries USE-CANDIDATE, each side selects at most once and only a valid pair, the controlling side only after the controlled side, and both select the two ends of one path; an agent panics if and only if a request overtaken by the deadline reached one |
| IceFailure.SelectsTwice | rtc-ice/src/agent/mod.rs:274-290 | a run in which the controlled agent selects, fails, is given a local candidate and selects the old pair a second time |
| IceFailure.SelectsTwiceRestarted | rtc-ice/src/agent/mod.rs:449-467 | the same when the failed agent is first started again, so starting once is needed as well |
| IceFailure.RunPanics | rtc-ice/src/agent/mod.rs:994-995 | an orderly run in which the controlling agent panics: the deadline passes between two timers and a request comes in from an unknown address |
| RtpHeader.FirstByteIs | rtc-rtp/src/header.rs:239-247 | the shifts and ors of the first byte are the sum of its four fields |
| RtpHeader.OneByteRoundTrip | rtc-rtp/src/header.rs:121-145 | one-byte elements followed by zero padding are read back and leave exactly what follows |
| RtpHeader.TwoByteRoundTrip | rtc-rtp/src/header.rs:147-169 | two-byte elements followed by zero padding are read back and leave exactly what follows |
| RtpHeader.ElementsLength | rtc-rtp/src/header.rs:323-338 | the extension length that is counted is the length of the elements written |
| RtpHeader.MarshalTo | rtc-rtp/src/header.rs:218-320 | the writer computes Marshal, each refusal included |
| RtpHeader.OneByteLoop | rtc-rtp/src/header.rs:121-145 | the one-byte loop computes ReadOneByte: padding, reserved id, overrun |
| RtpHeader.TwoByteLoop | rtc-rtp/src/header.rs:147-169 | the two-byte loop computes ReadTwoByte |
| RtpHeader.UnmarshalFrom | rtc-rtp/src/header.rs:56-200 | the reader computes Unmarshal, each error included |
| RtpHeader.HeaderRoundTrip | rtc-rtp/src/header.rs:56-320 | a well-formed header fills exactly marshal_size bytes and is read back, leaving exactly the payload, in all three profiles |
| RtpHeader.HeaderRoundTripIff | rtc-rtp/src/header.rs:56-320 | a header is written and read back, leaving exactly the payload, if and only if the buffer holds marshal_size bytes and the header is well-formed |
| RtpHeader.OneByteAborts | rtc-rtp/src/header.rs:121-145 | the one-byte loop overruns if and only if an element that begins inside the block runs past the end of the packet |
| RtpHeader.TwoByteAborts | rtc-rtp/src/header.rs:147-169 | the same for two-byte elements, whose head may be cut as well |
| RtpHeader.UnmarshalPanicsIff | rtc-rtp/src/header.rs:56-200 | exactly which packets make reading panic: the declared block fits, the profile is one- or two-byte, and an element that begins inside the block runs past the end of the packet |
| SctpPacket.ChunkLoop | rtc-sctp/src/packet.rs:228-262 | the chunk loop terminates and computes DecodeChunks |
| SctpPacket.UnmarshalPacket | rtc-sctp/src/packet.rs:211-272 | size, checksum and chunk errors and the packet, as Unmarshal |
| SctpPacket.FinishPartial | rtc-sctp/src/packet.rs:126-181 | the loop over the remaining bytes computes Finish |
| SctpPacket.MarshalPacket | rtc-sctp/src/packet.rs:274-314 | header, checksum over four zeros, and padded chunks, as Marshal |
| SctpPacket.FinishAgrees | rtc-sctp/src/packet.rs:74-181 | for any chunk codec: when the partial decoder accepts, finishing gives what the whole decoder gives, errors included |
| SctpPacket.PartialAcceptsIff | rtc-sctp/src/packet.rs:74-123 | on packets the whole decoder accepts, the partial one accepts exactly those with a chunk |
| SctpPacket.EmptyPacketSplits | rtc-sctp/src/packet.rs:74-123 | a packet without chunks: the whole decoder accepts it, the partial one does not |
| SctpPacket.PutIsLaid | rtc-sctp/src/packet.rs:274-314 | padding by the length of the whole and by the length of each value are the same bytes |
| SctpPacket.PacketRoundTripIff | rtc-sctp/src/packet.rs:211-314 | for a codec that says where each chunk can be read, a marshalled packet, checksum included, decodes to the same header and chunks exactly when each chunk is in such a place |
| SctpChunks.StreamLoop | rtc-sctp/src/chunk/chunk_forward_tsn.rs:59-89 | the stream loop of FORWARD-TSN runs to the end of the packet and computes ReadStreams |
| SctpChunks.BlockLoops | rtc-sctp/src/chunk/chunk_selective_ack.rs:115-124 | the two loops of SACK read the counted gap blocks and duplicates |
| SctpChunks.ChunkHeaderRead | rtc-sctp/src/chunk/chunk_header.rs:42-96 | the header of a written chunk is read back in front of other chunks, its zero padding accepted |
| SctpChunks.BodyDecodes | rtc-sctp/src/chunk/chunk_payload_data.rs:174-231 | values of DATA, SACK, SHUTDOWN and its answers, COOKIE-ECHO, COOKIE-ACK and FORWARD-TSN are read back; SHUTDOWN and FORWARD-TSN exactly when nothing follows |
| SctpChunks.ChunksAreCorrect | rtc-sctp/src/chunk/chunk_shutdown.rs:38-68 | these eight chunk types meet what the packet results ask of a codec |
| SctpChunks.AlwaysWritten | rtc-sctp/src/packet.rs:274-314 | every packet is written, an oversized chunk under the low 16 bits of its length |
| SctpChunks.DecodedFits | rtc-sctp/src/chunk/chunk_header.rs:42-96 | no chunk longer than its length field can say is ever read |
| SctpChunks.ChunksRoundTripIff | rtc-sctp/src/packet.rs:211-314 | a packet of these chunks is read back exactly when every value fits its length field and no SHUTDOWN and no FORWARD-TSN has a chunk behind it |
| SctpChunks.ShutdownInFront | rtc-sctp/src/chunk/chunk_shutdown.rs:38-54 | a SHUTDOWN in front of a COOKIE-ACK is written and then refused |
| SctpChunks.CookieTooLong | rtc-sctp/src/chunk/chunk_cookie_echo.rs:41-52 | a cookie of 65532 bytes or more is written and then not read back |
| ChunkSource.PopArrayConserves | rtc-sctp/src/util.rs:123-148 | a piece and the rest make up the chunks, the piece fits the limit, and with room it is empty exactly at the end |
| ChunkSource.PopSliceConserves | rtc-sctp/src/util.rs:176-187 | the same of the flat slice |
| ChunkSource.ArrayConserves | rtc-sctp/src/util.rs:123-148 | for any limits, pieces and rest concatenate to the original and each piece fits |
| ChunkSource.ArrayRefinesSlice | rtc-sctp/src/util.rs:107-187 | the array yields a prefix of what the slice yields under the same limits, and with enough positive limits both yield exactly the concatenation |
| ChunkSource.BytesArray.PopChunk | rtc-sctp/src/util.rs:123-148 | the loop takes the piece out of the array in place as PopArray |
| ChunkSource.ByteSlice.PopChunk | rtc-sctp/src/util.rs:176-187 | the slice is shortened by the piece as PopSlice |
| HandshakeCodec.ClientKeySizeIsLength | rtc-dtls/src/handshake/handshake_message_client_key_exchange.rs:20-26 | size is the marshalled length |
| HandshakeCodec.ClientKeyRoundTripIff | rtc-dtls/src/handshake/handshake_message_client_key_exchange.rs:28-67 | identity and public key are never confused: read back exactly when they fit their length field |
| HandshakeCodec.ServerKeySizeIsLength | rtc-dtls/src/handshake/handshake_message_server_key_exchange.rs:29-35 | size is the marshalled length |
| HandshakeCodec.CurveKeyRoundTripIff | rtc-dtls/src/handshake/handshake_message_server_key_exchange.rs:37-130 | a named-curve message is read back exactly when it is not 770 bytes long |
| HandshakeCodec.CurveKeyMistaken | rtc-dtls/src/handshake/handshake_message_server_key_exchange.rs:63-78 | a 65-byte key with a 697-byte signature is taken for a PSK identity |
| HandshakeCodec.PskServerKeyRoundTripIff | rtc-dtls/src/handshake/handshake_message_server_key_exchange.rs:37-78 | a PSK identity is read back exactly when it fits its length field |
| HandshakeCodec.HelloSizeIsLength | rtc-dtls/src/handshake/handshake_message_client_hello.rs:81-102 | size is the marshalled length of every message that marshals |
| HandshakeCodec.HelloRoundTrip | rtc-dtls/src/handshake/handshake_message_client_hello.rs:104-195 | a well-formed ClientHello whose extensions carry their own length is read back through its extension loop, whatever follows it |
| HandshakeCodec.ExtensionLoop | rtc-dtls/src/handshake/handshake_message_client_hello.rs:166-185 | the loop computes ParseExtensions: unreadable extensions are stepped over, a cut header aborts |
| HandshakeCodec.UnmarshalHello | rtc-dtls/src/handshake/handshake_message_client_hello.rs:140-195 | the reader computes GetHello |
| HandshakeCodec.MarshalHello | rtc-dtls/src/handshake/handshake_message_client_hello.rs:104-138 | the writer computes PutHello, the long cookie refused |
| DtlsExtensions.NumberLoop | rtc-dtls/src/extension/extension_supported_elliptic_curves.rs:34-46 | the loop over the numbers of a list computes GetNumbers |
| DtlsExtensions.EncodedSize | rtc-dtls/src/extension/mod.rs:74-101 | size is the marshalled length of all seven extensions, and the length field says what follows it, in 16 bits |
| DtlsExtensions.ListRead | rtc-dtls/src/extension/extension_use_srtp.rs:48-81 | a list whose length fits its field is read back exactly when the reader knows its numbers |
| DtlsExtensions.DecodesIff | rtc-dtls/src/extension/mod.rs:90-130 | an extension whose length fits its field is read back exactly when it is well-formed |
| DtlsExtensions.DelimitedIff | rtc-dtls/src/extension/mod.rs:90-130 | an extension carries its own length and is read back whatever follows exactly when it is well-formed: a name that is text, lists that fit and hold known numbers, an extended master secret that says yes |
| DtlsExtensions.ClientHelloRoundTrip | rtc-dtls/src/handshake/handshake_message_client_hello.rs:81-195 | a ClientHello with any of the seven extensions has the computed size and is read back, whatever follows it |

## Left out

- Cryptography itself: AES, HMAC, PRF, ECDH, signatures and X.509 are functions with the properties a theorem names (an AEAD or block cipher with an inverse, a digest of 20 bytes); the records around them are modelled. A record too short for its tag or initial vector is refused here, where the source indexes out of range or underflows.
- The sliding-window replay detector: it is an arbitrary yes or no per record, so the DTLS results hold for every detector.
- DTLS liveness: that a handshake completes, or that the timer is armed in every waiting state, is not claimed.
- The client Finished at the server is shown to have been received, not to be correct: flight 4 does not compare it.
- DTLS application data that waits for completion in front of the outgoing queue, and resumed connections. The initial epoch, a setting that is always 0, is 0 in DtlsAgreement.
- DtlsFlights.ReadClientExtensions: the extension loop of flight 3 is a function on values; so are the other writes of parse and generate to the connection state, hence update in place and aliasing of that state are not captured.
- DtlsHandshaker.Conn.Handshake: called only before completion, as its callers do; on a completed connection the loop of the source has no exit.
- The hello messages built by flights 1 to 4 enter as given bytes; their contents matter to no result here.
- Fragments that fragment_handshake did not make: only the size bound and termination cover them.
- DtlsEndToEnd.SentIsTaken: message sequence numbers start from zero, bodies keep 24-bit lengths, and a record with what its cipher adds keeps its 16-bit length; beyond that the source truncates.
- DtlsAgreement.SessionHashesAgree: the client holds the whole of the server flight it answers and has flushed its own hellos, which is what its earlier flights check; a server that has not yet taken the key messages hashes less.
- StunClient.ExactlyOnce: transaction ids are fresh, as 96 random bits are meant to be; a reused id is not covered.
- StunMessage.Message.Add: the 32-bit length counter does not wrap, so bodies of 4 GiB are not covered.
- STUN read_from, which caps its input at 120 bytes, and the typed attributes (addresses, usernames, error codes).
- IceNomination.NominationAgreement: assumes that answers return on the path of their request and that a session has no ICE restart and no close; the two conditions of an orderly run are each shown to be needed by a run, they are sufficient, and the two lemmas on failed agents say exactly which message breaks agreement beyond them.
- IceAgent.Agent.RequestConnectivityCheck: whether a deadline has passed is a parameter of each call; that the first contact of a new check restarts the clock is not modelled, so the model has more failing runs than the source.
- IceAgent.Agent.HandleInbound: authentication by username and MESSAGE-INTEGRITY is taken as done, so only messages of the two agents arrive; candidate equality is address and priority.
- IceAgent.Agent.SendBindingRequest: transaction ids are a counter of the agent instead of random, which gives the same freshness.
- RTP set_extension, get_extension and del_extension.
- Length arithmetic in 8 and 16 bits wraps, as in a release build of the source; with overflow checks an oversized chunk, extension list or empty one-byte RTP extension panics instead of being written.
- The parameter-carrying SCTP chunks (INIT, HEARTBEAT, ABORT, ERROR, RECONFIG) are covered only through the codec parameter of SctpPacket; SctpChunks refuses them, and refuses values cut short where the source panics.
- BytesArray remaining and has_remaining, which mix a count of chunks with a count of bytes.
- RTCP, SRTP, SDP, TURN, data channels, mDNS, candidate strings, serial-number comparison, configuration and I/O: easy members or plumbing.
