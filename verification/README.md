# sencd in Dafny

A model of the sencd VPN daemon and proofs about it: the two-party handshake over byte streams, the framing
beneath it, the session table, the server's threads with their lock, and the encrypted data path from one TUN
device to the other. The main results are about whole runs: every interleaving of the two handshake roles under
every division of the streams, and every interleaving of the server's four threads, any number of peers of any
kind and a network that delivers any bytes to anyone at any time.

`dafny verify dfyconfig.toml` checks the project.

## Structure

| module | models |
|---|---|
| Bytes | big-endian and host-order integers, both directions |
| Crypto | the primitives as arbitrary functions with three laws, the key split, the nonce; a toy suite that obeys the laws |
| Packet | frames, `packet_send` and `packet_receive` with their loops over partial `send` and `recv` |
| Layout | the wire formats in numbers: frames, structs, datagrams, nonces, compressed packets |
| Handshake, Session | `session.c` twice: as functions of the whole input stream, and as a class whose methods are proved to compute them |
| Party | one role as a machine that moves any number of bytes at a time, proved equal to the functions |
| Acceptance | exactly which streams take a role to ESTABLISHED, and what is read and written on the way, also on failure |
| Protocol, Agreement | the two machines joined by two FIFO streams: invariant, agreement, progress |
| ClientEnv, Pinning | the client's threads, the pinned server key over many attempts, when it does not bind, and what holds without it |
| SessionTable, SessionManager | the 1024 slots as a sequence with its run properties, and the manager as a class over an array |
| Tunnel | compress-or-store, datagram layout and AEAD, as functions and as methods on buffers |
| System, Threads | server threads, lock, peers and network as one step system; memory and lock safety |
| PeerAddress, Sending | the TUN sender's turn, where every datagram of a run went, and exactly when an address moves |
| Conversation, Termination | a packet there and one back, and an end of the server, are possible from wherever a run has come |
| Allocation | the scans of the step system are the table's operations; octets and routing over whole runs |
| Integrity, Delivery | what reaches a TUN, nonce use, published keys; connections are published and datagrams arrive |
| Shutdown | both roles' whole-stream functions against each other, and a connection's life from end to end |

The step system of System.dfy is built from the functions that the methods are proved against: `ServerRun`,
`Outbound`, `Inbound`, `Peeked`, `Octet`, `First`, `Matches`, `Blank`. The server accepts any connection: whatever
bytes its peer sends, the session comes to what `ServerRun` computes on them. A connection is `Honest` if those
bytes are what an honest client writes to this server; only honest clients are modelled at the other end.

## What the code does not quite promise

* While the server is ESTABLISHED the client may still be CONNECTING: it assigns WAIT_AUTH only after its
  `packet_send` has returned (`src/sessions/session.c:281-289`). Its keys agree all the same.
  `ServerEstablishedAgrees` says exactly when the state field lags, `ClientStateCanLag` builds such a run for
  every honest pair.
* A stored server key can be replaced: if the pin file cannot be read but can be written, any challenge of the
  right size overwrites it, before its signature is looked at (`src/commands/client_env.c:201-210`,
  `src/sessions/session.c:225-247`). `PinSurvivesExactly` gives the exact condition.
* And it does not bind an attempt that cannot read it, even if the file is then left alone: such an attempt
  establishes with whoever answers. `UnreadIsUnpinned` gives the input, `PeerIsPinnedExactly` the exact condition.
* Without a pin both sides agree on keys and id, but the client need not have the server's identity: no signature
  covers it (`src/sessions/session.c:241-269`). `OtherIdentityIsAccepted` gives the input, `IdentityNeedsPin` the
  exact condition.
* From the 254th live session on, tunnel octets leave the subnet: slot 253 has 255, slot 254 has 0, slot 255 has
  the server's own 1, and later ones repeat (`src/sessions/session_manager.c:95`). `BeyondTheBound` shows that
  253 is the sharp bound of `OctetsAreUsable`; `UsableExactly` is the exact condition over runs.
* The UDP listener records the sender's address before it decrypts (`src/sessions/session_manager.c:216-224`), so
  any datagram with a live session id moves the peer address. `StrayMovesPeer` gives the input,
  `PeerMovesExactly` the exact condition, and `Sending.DatagramsGoToLastSource` what holds over runs. Integrity does not
  depend on the address.

## Assumptions

* Random draws (ephemerals, nonces, session ids) and the two padding bytes of each header are arbitrary inputs.
* `Suite.Lawful`: honest signatures verify, the exchange commutes and succeeds between honest peers, sealing adds
  16 bytes and opens again. `Codec.Lawful`: `ZSTD_compressBound(n) >= n`, outputs respect it and decompress to
  their input. `ToySuiteIsLawful` and `ToyCodecIsLawful` give instances. Acceptance and the methods assume no
  law except, where buffer sizes need it, the 16 bytes of the tag.
* No theorem about threads, memory, slots, octets, routing, peer addresses or published keys assumes anything about
  the peers. The rest assumes the following of a whole run; `ConnectionsExist` shows that all of it can be met.
  * `FreshDraws`: the server does not draw the same ephemeral for two completed handshakes.
  * `NoCollision` (nonce use): the hash that splits the shared secret gives sessions with different server
    ephemerals different keys, whoever their peers are, and an honest session two different ones.
  * `NoHonestCollision` (integrity): the same only where an honest session is involved.
  * `UnforgedRun` (integrity): a datagram opens under an honest session's key only if it was sealed under that
    key. Everything else about the network is arbitrary, and forgeries under other sessions' keys are free.
  Nonce use is stated for everything that any session seals. Integrity is stated for each honest session, beside
  sessions with peers of any kind.
* A `Socket` moves any number of bytes per call. If it is `reliable` it fails only at the end of the stream; what
  needs that says so. Peers have the same little-endian host order, which the session id on the wire needs.
* The step system lets more happen than the program: the listener may stop at any time, a handshake may fail at
  any time, and a datagram may arrive even when the socket has just been closed. Each thread's local computation
  between two shared accesses is one step.

## Model

| member | source | states |
|---|---|---|
| Bytes.ReadBack64 | src/tunnel/tunnel_packet.c:12-16 | reading a big-endian image of any number gives it back modulo 2^64 |
| Bytes.WriteBack | src/shared/packet.c:71 | writing what was read from any bytes gives those bytes, so reading is injective |
| Bytes.ReadBackHost64 | src/sessions/session.c:166 | a host-order integer survives the copy into and out of AUTH_SUCCESS |
| Bytes.FourBytes | src/shared/packet.c:34 | the four bytes of a big-endian integer are its digits of weight 2^24, 2^16, 2^8 and 1, in that order |
| Bytes.EightBytes | src/tunnel/tunnel_packet.c:12-16 | the eight bytes of a big-endian integer are its digits from weight 2^56 down |
| Bytes.EightHostBytes | src/sessions/session.c:166 | in a struct they are in the opposite order |
| Bytes.FourByteValue | src/shared/packet.c:71 | four big-endian bytes are read as the sum of their values times 2^24, 2^16, 2^8 and 1 |
| Crypto.NonceCollision | src/shared/security/crypto.c:193-199 | two counters share a 12-byte nonce exactly when they agree modulo 2^64, so the map is injective on 64-bit counters |
| Layout.NonceLayout | src/shared/security/crypto.c:193-199 | the nonce is four zero bytes and the counter's eight digits, the highest first |
| Crypto.ToySuiteIsLawful | src/shared/security/crypto.c:162-184 | the laws assumed of the primitives have an instance |
| Packet.ParseFrame | src/shared/packet.c:61-111 | an accepted packet has version 1, type at most PACKET_ERROR and payload at most MAX_PACKET_SIZE, and its frame lies inside the stream |
| Layout.ParsesExactly | src/shared/packet.c:61-111 | a frame is read if and only if there are 8 bytes, byte 4 is 1, byte 5 is at most 12, and the length n in bytes 0 to 3 is at most 0x1000000 with 8 + n bytes there; refused at the header if and only if one of the first three fails; and what is then read |
| Layout.FrameLayout | src/shared/packet.c:32-59 | a frame is the four digits of the length, the version, the type, two bytes that nobody reads, and the payload |
| Packet.FrameReadsBack | src/shared/packet.c:32-59 | a frame at the head of any stream parses to its packet and consumes exactly its own bytes, whatever the padding |
| Packet.AcceptedIsFrame | src/shared/packet.c:61-111 | whatever is accepted is the frame of the resulting packet under some padding: nothing else is accepted |
| Packet.PrefixIsTruncated | src/shared/packet.c:101-107 | a proper prefix of a frame is never taken for a frame, and the reader asks for exactly the rest of the header or of that frame |
| Packet.MoreBytes | src/shared/packet.c:156-169 | acceptance and rejection of a frame do not change when more bytes follow |
| Packet.StreamRoundTrip | src/shared/packet.c:32-111 | receiving repeatedly from the frames of any list of acceptable packets yields exactly that list |
| Packet.CutStream | src/shared/packet.c:61-111 | a stream cut at any byte yields exactly the packets whose frames are complete: never a partial or a merged one |
| Packet.SendAll | src/shared/packet.c:141-154 | in any number of partial sends, the whole buffer in order; on failure a proper prefix of it |
| Packet.RecvAll | src/shared/packet.c:156-169 | however the bytes arrive, exactly the next `length` bytes of the stream; on a reliable socket it fails only when there are fewer, and then has taken them all |
| Packet.PacketSend | src/shared/packet.c:32-59 | one whole frame on success, a proper prefix of one on failure, nothing when the payload is oversized |
| Packet.PacketReceive | src/shared/packet.c:61-111 | success consumes exactly the first frame of the stream and returns its packet; on a reliable socket success is equivalent to there being one, and failure leaves what follows a rejected header, or nothing |
| Packet.SendPackets | src/shared/packet.c:32-59 | packets sent one after another hand over exactly their frames in order, or a prefix of that stream up to a failure |
| Packet.ReceivePackets | src/commands/client_env.c:54-70 | receiving until failure yields, on a stream read to its end, exactly `ReceiveAll` of it, and otherwise a prefix of that |
| Packet.Transfer | src/shared/packet.c:32-111 | a list sent over one socket and received over another, each dividing the stream as it likes and failing at any point: a prefix of the list arrives, exactly the completely sent packets if the receiver reads on, and all of it if nothing fails |
| Handshake.StructsReadBack | src/shared/auth.h:26-42 | the 144, 128 and 40 byte structs read back as they were written |
| Layout.StructLayout | src/shared/auth.h:26-42 | signature at 0, public key at 64, ephemeral key at 96, nonce at 128; session nonce at 0 and the id from 32, low byte first |
| Session.PinStore.Load | src/shared/security/crypto.c:105-113 | a key is returned if and only if the file can be read, exists and has at least 32 bytes, and then it is the first 32 |
| Session.PinStore.Save | src/shared/security/crypto.c:115-126 | the file holds exactly the key afterwards, or is unchanged when it cannot be opened |
| Session.Session.constructor | src/sessions/session.c:19-53 | a created session field by field: the identity, the pin if any, the drawn id, version 1, CONNECTING, no keys, not verified |
| Session.Session.Destroy | src/sessions/session.c:55-64 | field by field, nothing of the session survives, and the state is DISCONNECTED |
| Session.Session.AuthenticateServer | src/sessions/session.c:66-109 | exactly one AUTH_REQUEST over this session's nonce and ephemeral, and WAIT_AUTH; or failure with the session as the failing step leaves it and no more than a prefix sent |
| Session.Session.VerifyClient | src/sessions/session.c:370-416 | succeeds exactly on an AUTH_RESPONSE of 128 bytes that verifies, having consumed that frame; the state field is untouched |
| Session.Session.FinishServer | src/sessions/session.c:153-192 | ESTABLISHED exactly on success, having consumed one frame and sent exactly one AUTH_SUCCESS |
| Session.Session.AuthenticateBoth | src/sessions/session.c:148-192 | computes `ServerAuthenticate` of the remaining stream, as ServerConnect computes `ServerRun` |
| Session.Session.ServerConnect | src/sessions/session.c:111-193 | under any partial sends and receives: ESTABLISHED exactly on success, and then `ServerRun` of the stream gives the session, the bytes sent and the bytes left; on a reliable socket it gives them on failure too; on a failing one a prefix of those bytes was sent and part of the stream taken |
| Session.Session.AnswerRequest | src/sessions/session.c:204-279 | the answer to a challenge, with the pin written before the signature is checked |
| Session.Session.Reply | src/sessions/session.c:204-331 | from a received packet on, computes `ClientReply`, with the pin file exactly as that says even when sends and receives fail |
| Session.Session.Respond | src/sessions/session.c:281-331 | from the send of the response on, computes `ClientFinish` of the remaining stream after that frame |
| Session.Session.FinishClient | src/sessions/session.c:291-331 | ESTABLISHED exactly when an AUTH_SUCCESS of 40 bytes was read; id and nonce are the ones in it |
| Session.Session.AuthenticateClient | src/sessions/session.c:195-332 | computes `ClientAuthenticate` in the same sense; the pin file is as before or holds the key offered, and is as before whenever a key is pinned |
| Session.Session.ClientConnect | src/sessions/session.c:334-368 | computes `ClientRun` of the stream in the same sense; the pin file is as before or holds the key offered, and is as before whenever a key is pinned, on every socket |
| Party.MovesKeepValid | src/sessions/session.c:111-416 | a role never holds more than an incomplete frame, and holds unsent bytes only while sending |
| Party.ExecServer | src/sessions/session.c:111-193 | the byte-moving machine of the server, taken to its end, computes `ServerRun` |
| Party.ExecClient | src/sessions/session.c:195-368 | the byte-moving machine of the client, taken to its end, computes `ClientRun` |
| Party.OneMoveKeepsDestiny | src/shared/packet.c:141-169 | no partial send or receive changes what the role will end up sending, leaving unread and holding |
| Party.ChunksDoNotMatter | src/shared/packet.c:141-169 | however both streams are cut, a role that has come to its end is where the uncut execution puts it, with the same bytes sent and left |
| Acceptance.ServerAcceptsExactly | src/sessions/session.c:111-193 | the server succeeds and leaves s[n..] if and only if s[..n] is a CLIENT_HELLO frame and an AUTH_RESPONSE frame of 128 bytes whose signature verifies over this session's nonce and the sent ephemeral |
| Acceptance.ServerHolds | src/sessions/session.c:153-190 | on success: verified, the responder's key as peer, the drawn nonce, and the keys split from this very exchange |
| Acceptance.ClientAcceptsExactly | src/sessions/session.c:195-368 | the client succeeds and leaves s[n..] if and only if s[..n] is SERVER_HELLO, an AUTH_REQUEST of 144 bytes under the pinned key with a signature over its nonce and ephemeral, and an AUTH_SUCCESS of 40 bytes |
| Acceptance.ClientHolds | src/sessions/session.c:219-327 | on success: the pinned key as peer, the keys of this exchange, and the id and nonce of the AUTH_SUCCESS read |
| Acceptance.ServerReads | src/sessions/session.c:116-131 | a server that succeeds has read exactly a frame of type 0 and one of type 3 with 128 bytes, at those offsets |
| Acceptance.ServerWrites | src/sessions/session.c:133-188 | whether or not it succeeds: nothing before a CLIENT_HELLO was accepted, then 8 bytes with type 1, then unless it could not sign 152 with type 2, and only on success 48 with type 4 |
| Acceptance.ClientReads | src/sessions/session.c:348-361 | a client that succeeds has read exactly frames of types 1, 2 with 144 bytes and 4 with 40, at those offsets |
| Acceptance.ClientWrites | src/sessions/session.c:272-287 | whether or not it succeeds: 8 bytes with type 0, and 136 with type 3 exactly if a SERVER_HELLO and an acceptable challenge came |
| Acceptance.FailureLeaves | src/sessions/session.c:399-413 | a server handshake that fails leaves no keys, no verified peer and no session nonce; WAIT_AUTH exactly if a CLIENT_HELLO was accepted; and the key of a well-formed response as peer, unverified |
| Acceptance.ClientFailureLeaves | src/sessions/session.c:219-289 | a client that fails is in WAIT_AUTH exactly if it answered, with the id it drew; and trusts the key of a well-formed challenge if it trusted none, answered or not |
| Protocol.SendsAsScripted | src/sessions/session.c:66-109 | each return of a send takes an honest role to the next control point of the script, with the next frame to send |
| Protocol.ReceivesAsScripted | src/sessions/session.c:195-416 | each frame that an honest peer writes is accepted and takes the role to the next control point |
| Protocol.ResponseVerifies | src/sessions/session.c:370-416 | an honest client's response verifies, and the server derives the client's keys crosswise |
| Protocol.RequestIsAnswered | src/sessions/session.c:195-279 | an honest server's challenge is accepted under a matching or absent pin, and answered with the scripted response |
| Protocol.StepKeepsInv | src/sessions/session.c:111-416 | every step of either role, of any number of bytes, keeps both on the script with their streams consistent |
| Protocol.RunKeepsInv | src/sessions/session.c:111-416 | so does every run |
| Agreement.ClientEstablishedAgrees | src/sessions/session.c:111-416 | in every interleaving: client ESTABLISHED implies that the server has verified it and has ended or is finishing its last send, client tx = server rx, client rx = server tx, equal id and nonce, and each holds the other's identity key |
| Agreement.ServerEstablishedAgrees | src/sessions/session.c:111-416 | in every interleaving: server ESTABLISHED implies that the client holds the same keys; its state is WAIT_AUTH or ESTABLISHED exactly when its send of the response has returned |
| Agreement.StatesByPc | src/sessions/session.c:104-190 | in every run, exactly at which control points each side is CONNECTING, WAIT_AUTH and ESTABLISHED |
| Agreement.CutsAreFree | src/shared/packet.c:141-169 | any number of pending bytes may be sent at once, and any number received up to the end of the header or of the frame being read |
| Agreement.AnyCallMayFail | src/shared/packet.c:147-148 | any send or receive of either side may fail at any time |
| Agreement.AgreementSurvivesFailures | src/shared/packet.c:144-148 | agreement holds at every moment of every interleaving in which any send or receive of either side may fail, and an ESTABLISHED client's server has not failed and cannot any more |
| Agreement.ClientStateCanLag | src/sessions/session.c:281-289 | every honest pair has a run in which the server is ESTABLISHED and the client CONNECTING |
| Agreement.NoDeadlock | src/sessions/session.c:111-416 | in every reachable state that is not final some role can step |
| Agreement.StepDecreases | src/shared/packet.c:141-169 | every step lowers the count of bytes to send, bytes to take and control points ahead |
| Agreement.MaximalRunsEstablish | src/sessions/session.c:111-416 | no run has more than 714 steps, and a run that cannot be extended has both ESTABLISHED with the agreed sessions |
| Agreement.FinalsAgree | src/shared/security/crypto.c:162-184 | the final sessions have crosswise equal keys, each other's identities, and the server's id and nonce |
| ClientEnv.Listen | src/commands/client_env.c:196-237 | one attempt: the pin is loaded, the session created under it and the handshake computed; on every socket, failing or not, the file is afterwards as before or `FileAfter`, and as before if a pin was loaded |
| ClientEnv.SendPacket | src/commands/client_env.c:112-130 | the datagram of the pipeline under the next counter; the counter is used up even when sealing fails, and not when the packet is dropped |
| ClientEnv.ReceiveDatagram | src/commands/client_env.c:168-183 | exactly the packet that the inbound pipeline gives, within the buffers, for any datagram; the session is unchanged |
| ClientEnv.Receive | src/commands/client_env.c:51-80 | every way out leaves the session destroyed; on a reliable stream exactly the bytes through the first DISCONNECT are consumed |
| ClientEnv.DrainsThrough | src/commands/client_env.c:54-70 | any acceptable packets before the first DISCONNECT are read and dropped, and nothing behind it is touched |
| ClientEnv.DrainedHasNotice | src/commands/client_env.c:63-67 | a stream that is drained holds a whole frame of type 11 |
| ClientEnv.SavesExactly | src/sessions/session.c:219-233 | a key is saved exactly when none was loaded and a challenge of the right size arrives, whether or not the attempt succeeds |
| ClientEnv.OfferedExactly | src/sessions/session.c:199-227 | the key offered is the 32 bytes at offset 64 of a challenge of 144 bytes behind a SERVER_HELLO, and there is none in any other stream |
| ClientEnv.EstablishedUnderPin | src/sessions/session.c:219-239 | a session under a stored key that reaches ESTABLISHED has that key as its peer's |
| ClientEnv.PinSurvivesExactly | src/commands/client_env.c:201-210 | a stored key survives an attempt whatever the peer sends if and only if the file could be read or cannot be written |
| ClientEnv.PinIsStable | src/commands/client_env.c:196-237 | over any attempts that meet that condition a stored key never changes, and an attempt among them that can read the file and is established has it as the peer's key |
| Pinning.UnreadIsUnpinned | src/commands/client_env.c:201-210 | an attempt that cannot read the file is established with any honest server, whatever key is stored and whether or not the file can be written |
| Pinning.PeerIsPinnedExactly | src/sessions/session.c:219-239 | whatever the attempt is sent, success implies the stored key as the peer's, if and only if the file could be read or no ephemeral could be drawn |
| Pinning.FirstConnection | src/commands/client_env.c:201-212 | with no pin file, or one that is too short, an honest server is trusted: the client establishes, the file holds that server's key, and the next attempt loads it |
| Pinning.LaterConnection | src/commands/client_env.c:201-212 | with 32 bytes stored the client establishes with the server of that key, and the file stays as it is |
| Pinning.OtherConnection | src/sessions/session.c:219-224 | and whatever it is sent, on any socket, it establishes with no other key, and the file stays as it is |
| Pinning.OtherIdentityIsAccepted | src/sessions/session.c:235-269 | without a pin, on the honest server's stream with its challenge signed under another identity, the client establishes with that identity and otherwise the same session, and the honest server establishes with it |
| Pinning.IdentityNeedsPin | src/sessions/session.c:219-239 | whatever it is sent, a client that establishes has the honest server's identity if and only if it has its pin |
| SessionTable.FreeSlot | src/sessions/session_manager.c:93-94 | the lowest free slot, or the table's length |
| SessionTable.Find | src/sessions/session_manager.c:135-140 | the lowest slot with the id, whether or not ids are unique |
| SessionTable.FreeSlotBound | src/sessions/session_manager.c:90-107 | the lowest free slot is at most the number of live sessions, and there is none exactly when all slots are live |
| SessionTable.AllocationBound | src/sessions/session_manager.c:90-129 | after any sequence of add, remove and disconnect_all every live slot is below the peak number of live sessions |
| SessionTable.PeakIsLargest | src/sessions/session_manager.c:97 | the peak is reached at some point of the run and never exceeded |
| SessionTable.OctetsAreUsable | src/sessions/session_manager.h:26-29 | while that peak is at most 253, live octets are pairwise distinct and in 2..254 |
| SessionTable.BeyondTheBound | src/sessions/session_manager.c:95 | with 254 sessions one has octet 255, with 256 one has the server's octet 1 |
| SessionTable.AddKeepsUsable | src/sessions/session_manager.c:93-97 | an add keeps octets distinct and in 2..254 if and only if the lowest free slot is below 253 and no live slot is congruent to it modulo 256 |
| SessionTable.OctetAliasing | src/sessions/session_manager.c:95 | two slots share an octet exactly when they are congruent modulo 256 |
| SessionTable.FourShareAnOctet | src/sessions/session_manager.c:95 | each octet belongs to exactly four slots, 256 apart |
| SessionTable.FindIsLookup | src/sessions/session_manager.c:131-146 | on a table that represents a map, first-match search is lookup in the map |
| SessionTable.LiveIsSize | src/sessions/session_manager.c:97 | the count of occupied slots is the size of the represented map |
| SessionTable.TableRefinesMap | src/sessions/session_manager.c:59-129 | add, remove and disconnect_all on the holed table are the operations on the map, for fresh ids |
| SessionTable.RunRefinesMap | src/sessions/session_manager.c:59-146 | over any sequence of operations that adds fresh ids, the slots represent the map and as many are occupied as it is large |
| SessionManager.SessionManager.constructor | src/sessions/session_manager.c:7-29 | an empty table, no sessions counted, TUN open |
| SessionManager.SessionManager.Add | src/sessions/session_manager.c:90-107 | the session goes to the lowest free slot with that slot's octet and joins the entries, all else unchanged; fails exactly when 1024 are live |
| SessionManager.SessionManager.Get | src/sessions/session_manager.c:131-146 | the entry with the id such that no entry in a lower slot has it; null exactly when no entry has it |
| SessionManager.SessionManager.Remove | src/sessions/session_manager.c:109-129 | exactly the first match is destroyed and its slot freed; the count stays the number of occupied slots |
| SessionManager.SessionManager.DisconnectSlots | src/sessions/session_manager.c:62-81 | every slot is emptied, and every session in it is destroyed after one DISCONNECT frame on its own stream |
| SessionManager.SessionManager.DisconnectAll | src/sessions/session_manager.c:59-88 | every slot empty, zero count, TUN closed; each live stream grew by one DISCONNECT frame, or a prefix of it if the socket failed |
| SessionManager.SessionManager.Route | src/sessions/session_manager.c:285-300 | the entry that is ESTABLISHED, has a known peer and has the octet, such that no such entry is in a lower slot; null exactly when there is none |
| SessionManager.SessionManager.Accept | src/sessions/session_manager.c:31-48 | a session is returned only after a complete handshake, established and verified; nothing of the table is touched |
| SessionManager.SessionManager.AddOrDestroy | src/sessions/session_manager.c:50-54 | the session joins the table exactly when it has room, and is otherwise destroyed with the table as before |
| SessionManager.SessionManager.Connect | src/sessions/session_manager.c:31-57 | published exactly when the handshake succeeds and a slot is free: established, verified, keys of the handshake, the slot's octet; otherwise the table is as before |
| SessionManager.SessionManager.ReceiveDatagram | src/sessions/session_manager.c:200-232 | for any datagram: the lowest entry with the id in its header is matched, none below 16 bytes; only that entry changes, only in its peer address, and what is written is what the pipeline gives under its rx key |
| SessionManager.SessionManager.SendPacket | src/sessions/session_manager.c:277-316 | the target is the lowest ESTABLISHED entry with a known peer and octet raw[19]; its counter alone advances, even when sealing fails; the datagram is sealed under its tx key and addressed to its peer |
| SessionManager.SealNext | src/sessions/session_manager.c:302-313 | the session's counter advances by one modulo 2^64 and the plaintext is sealed under the value before, or not at all |
| Tunnel.Compressed | src/tunnel/tunnel_compress.c:7-36 | the output fits the capacity and is at most 5 bytes longer than the input, on every branch |
| Tunnel.Decompressed | src/tunnel/tunnel_compress.c:38-68 | the output fits the capacity for any input |
| Tunnel.CompressRoundTrip | src/tunnel/tunnel_compress.c:7-68 | on both branches a compressed packet comes back exactly when it fits the receiver's buffer and, if shrunk, is shorter than 2^32 |
| Tunnel.DroppedExactly | src/tunnel/tunnel_compress.c:29-30 | the senders drop a packet exactly when it is longer than 65499 bytes |
| Tunnel.HeaderRoundTrip | src/tunnel/tunnel_packet.c:7-46 | for all 64-bit ids and counters, peek and decode read what encode wrote, both sides build the same nonce, and a datagram is exactly 32 bytes longer than its plaintext |
| Layout.DatagramLayout | src/tunnel/tunnel_packet.c:7-25 | encode succeeds exactly up to 65504 bytes if sealing does; then bytes 0 to 7 are the id's digits, 8 to 15 the counter's, and the rest is what sealing gives under four zeros and those bytes 8 to 15 as nonce |
| Layout.DecodedExactly | src/tunnel/tunnel_packet.c:37-55 | from 32 to 65536 bytes the AEAD gets bytes 16 on, under four zeros and bytes 8 to 15 as nonce; other lengths are refused |
| Layout.PeekedExactly | src/tunnel/tunnel_packet.c:27-35 | a datagram has an id if and only if it has 16 bytes, and its digits are the first eight |
| Layout.CompressedExactly | src/tunnel/tunnel_compress.c:7-36 | 1, the length's four digits and zstd's output exactly if zstd has room, succeeds and gains a byte; else five zeros and the packet if it fits; else nothing |
| Layout.DecompressedExactly | src/tunnel/tunnel_compress.c:38-68 | exactly which inputs give something, and what: flag 0 the rest, flag 1 zstd's output of exactly the length in bytes 1 to 4, within the capacity; every other input nothing |
| Layout.InboundExactly | src/sessions/session_manager.c:221-228 | exactly which datagrams make a receiver write a packet, and which |
| Tunnel.DatagramRoundTrip | src/tunnel/tunnel_packet.c:7-55 | under the same key, what was encoded decodes |
| Tunnel.PipelineRoundTrip | src/tunnel/tunnel_compress.c:7-68 | a packet of 1 to 65499 bytes that can be sealed comes out byte for byte through compress, encode, decode, decompress; longer ones are dropped |
| Tunnel.InboundBounds | src/tunnel/tunnel_packet.h:25-27 | for any datagram, what is written has 1 to 65504 bytes |
| Tunnel.ToyCodecIsLawful | src/tunnel/tunnel_compress.c:15-22 | the laws assumed of zstd have an instance, in which some packet shrinks and some packet does not |
| Tunnel.Compress | src/tunnel/tunnel_compress.c:7-36 | computes `Compressed` in the caller's buffer and writes nothing beyond the capacity |
| Tunnel.Decompress | src/tunnel/tunnel_compress.c:38-68 | computes `Decompressed` in the caller's buffer and writes nothing beyond the capacity |
| Tunnel.Encode | src/tunnel/tunnel_packet.c:7-25 | computes `Encoded` in the caller's buffer: exactly 32 bytes more than the plaintext, nothing beyond |
| Tunnel.PeekSessionId | src/tunnel/tunnel_packet.c:27-35 | the id of any datagram of at least 16 bytes, without decrypting |
| Tunnel.Decode | src/tunnel/tunnel_packet.c:37-55 | computes `Decoded`: 32 bytes fewer than the datagram, nothing beyond |
| Tunnel.Open | src/sessions/session_manager.c:221-228 | both receivers' chain through two fixed buffers computes `Inbound` |
| System.DoL | src/commands/server_env.c:51-86 | a listener step, which may accept any connection, moves no other thread, seals and delivers nothing, and forgets no session, counter or log entry |
| System.DoU | src/sessions/session_manager.c:187-233 | a UDP listener step seals nothing and neither publishes nor frees a session |
| System.DoT | src/sessions/session_manager.c:264-317 | a TUN sender step neither publishes nor frees, and only Seal adds to the log |
| System.DoM | src/commands/server_env.c:160-169 | a main thread step moves no other thread and touches no history |
| System.DoC | src/commands/client_env.c:84-190 | a client step touches nothing of the server's |
| Threads.StepKeepsInv | src/sessions/session_manager.c:31-323 | every step of every thread, with peers of any kind, keeps: lock owner and critical section agree, a slot holds a session exactly when it is published there, references are to live sessions, nothing leaks |
| Threads.MutualExclusion | src/sessions/session_manager.c:59-317 | in every interleaving at most one thread is in a critical section, and the lock is free exactly when none is |
| Threads.OwnerReleases | src/sessions/session_manager.c:60-316 | the owner can always step and each of its steps is nearer to the release |
| Threads.OthersLeaveTheLock | src/sessions/session_manager.c:60-316 | no other thread's step takes the lock or delays its release |
| Threads.OwnerHasOneStep | src/sessions/session_manager.c:60-316 | the owner has no other step, so every path releases the lock |
| Threads.NoUseAfterFree | src/sessions/session_manager.c:212-232 | in every interleaving with peers of any kind, including the window between lookup and re-lock and the decode outside the lock, no step touches a freed session or a closed TUN, and shared fields are touched only under the lock |
| Threads.FreedOnlyWhenAlone | src/sessions/session_manager.c:44-54 | sessions are freed only before publication, or by the main thread when all other threads have exited |
| Threads.ShutdownIsComplete | src/commands/server_env.c:160-169 | when the main thread is done all threads have exited, the table is empty and every session ever accepted is freed |
| Threads.OnlyPublishedAreFound | src/sessions/session_manager.c:131-146 | a lookup finds a session exactly when one with the id is published |
| Threads.EarlyDatagramsChangeNothing | src/sessions/session_manager.c:212-214 | a datagram whose id is not published leaves everything but the listener's own position unchanged |
| Integrity.StepKeepsInv | src/sessions/session_manager.c:173-323 | every step keeps, whoever the peers are: handshake keys of every live session, counters equal to draws modulo 2^64, each log entry a routed or read packet sealed under its sender's key with its sender's next counter |
| Integrity.StepKeepsKept | src/sessions/session_manager.c:31-323 | the part of that which assumes no law of the primitives: thread safety, sessions and how their handshakes end |
| Integrity.OutcomeIsComplete | src/sessions/session.c:111-193 | whatever bytes a peer sends, a handshake that succeeds leaves an established, verified session that has used no counter |
| Integrity.HonestOutcome | src/sessions/session.c:111-416 | with an honest client the handshake succeeds, and from exactly what the server sends the client computes its final session, with the same keys crosswise and the same id, and sends exactly what the server read |
| Integrity.TunnelIntegrity | src/sessions/session_manager.c:173-323 | for every honest session beside peers of any kind, under any loss, duplication, reordering and stray datagrams: what its client writes to its TUN the server read and routed to that session, and what the server writes for it its client read |
| Integrity.NoncesRepeatExactly | src/sessions/session_manager.c:302-310 | any two datagrams sealed in a run, for any peers, share key and nonce exactly when the same side of the same session sealed both with counters equal modulo 2^64 |
| Integrity.NoNonceReuse | src/shared/security/crypto.c:193-218 | while a side of any session has drawn at most 2^64 counters, failed encodes included, no datagram it sealed has the key and nonce of any other datagram of the whole run |
| Integrity.PublishedSessions | src/sessions/session_manager.c:31-57 | every published session, whoever its peer, is established and verified, has its slot's octet and exactly the keys and id that the handshake on its stream gives; an honest client has the same crosswise |
| Integrity.PublishedKeysAreStable | src/sessions/session.c:153-190 | no step changes a published session's keys, id or state until it is freed, whoever its peer |
| Integrity.DecodeUsesHandshakeKey | src/sessions/session_manager.c:221-224 | the decode outside the lock always uses the key that the session's handshake derived, which for an honest client is the one it sends with |
| Delivery.ServerDelivers | src/sessions/session_manager.c:200-232 | a datagram made under a published session's key, taken up without interference, is written to the server's TUN as the packet it was made from, and its sender becomes the peer; if it was logged it is no forgery |
| Delivery.ClientDelivers | src/commands/client_env.c:168-183 | likewise a datagram made under the server's key, at a client that is up |
| Delivery.ClientSendMakes | src/commands/client_env.c:112-130 | every datagram that a client sends is made so, and logged |
| Delivery.ServerSealMakes | src/sessions/session_manager.c:302-316 | every datagram that the TUN sender seals is made so, logged, and goes to the recorded peer |
| Delivery.Joins | src/sessions/session_manager.c:31-57 | a connection whose handshake succeeds can be published, undisturbed, in the lowest free slot with its octet, all else unchanged |
| Delivery.StatesOnAccept | src/sessions/session.c:50-190 | in the step system a session is CONNECTING without keys, then WAIT_AUTH, then what its handshake comes to |
| Delivery.GoesDown | src/sessions/session.c:55-64 | a client that goes down is blank and DISCONNECTED |
| Delivery.DownIsFinal | src/commands/client_env.c:72-79 | and then sends and receives nothing more, and stays so |
| PeerAddress.StrayMovesPeer | src/sessions/session_manager.c:216-224 | for every published session that the lookup finds, a bare header with its id, which decrypts to nothing, from any address makes that address the peer's and changes nothing else |
| PeerAddress.PeerMovesExactly | src/sessions/session_manager.c:216-219 | a step moves the address of a session it leaves alive exactly when it is the listener's store for that session, and then to the source of the datagram in hand |
| PeerAddress.PeerIsLastSource | src/sessions/session_manager.c:200-219 | in every run, a published session has a peer exactly when a datagram of at least 16 bytes with its id was stored for it, and it is the source of the last one |
| PeerAddress.SealsToLastSource | src/sessions/session_manager.c:285-316 | in every run, what the TUN sender seals for a session is addressed to the source of the last stored datagram that carried its id |
| Sending.PacketIsSent | src/sessions/session_manager.c:277-316 | a packet for the lowest eligible session's octet, taken up undisturbed: exactly the datagram sealed under its key, id and counter is handed to the socket for its peer, or nothing if sealing fails, and the counter is used up |
| Sending.StrayPacketIsDropped | src/sessions/session_manager.c:297-300 | a packet for an octet that no established session with a known peer has leaves no trace |
| Sending.DatagramsGoToLastSource | src/sessions/session_manager.c:302-316 | in every run, every datagram handed to the socket was sealed for its session by some step, and went to the source of the last datagram then stored with that session's id |
| Conversation.ThereAndBack | src/sessions/session_manager.c:173-323 | an honest client comes up and sends a packet, the server writes exactly that one and learns the address, and a packet for the session's octet goes there and is written by the client, one datagram each way |
| Termination.NextFalls | src/commands/server_env.c:160-169 | in every state that a run reaches some step is possible that brings the server nearer to its end without new work |
| Termination.ShutdownIsAlwaysPossible | src/commands/server_env.c:160-169 | after every run, at most 1054 further steps reach the end: threads exited, sockets and TUN closed, lock free, every session freed |
| Allocation.LookupIsFind | src/sessions/session_manager.c:131-146 | the threads' lookup is first-match search in the table of ids |
| Allocation.InsertIsAdd | src/sessions/session_manager.c:90-107 | the threads' publication is Add on the table of ids: lowest free slot, its octet, and failure with nothing changed exactly when all 1024 are taken |
| Allocation.RouteIsLowest | src/sessions/session_manager.c:285-300 | the TUN sender selects a session exactly when it is published, ESTABLISHED, has a known peer and octet raw[19], and no such session is in a lower slot; and none exactly when there is none |
| Allocation.StepKeepsPacked | src/sessions/session_manager.c:31-107 | until shutdown sweeps the table, every step of every thread leaves the occupied slots contiguous from the bottom, whoever connects |
| Allocation.LiveSlotsAreLow | src/sessions/session_manager.c:90-107 | in every run, until that sweep, every live slot is below the number of live sessions |
| Allocation.UsableExactly | src/sessions/session_manager.c:90-107 | in every run until that sweep, live octets are distinct and in 2..254 if and only if at most 253 sessions are live |
| Allocation.RoutesToTheOwner | src/sessions/session_manager.c:285-295 | in every run with peers of any kind, while at most 253 sessions are live, published octets are pairwise distinct and in 2..254, and an established session with a known peer gets exactly the packets with its octet at raw[19] |
| Delivery.ConnectionsExist | src/sessions/session_manager.c:31-57 | the assumptions of a run can all be met by one that publishes two honest sessions, with any four different ephemerals |
| Shutdown.ServerOnClientStream | src/sessions/session.c:111-193 | on the honest client's whole stream the server succeeds, writes exactly the stream that the client needs, and leaves what follows unread |
| Shutdown.ClientOnServerStream | src/sessions/session.c:334-368 | on the honest server's whole stream the client succeeds, writes exactly the stream that the server needs, and leaves what follows unread |
| Shutdown.OrderlyShutdown | src/sessions/session_manager.c:64-77 | on the server's stream with the DISCONNECT that shutdown appends, the client establishes and its drain consumes the stream to its last byte |
| Shutdown.Serve | src/sessions/session_manager.c:31-57 | the manager accepts an honest client on a new socket: published, its stream consumed, exactly the client's needed stream written, every session still on its own socket |
| Shutdown.ShutDown | src/sessions/session_manager.c:59-88 | disconnecting all sends a live session's client exactly the eight bytes 0, 0, 0, 0, its version, 11 and padding, and empties the table |
| Shutdown.ConnectAndDrain | src/commands/client_env.c:51-80 | on that stream the client establishes, writes exactly what the server needed, and ends DISCONNECTED and blank with nothing unread |
| Shutdown.Lifecycle | src/commands/server_env.c:160-169 | a whole connection: accepted, shut down, and the client, on exactly the bytes that the server wrote, ends DISCONNECTED with nothing unread and the table is empty |

## Left out

- Real sockets, `select` and its timeouts, UDP payload limits, TUN ioctls, logging, idle mode, the shell and `main/`: input, output and user interface.
- The inside of libsodium and zstd: their contracts are the laws of `Suite` and `Codec`.
- Descriptor ownership and a second `session_destroy` of the same session: `session_manager_connect` and its caller both close the socket on failure.
- Session.Session.Destroy: does not model that the memset also clears the role, which nothing reads afterwards, nor the descriptors and the ip string.
- SESSION_T's crypto context and UDP tunnel are values inside the session object, not objects of their own; nothing in the source aliases them.
- A client whose connection is answered by someone other than the server: in the step system only clients at the other end of the server's own connections come up. Acceptance and the pin results cover any peer.
- Races of a client's own threads with its teardown: a client's loop body is one step of the system.
- Exactly-once or in-order delivery: `rx_nonce` is never consulted, so duplicates and reordering pass. Integrity says only that what is delivered was sent.
- SessionManager.SessionManager.Remove: is in the sequential results only, since nothing in the program calls it while threads are running.
- Zero-length packets in the compression round trip: the return value 0 also means failure, and the senders filter them out.
- Failure of `malloc` and of `fwrite`, and peers of different byte order.
- Delivery.ServerDelivers: assumes that the lookup by id finds this session, because session ids are random and nothing makes them unique.
- Identity files, configuration paths, `CONNECTION_T`, `server_core.c` and `client_core.c`: they would only add easy members.
