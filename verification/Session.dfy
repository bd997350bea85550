/** Sessions as mutable objects (src/sessions/session.c), each method proved against Handshake.dfy. */
module Session {
  import opened Bytes
  import opened Crypto
  import opened Packet
  import opened Handshake

  /** The file server_trusted.key; None when it does not exist. */
  class PinStore {
    var file: Option<seq<byte>>

    constructor (file: Option<seq<byte>>)
      ensures this.file == file
    {
      this.file := file;
    }

    /** crypto_trust_key_load; `io` says whether the path resolves and the file opens and reads. */
    method Load(io: bool) returns (key: Option<Key>)
      ensures key.Some? <==> io && file.Some? && |file.value| >= 32
      ensures key.Some? ==> key.value == file.value[..32]
      ensures key == Loaded(file, io)
    {
      if !io || file.None? || |file.value| < 32 {
        return None;
      }
      return Some(file.value[..32]);
    }

    /** crypto_trust_key_save, and the path lookup before it. */
    method Save(key: Key, io: bool)
      modifies this
      ensures file == if io then Some(key) else old(file)
    {
      if io {
        file := Some(key);
      }
    }
  }

  function Loaded(file: Option<seq<byte>>, io: bool): Option<Key> {
    if io && file.Some? && |file.value| >= 32 then Some(file.value[..32]) else None
  }

  /** What the file holds after a save that the handshake may have asked for. */
  function Saved(file: Option<seq<byte>>, pin: Option<Key>, io: bool): Option<seq<byte>> {
    if pin.Some? && io then pin else file
  }

  lemma Associative(a: seq<byte>, b: seq<byte>, c: seq<byte>)
    ensures a + b + c == a + (b + c)
  {
  }

  class Session {
    var crypto: CryptoContext
    var udp: UdpTunnel
    var sessionId: u64
    var trustedPeerKey: Key
    var sessionNonce: SessionNonce
    var authNonce: AuthNonce
    var hasTrustedPeerKey: bool
    var protocolVersion: byte
    var tunnelIpOctet: byte
    var state: State
    const role: Role
    const socket: Socket

    ghost function View(): SessionData
      reads this
    {
      SessionData(crypto, udp, sessionId, trustedPeerKey, sessionNonce, authNonce, hasTrustedPeerKey,
                  protocolVersion, tunnelIpOctet, state, role)
    }

    /** session_create, with the random session id as an argument. */
    constructor (role: Role, socket: Socket, identity: Identity, trusted: Option<Key>, id: u64)
      ensures View() == Created(role, identity, trusted, id)
      ensures this.socket == socket
      ensures crypto.publicKey == identity.public && crypto.privateKey == identity.secret
      ensures !crypto.verified && crypto.txNonce == 0 && crypto.txKey == crypto.rxKey == Zeros(32)
      ensures hasTrustedPeerKey == trusted.Some? && (trusted.Some? ==> trustedPeerKey == trusted.value)
      ensures state == Connecting && sessionId == udp.sessionId == id && !udp.peerKnown && protocolVersion == 1
      ensures this.role == role
    {
      this.role, this.socket := role, socket;
      crypto := EMPTY_CONTEXT.(publicKey := identity.public, privateKey := identity.secret);
      if trusted.Some? {
        trustedPeerKey, hasTrustedPeerKey := trusted.value, true;
      } else {
        trustedPeerKey, hasTrustedPeerKey := Zeros(32), false;
      }
      sessionNonce, authNonce := Zeros(32), Zeros(16);
      sessionId, udp := id, UdpTunnel(0, id, false);
      protocolVersion, tunnelIpOctet := CURRENT_VERSION, 0;
      state := Connecting;
    }

    /** session_destroy, without the descriptors. */
    method Destroy()
      modifies this
      ensures View() == Blank(role)
      ensures state == Disconnected && sessionId == 0 && protocolVersion == 0 && tunnelIpOctet == 0
      ensures sessionNonce == Zeros(32) && authNonce == Zeros(16) && udp == UdpTunnel(0, 0, false)
      ensures !hasTrustedPeerKey && trustedPeerKey == Zeros(32) && !crypto.verified
      ensures crypto.txKey == crypto.rxKey == crypto.publicKey == crypto.peerPublic == Zeros(32)
      ensures crypto.ephPrivate == crypto.ephPublic == Zeros(32) && crypto.privateKey == Zeros(64)
      ensures crypto.txNonce == crypto.rxNonce == 0
    {
      crypto, udp, sessionId := EMPTY_CONTEXT, UdpTunnel(0, 0, false), 0;
      trustedPeerKey, hasTrustedPeerKey := Zeros(32), false;
      sessionNonce, authNonce := Zeros(32), Zeros(16);
      protocolVersion, tunnelIpOctet := 0, 0;
      state := Disconnected;
    }

    /** session_authenticate_server. */
    method AuthenticateServer(suite: Suite, draws: Draws) returns (ok: bool)
      modifies this, socket`outbox
      ensures var (d, request) := PrepareChallenge(suite, draws, old(View()));
              && (ok ==> request.Some? && View() == d.(state := WaitAuth)
                         && socket.outbox == old(socket.outbox) + FrameBytes(request.value, draws.pad2))
              && (socket.reliable ==> (ok <==> request.Some?))
              && (!ok ==> View() == d)
              && old(socket.outbox) <= socket.outbox
              && (request.None? ==> socket.outbox == old(socket.outbox))
              && (request.Some? ==> socket.outbox <= old(socket.outbox) + FrameBytes(request.value, draws.pad2))
    {
      authNonce := draws.authNonce;
      if draws.ephemeral.None? {
        return false;
      }
      crypto := crypto.(ephPrivate := draws.ephemeral.value, ephPublic := suite.ephPublic(draws.ephemeral.value));
      var signed := suite.sign(crypto.privateKey, authNonce + crypto.ephPublic);
      if signed.None? {
        return false;
      }
      var challenge := Challenge(signed.value, crypto.publicKey, crypto.ephPublic, authNonce);
      ok := PacketSend(socket, Packet(protocolVersion, AUTH_REQUEST, ChallengeBytes(challenge)), draws.pad2);
      if ok {
        state := WaitAuth;
      }
    }

    /** session_verify_client. */
    method VerifyClient(suite: Suite) returns (ok: bool)
      modifies this, socket`inbox
      ensures var r := ParseFrame(old(socket.inbox));
              && (ok ==> r.Parsed? && VerifyResponse(suite, old(View()), r.packet) == (View(), true)
                         && socket.inbox == old(socket.inbox)[r.size..])
              && (!ok && socket.reliable && r.Parsed? ==>
                    VerifyResponse(suite, old(View()), r.packet) == (View(), false))
              && (!ok && socket.reliable && !r.Parsed? ==> View() == old(View()))
              && (socket.reliable ==>
                    socket.inbox == if r.Parsed? then old(socket.inbox)[r.size..] else Refused(old(socket.inbox)))
              && IsSuffix(socket.inbox, old(socket.inbox))
              && View().state == old(View()).state
    {
      var packet;
      ok, packet := PacketReceive(socket);
      if !ok {
        return;
      }
      if packet.typ != AUTH_RESPONSE || |packet.payload| != RESPONSE_SIZE {
        return false;
      }
      var response := ReadResponse(packet.payload);
      crypto := crypto.(peerPublic := response.publicKey);
      if !suite.verify(response.publicKey, authNonce + response.ephPublic, response.signature) {
        return false;
      }
      var derived := DeriveServerKeys(suite, crypto, response.ephPublic);
      if derived.None? {
        return false;
      }
      crypto := derived.value.(verified := true);
    }

    /**
     * The call did what r says: always when it succeeded, and on a reliable socket also when it failed. It
     * succeeded exactly when the session is now established. On a failing socket it has sent a prefix of what r
     * says and taken part of the stream.
     */
    ghost predicate Follows(r: Result, ok: bool, inbox: seq<byte>, outbox: seq<byte>)
      reads this, socket
    {
      && (ok <==> state == Established)
      && (ok ==> r.ok)
      && (ok || socket.reliable ==>
            ok == r.ok && View() == r.data && socket.inbox == r.rest && socket.outbox == outbox + r.sent)
      && IsSuffix(socket.inbox, inbox)
      && outbox <= socket.outbox <= outbox + r.sent
    }

    /** A call that goes on after sending f, with `mid` still to read, follows what it then does after f. */
    lemma FollowsOn(r: Result, q: Result, ok: bool, inbox: seq<byte>, mid: seq<byte>, outbox: seq<byte>, f: seq<byte>)
      requires Follows(q, ok, mid, outbox + f) && IsSuffix(mid, inbox)
      requires r == q.(sent := f + q.sent, pin := r.pin)
      ensures Follows(r, ok, inbox, outbox)
    {
      Associative(outbox, f, q.sent);
    }

    /** session_server_connect, from its call of session_verify_client. */
    method FinishServer(suite: Suite, draws: Draws) returns (ok: bool)
      requires state != Established
      modifies this, socket
      ensures var r := ServerFinish(suite, draws, old(View()), old(socket.inbox));
              Follows(r, ok, old(socket.inbox), old(socket.outbox))
    {
      ok := VerifyClient(suite);
      if !ok {
        return;
      }
      sessionNonce := draws.sessionNonce;
      var success := Success(sessionNonce, sessionId);
      ok := PacketSend(socket, Packet(protocolVersion, AUTH_SUCCESS, SuccessBytes(success)), draws.pad3);
      if ok {
        state := Established;
      }
    }

    /** session_server_connect, from its call of session_authenticate_server. */
    method AuthenticateBoth(suite: Suite, draws: Draws) returns (ok: bool)
      requires state != Established
      modifies this, socket
      ensures var r := ServerAuthenticate(suite, draws, old(View()), old(socket.inbox));
              Follows(r, ok, old(socket.inbox), old(socket.outbox))
    {
      ok := AuthenticateServer(suite, draws);
      if !ok {
        return;
      }
      ghost var request := PrepareChallenge(suite, draws, old(View())).1.value;
      ghost var q := ServerFinish(suite, draws, View(), socket.inbox);
      ok := FinishServer(suite, draws);
      FollowsOn(ServerAuthenticate(suite, draws, old(View()), old(socket.inbox)), q, ok, old(socket.inbox),
                old(socket.inbox), old(socket.outbox), FrameBytes(request, draws.pad2));
    }

    /** session_server_connect. */
    method ServerConnect(suite: Suite, draws: Draws) returns (ok: bool)
      requires state != Established
      modifies this, socket
      ensures var r := ServerRun(suite, draws, old(View()), old(socket.inbox));
              Follows(r, ok, old(socket.inbox), old(socket.outbox))
    {
      var packet;
      ok, packet := PacketReceive(socket);
      if !ok {
        return;
      }
      if packet.typ != CLIENT_HELLO || packet.version != CURRENT_VERSION {
        return false;
      }
      var hello := Packet(protocolVersion, SERVER_HELLO, []);
      ok := PacketSend(socket, hello, draws.pad1);
      if !ok {
        return;
      }
      state := WaitAuth;
      ghost var mid := socket.inbox;
      ghost var q := ServerAuthenticate(suite, draws, View(), mid);
      ok := AuthenticateBoth(suite, draws);
      FollowsOn(ServerRun(suite, draws, old(View()), old(socket.inbox)), q, ok, old(socket.inbox),
                mid, old(socket.outbox), FrameBytes(hello, draws.pad1));
    }

    /** session_authenticate_client, between its first receive and its send. */
    method AnswerRequest(suite: Suite, draws: Draws, store: PinStore, saveIo: bool, packet: Packet)
      returns (reply: Option<Packet>)
      modifies this, store
      ensures var a := AnswerChallenge(suite, draws, old(View()), packet);
              View() == a.data && reply == a.reply && store.file == Saved(old(store.file), a.pin, saveIo)
    {
      if packet.typ != AUTH_REQUEST || |packet.payload| != CHALLENGE_SIZE {
        return None;
      }
      var challenge := ReadChallenge(packet.payload);
      if hasTrustedPeerKey {
        if challenge.publicKey != trustedPeerKey {
          return None;
        }
      } else {
        trustedPeerKey := challenge.publicKey;
        hasTrustedPeerKey := true;
        store.Save(challenge.publicKey, saveIo);
      }
      crypto := crypto.(peerPublic := challenge.publicKey);
      if !suite.verify(challenge.publicKey, challenge.nonce + challenge.ephPublic, challenge.signature) {
        return None;
      }
      if draws.ephemeral.None? {
        return None;
      }
      crypto := crypto.(ephPrivate := draws.ephemeral.value, ephPublic := suite.ephPublic(draws.ephemeral.value));
      var derived := DeriveClientKeys(suite, crypto, challenge.ephPublic);
      if derived.None? {
        return None;
      }
      crypto := derived.value;
      var signed := suite.sign(crypto.privateKey, challenge.nonce + crypto.ephPublic);
      if signed.None? {
        return None;
      }
      var response := Response(signed.value, crypto.publicKey, crypto.ephPublic);
      return Some(Packet(protocolVersion, AUTH_RESPONSE, ResponseBytes(response)));
    }

    /** session_authenticate_client, from its second receive. */
    method FinishClient() returns (ok: bool)
      requires state != Established
      modifies this, socket`inbox
      ensures Follows(ClientFinish(old(View()), old(socket.inbox)), ok, old(socket.inbox), old(socket.outbox))
    {
      var result;
      ok, result := PacketReceive(socket);
      if !ok {
        return;
      }
      if result.typ != AUTH_SUCCESS || |result.payload| != SUCCESS_SIZE {
        return false;
      }
      var success := ReadSuccess(result.payload);
      sessionId := success.sessionId;
      sessionNonce := success.sessionNonce;
      state := Established;
    }

    /** session_authenticate_client, from the end of its first receive. */
    method Reply(suite: Suite, draws: Draws, store: PinStore, saveIo: bool, packet: Packet) returns (ok: bool)
      requires state != Established
      modifies this, socket, store
      ensures var r := ClientReply(suite, draws, old(View()), packet, old(socket.inbox));
              && Follows(r, ok, old(socket.inbox), old(socket.outbox))
              && store.file == Saved(old(store.file), r.pin, saveIo)
    {
      var reply := AnswerRequest(suite, draws, store, saveIo, packet);
      if reply.None? {
        return false;
      }
      ok := Respond(reply.value, draws.pad2);
    }

    /** session_authenticate_client, from its send. */
    method Respond(reply: Packet, pad: Padding) returns (ok: bool)
      requires state != Established && |reply.payload| <= MAX_PACKET_SIZE
      modifies this, socket
      ensures var q := ClientFinish(old(View()).(state := WaitAuth), old(socket.inbox));
              Follows(q.(sent := FrameBytes(reply, pad) + q.sent), ok, old(socket.inbox), old(socket.outbox))
    {
      ok := PacketSend(socket, reply, pad);
      if !ok {
        return;
      }
      state := WaitAuth;
      ghost var q := ClientFinish(View(), socket.inbox);
      ok := FinishClient();
      FollowsOn(q.(sent := FrameBytes(reply, pad) + q.sent), q, ok, old(socket.inbox),
                old(socket.inbox), old(socket.outbox), FrameBytes(reply, pad));
    }

    /** session_authenticate_client. */
    method AuthenticateClient(suite: Suite, draws: Draws, store: PinStore, saveIo: bool) returns (ok: bool)
      requires state != Established
      modifies this, socket, store
      ensures var r := ClientAuthenticate(suite, draws, old(View()), old(socket.inbox));
              && Follows(r, ok, old(socket.inbox), old(socket.outbox))
              && (ok || socket.reliable ==> store.file == Saved(old(store.file), r.pin, saveIo))
              && (store.file == old(store.file) || store.file == Saved(old(store.file), r.pin, saveIo))
      ensures old(hasTrustedPeerKey) ==> store.file == old(store.file)
    {
      var packet;
      ok, packet := PacketReceive(socket);
      if !ok {
        return;
      }
      ok := Reply(suite, draws, store, saveIo, packet);
    }

    /** session_client_connect. */
    method ClientConnect(suite: Suite, draws: Draws, store: PinStore, saveIo: bool) returns (ok: bool)
      requires state != Established
      modifies this, socket, store
      ensures var r := ClientRun(suite, draws, old(View()), old(socket.inbox));
              && Follows(r, ok, old(socket.inbox), old(socket.outbox))
              && (ok || socket.reliable ==> store.file == Saved(old(store.file), r.pin, saveIo))
              && (store.file == old(store.file) || store.file == Saved(old(store.file), r.pin, saveIo))
      ensures old(hasTrustedPeerKey) ==> store.file == old(store.file)
    {
      ok := PacketSend(socket, Packet(CURRENT_VERSION, CLIENT_HELLO, []), draws.pad1);
      if !ok {
        return;
      }
      var response;
      ok, response := PacketReceive(socket);
      if !ok {
        return;
      }
      if response.typ != SERVER_HELLO || response.version != CURRENT_VERSION {
        return false;
      }
      ghost var mid := socket.inbox;
      ghost var q := ClientAuthenticate(suite, draws, View(), mid);
      ok := AuthenticateClient(suite, draws, store, saveIo);
      FollowsOn(ClientRun(suite, draws, old(View()), old(socket.inbox)), q, ok, old(socket.inbox),
                mid, old(socket.outbox), FrameBytes(Packet(CURRENT_VERSION, CLIENT_HELLO, []), draws.pad1));
    }
  }
}
