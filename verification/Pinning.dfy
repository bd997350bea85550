/**
 * How far the pinned key binds the client: an attempt that cannot read the pin file takes whatever key it is
 * offered, even where it cannot store it.
 */
module Pinning {
  import opened Bytes
  import opened Crypto
  import opened Packet
  import opened Handshake
  import opened Protocol
  import opened ClientEnv
  import Acceptance
  import opened Session
  import Shutdown

  /** An attempt that cannot read the file is the attempt of a client that has none. */
  lemma UnreadIsUnpinned(x: Setup, file: Option<seq<byte>>, saveIo: bool)
    requires x.Honest() && x.trusted.None?
    ensures var a := Attempt(x.clientDraws, x.clientId, Total(x, Server), false, saveIo);
            var r := Attempted(x.suite, x.client, file, a);
            r.ok && r.data.state == Established && r.data.crypto.peerPublic == x.server.public
  {
    Shutdown.ClientOnServerStream(x, []);
    assert Total(x, Server) + [] == Total(x, Server);
  }

  /**
   * Whatever it is sent, an attempt that succeeds has the stored key as its peer's, exactly when it could read
   * the file, or could not draw an ephemeral key and so never succeeds. The server of the given secret is the
   * one that takes the stored key's place.
   */
  lemma PeerIsPinnedExactly(suite: Suite, identity: Identity, file: Option<seq<byte>>, draws: Draws, id: u64,
                            loadIo: bool, saveIo: bool, secret: Secret)
    requires suite.Lawful() && identity.public == suite.identityPublic(identity.secret)
    requires Pin(file).Some? && suite.identityPublic(secret) != Pin(file).value
    ensures (forall s :: var r := Attempted(suite, identity, file, Attempt(draws, id, s, loadIo, saveIo));
                         r.ok ==> Some(r.data.crypto.peerPublic) == Pin(file))
            <==> loadIo || draws.ephemeral.None?
  {
    if loadIo || draws.ephemeral.None? {
      forall s ensures var r := Attempted(suite, identity, file, Attempt(draws, id, s, loadIo, saveIo));
                       r.ok ==> Some(r.data.crypto.peerPublic) == Pin(file)
      {
        Binds(suite, identity, file, Attempt(draws, id, s, loadIo, saveIo));
      }
    } else {
      var server := Identity(suite.identityPublic(secret), secret);
      var other := Draws(Some(Zeros(32)), Zeros(16), Zeros(32), [0, 0], [0, 0], [0, 0]);
      var x := Setup(suite, identity, server, None, id, 0, draws, other);
      UnreadIsUnpinned(x, file, saveIo);
      var r := Attempted(suite, identity, file, Attempt(draws, id, Total(x, Server), loadIo, saveIo));
      assert r.ok && Some(r.data.crypto.peerPublic) != Pin(file);
    }
  }

  lemma Binds(suite: Suite, identity: Identity, file: Option<seq<byte>>, a: Attempt)
    requires Pin(file).Some? && (a.loadIo || a.draws.ephemeral.None?)
    ensures var r := Attempted(suite, identity, file, a); r.ok ==> Some(r.data.crypto.peerPublic) == Pin(file)
  {
    if a.loadIo {
      EstablishedUnderPin(suite, identity, file, a);
    } else if Attempted(suite, identity, file, a).ok {
      Acceptance.ClientHolds(suite, a.draws, Created(Client, identity, Loaded(file, false), a.id), a.stream);
    }
  }

  // ---- the first connection, and later ones ----

  /**
   * Without a key on disk, be it that there is no file or that it is too short, the client trusts the honest
   * server that it first connects to, and the next attempt loads that server's key.
   */
  method FirstConnection(x: Setup, store: PinStore, socket: Socket)
    returns (ok: bool, client: Session, next: Option<Key>)
    requires x.Honest() && x.trusted.None? && (store.file.None? || |store.file.value| < 32)
    requires socket.reliable && socket.inbox == Total(x, Server)
    modifies socket, store
    ensures ok && client.state == Established && client.crypto.peerPublic == x.server.public
    ensures store.file == Some(x.server.public) && next == Some(x.server.public)
  {
    ok, client := Connects(x, store, socket);
    next := store.Load(true);
    assert x.server.public[..32] == x.server.public;
  }

  /** With a file of at least 32 bytes, the client establishes with the server of those, and the file stays. */
  method LaterConnection(x: Setup, store: PinStore, socket: Socket) returns (ok: bool, client: Session)
    requires x.Honest() && store.file.Some? && |store.file.value| >= 32
    requires x.trusted == Some(x.server.public) && store.file.value[..32] == x.server.public
    requires socket.reliable && socket.inbox == Total(x, Server)
    modifies socket, store
    ensures ok && client.state == Established && client.crypto.peerPublic == x.server.public
    ensures store.file == old(store.file)
  {
    ok, client := Connects(x, store, socket);
  }

  /** And it refuses whoever else the stream is from. */
  method OtherConnection(suite: Suite, draws: Draws, identity: Identity, id: u64, store: PinStore, socket: Socket)
    returns (ok: bool, client: Session)
    requires store.file.Some? && |store.file.value| >= 32
    modifies socket, store
    ensures ok ==> client.state == Established && client.crypto.peerPublic == old(store.file.value[..32])
    ensures store.file == old(store.file)
  {
    EstablishedUnderPin(suite, identity, store.file, Attempt(draws, id, socket.inbox, true, true));
    ok, client := Listen(suite, draws, socket, identity, id, store, true, true);
  }

  method Connects(x: Setup, store: PinStore, socket: Socket) returns (ok: bool, client: Session)
    requires x.Honest() && Loaded(store.file, true) == x.trusted
    requires socket.reliable && socket.inbox == Total(x, Server)
    modifies socket, store
    ensures ok && client.state == Established && client.crypto.peerPublic == x.server.public
    ensures store.file == if x.trusted.None? then Some(x.server.public) else old(store.file)
  {
    ClientSucceeds(x, store.file);
    ok, client := Listen(x.suite, x.clientDraws, socket, x.client, x.clientId, store, true, true);
  }

  lemma ClientSucceeds(x: Setup, file: Option<seq<byte>>)
    requires x.Honest() && Loaded(file, true) == x.trusted
    ensures var a := Attempt(x.clientDraws, x.clientId, Total(x, Server), true, true);
            var r := Attempted(x.suite, x.client, file, a);
            && r.ok && r.data.state == Established && r.data.crypto.peerPublic == x.server.public
            && FileAfter(x.suite, x.client, file, a) == if x.trusted.None? then Some(x.server.public) else file
  {
    Shutdown.ClientOnServerStream(x, []);
    assert Total(x, Server) + [] == Total(x, Server);
  }

  // ---- whose identity the client ends up with ----

  /** The honest server's challenge, under the identity of another secret. */
  function OtherRequest(x: Setup, other: Secret): Packet {
    Packet(CURRENT_VERSION, AUTH_REQUEST, ChallengeBytes(OtherChallenge(x, other)))
  }

  function OtherChallenge(x: Setup, other: Secret): Challenge {
    Challenge(Signed(x, other, ServerEph(x)), x.suite.identityPublic(other), ServerEph(x), x.serverDraws.authNonce)
  }

  /** The honest server's stream with that challenge in place of its own. */
  function OtherStream(x: Setup, other: Secret): seq<byte> {
    F2(x) + FrameBytes(OtherRequest(x, other), x.serverDraws.pad2) + F5(x)
  }

  /** What the client then holds: all that it would hold otherwise, but the other identity. */
  function OtherFinal(x: Setup, other: Secret): SessionData {
    var d := ClientFinal(x);
    var public := x.suite.identityPublic(other);
    d.(trustedPeerKey := public, crypto := d.crypto.(peerPublic := public))
  }

  lemma OtherIsAnswered(x: Setup, other: Secret)
    requires x.Honest() && x.trusted.None?
    ensures var a := AnswerChallenge(x.suite, x.clientDraws, ClientFresh(x), OtherRequest(x, other));
            a.reply == Some(ResponsePacket(x)) && a.data == OtherFinal(x, other).(
                                                             sessionId := x.clientId, sessionNonce := Zeros(32),
                                                             state := Connecting)
  {
    StructsReadBack(OtherChallenge(x, other), Response(Zeros(64), Zeros(32), Zeros(32)), Success(Zeros(32), 0));
  }

  lemma OtherSucceeds(x: Setup, other: Secret)
    ensures var d := OtherFinal(x, other).(sessionId := x.clientId, sessionNonce := Zeros(32), state := WaitAuth);
            AcceptSuccess(d, FinalPacket(x)) == (OtherFinal(x, other), true)
  {
    StructsReadBack(Challenge(Zeros(64), Zeros(32), Zeros(32), Zeros(16)), Response(Zeros(64), Zeros(32), Zeros(32)),
                    Success(x.serverDraws.sessionNonce, x.serverId));
  }

  /**
   * Without a pin, session keys and id agree and yet the identity may not: the client's signature covers neither
   * its own nor the server's. On the honest server's stream with a challenge signed under another identity the
   * client is established with that identity, and writes what makes the honest server establish with it.
   */
  lemma OtherIdentityIsAccepted(x: Setup, other: Secret)
    requires x.Honest() && x.trusted.None?
    ensures var r := ClientRun(x.suite, x.clientDraws, ClientFresh(x), OtherStream(x, other));
            && r.ok && r.data == OtherFinal(x, other) && r.sent == Total(x, Client)
            && ServerRun(x.suite, x.serverDraws, ServerFresh(x), r.sent).data == ServerFinal(x)
  {
    var k := OtherRequest(x, other);
    var s := OtherStream(x, other);
    var s2, s3 := FrameBytes(k, x.serverDraws.pad2) + F5(x), F5(x);
    assert s == F2(x) + s2;
    Shutdown.NextFrame(HelloPacket(Server), x.serverDraws.pad1, s2, s);
    Shutdown.NextFrame(k, x.serverDraws.pad2, s3, s2);
    OtherReplies(x, other, s3);
    Shutdown.ServerOnClientStream(x, []);
    assert Total(x, Client) + [] == Total(x, Client);
  }

  lemma OtherReplies(x: Setup, other: Secret, s: seq<byte>)
    requires x.Honest() && x.trusted.None? && s == F5(x)
    ensures var r := ClientReply(x.suite, x.clientDraws, ClientFresh(x), OtherRequest(x, other), s);
            r.ok && r.data == OtherFinal(x, other) && r.sent == F4(x)
  {
    OtherIsAnswered(x, other);
    OtherSucceeds(x, other);
    assert s == F5(x) + [];
    Shutdown.NextFrame(FinalPacket(x), x.serverDraws.pad3, [], s);
  }

  /** Whatever it is sent, a client that establishes has the honest server's identity if and only if it has its pin. */
  lemma IdentityNeedsPin(x: Setup, other: Secret)
    requires x.Honest() && x.suite.identityPublic(other) != x.server.public
    ensures (forall s :: var r := ClientRun(x.suite, x.clientDraws, ClientFresh(x), s);
                         r.ok ==> r.data.crypto.peerPublic == x.server.public)
            <==> x.trusted.Some?
  {
    if x.trusted.Some? {
      forall s ensures var r := ClientRun(x.suite, x.clientDraws, ClientFresh(x), s);
                       r.ok ==> r.data.crypto.peerPublic == x.server.public
      {
        if ClientRun(x.suite, x.clientDraws, ClientFresh(x), s).ok {
          Acceptance.ClientHolds(x.suite, x.clientDraws, ClientFresh(x), s);
        }
      }
    } else {
      OtherIdentityIsAccepted(x, other);
      assert OtherFinal(x, other).crypto.peerPublic == x.suite.identityPublic(other);
    }
  }
}
