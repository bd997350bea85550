/**
 * The handshake (src/sessions/session.c) as functions on a session record: what each role does when a
 * packet has arrived and when its bytes have all been handed over. The methods of Session.dfy and the
 * two-party system of Protocol.dfy are both built from these.
 */
module Handshake {
  import opened Bytes
  import opened Crypto
  import opened Packet

  type AuthNonce = s: seq<byte> | |s| == 16 witness seq(16, _ => 0)
  type SessionNonce = s: seq<byte> | |s| == 32 witness seq(32, _ => 0)
  type Address = nat

  const CHALLENGE_SIZE: nat := 144
  const RESPONSE_SIZE: nat := 128
  const SUCCESS_SIZE: nat := 40

  // ---- the structs of src/shared/auth.h, as bytes ----

  datatype Challenge = Challenge(signature: Signature, publicKey: Key, ephPublic: Key, nonce: AuthNonce)
  datatype Response = Response(signature: Signature, publicKey: Key, ephPublic: Key)
  datatype Success = Success(sessionNonce: SessionNonce, sessionId: u64)

  function ChallengeBytes(c: Challenge): (b: seq<byte>)
    ensures |b| == CHALLENGE_SIZE
  {
    c.signature + c.publicKey + c.ephPublic + c.nonce
  }

  function ReadChallenge(b: seq<byte>): Challenge
    requires |b| == CHALLENGE_SIZE
  {
    Challenge(b[..64], b[64..96], b[96..128], b[128..])
  }

  function ResponseBytes(r: Response): (b: seq<byte>)
    ensures |b| == RESPONSE_SIZE
  {
    r.signature + r.publicKey + r.ephPublic
  }

  function ReadResponse(b: seq<byte>): Response
    requires |b| == RESPONSE_SIZE
  {
    Response(b[..64], b[64..96], b[96..])
  }

  function SuccessBytes(s: Success): (b: seq<byte>)
    ensures |b| == SUCCESS_SIZE
  {
    s.sessionNonce + HostOrder(s.sessionId, 8)
  }

  function ReadSuccess(b: seq<byte>): Success
    requires |b| == SUCCESS_SIZE
  {
    Widths();
    assert FromHostOrder(b[32..]) < Pow256(8);
    Success(b[..32], FromHostOrder(b[32..]))
  }

  lemma StructsReadBack(c: Challenge, r: Response, s: Success)
    ensures ReadChallenge(ChallengeBytes(c)) == c
    ensures ReadResponse(ResponseBytes(r)) == r
    ensures ReadSuccess(SuccessBytes(s)) == s
  {
    var b := ChallengeBytes(c);
    assert b[..64] == c.signature && b[64..96] == c.publicKey && b[96..128] == c.ephPublic && b[128..] == c.nonce;
    var d := ResponseBytes(r);
    assert d[..64] == r.signature && d[64..96] == r.publicKey && d[96..] == r.ephPublic;
    var e := SuccessBytes(s);
    assert e[..32] == s.sessionNonce && e[32..] == HostOrder(s.sessionId, 8);
    ReadBackHost64(s.sessionId);
  }

  // ---- the session record ----

  datatype State = Connecting | WaitAuth | Authenticated | Established | Disconnected
  datatype Role = Server | Client
  datatype Identity = Identity(public: Key, secret: Secret)
  datatype UdpTunnel = UdpTunnel(peerAddr: Address, sessionId: u64, peerKnown: bool)

  /** SESSION_T, without its socket. */
  datatype SessionData = SessionData(
    crypto: CryptoContext,
    udp: UdpTunnel,
    sessionId: u64,
    trustedPeerKey: Key,
    sessionNonce: SessionNonce,
    authNonce: AuthNonce,
    hasTrustedPeerKey: bool,
    protocolVersion: byte,
    tunnelIpOctet: byte,
    state: State,
    role: Role)

  /** session_init, which is also what session_destroy leaves behind. */
  function Blank(role: Role): SessionData {
    SessionData(EMPTY_CONTEXT, UdpTunnel(0, 0, false), 0, Zeros(32), Zeros(32), Zeros(16),
                false, 0, 0, Disconnected, role)
  }

  /** session_create. */
  function Created(role: Role, identity: Identity, trusted: Option<Key>, id: u64): SessionData {
    Blank(role).(
    crypto := EMPTY_CONTEXT.(publicKey := identity.public, privateKey := identity.secret),
    trustedPeerKey := if trusted.Some? then trusted.value else Zeros(32),
    hasTrustedPeerKey := trusted.Some?,
    sessionId := id,
    udp := UdpTunnel(0, id, false),
    protocolVersion := CURRENT_VERSION,
    state := Connecting)
  }

  /** What one attempt draws from the environment; None when ephemeral key generation fails. */
  datatype Draws = Draws(
    ephemeral: Option<Key>,
    authNonce: AuthNonce,
    sessionNonce: SessionNonce,
    pad1: Padding,
    pad2: Padding,
    pad3: Padding)

  // ---- what each function of session.c computes between two socket calls ----

  /** session_authenticate_server, up to its send: the session and, unless it fails, the request. */
  function PrepareChallenge(suite: Suite, draws: Draws, d: SessionData): (SessionData, Option<Packet>) {
    var d1 := d.(authNonce := draws.authNonce);
    match draws.ephemeral
    case None => (d1, None)
    case Some(eph) =>
      var d2 := d1.(crypto := d1.crypto.(ephPrivate := eph, ephPublic := suite.ephPublic(eph)));
      match suite.sign(d2.crypto.privateKey, d2.authNonce + d2.crypto.ephPublic)
      case None => (d2, None)
      case Some(sig) =>
        var c := Challenge(sig, d2.crypto.publicKey, d2.crypto.ephPublic, d2.authNonce);
        (d2, Some(Packet(d.protocolVersion, AUTH_REQUEST, ChallengeBytes(c))))
  }

  /** session_verify_client, after its receive. */
  function VerifyResponse(suite: Suite, d: SessionData, p: Packet): (SessionData, bool) {
    if p.typ != AUTH_RESPONSE || |p.payload| != RESPONSE_SIZE then (d, false)
    else
      var r := ReadResponse(p.payload);
      var d1 := d.(crypto := d.crypto.(peerPublic := r.publicKey));
      if !suite.verify(r.publicKey, d1.authNonce + r.ephPublic, r.signature) then (d1, false)
      else match DeriveServerKeys(suite, d1.crypto, r.ephPublic)
           case None => (d1, false)
           case Some(ctx) => (d1.(crypto := ctx.(verified := true)), true)
  }

  function SuccessPacket(d: SessionData): Packet {
    Packet(d.protocolVersion, AUTH_SUCCESS, SuccessBytes(Success(d.sessionNonce, d.sessionId)))
  }

  /** The session, the reply unless the function fails, and the key given to crypto_trust_key_save if any. */
  datatype Answer = Answer(data: SessionData, reply: Option<Packet>, pin: Option<Key>)

  /** session_authenticate_client, from its first receive to its send. */
  function AnswerChallenge(suite: Suite, draws: Draws, d: SessionData, p: Packet): Answer {
    if p.typ != AUTH_REQUEST || |p.payload| != CHALLENGE_SIZE then Answer(d, None, None)
    else
      var c := ReadChallenge(p.payload);
      if d.hasTrustedPeerKey && c.publicKey != d.trustedPeerKey then Answer(d, None, None)
      else
        var pin := if d.hasTrustedPeerKey then None else Some(c.publicKey);
        var d1 := d.(trustedPeerKey := c.publicKey, hasTrustedPeerKey := true,
                     crypto := d.crypto.(peerPublic := c.publicKey));
        if !suite.verify(c.publicKey, c.nonce + c.ephPublic, c.signature) then Answer(d1, None, pin)
        else match draws.ephemeral
             case None => Answer(d1, None, pin)
             case Some(eph) =>
               var d2 := d1.(crypto := d1.crypto.(ephPrivate := eph, ephPublic := suite.ephPublic(eph)));
               match DeriveClientKeys(suite, d2.crypto, c.ephPublic)
               case None => Answer(d2, None, pin)
               case Some(ctx) =>
                 var d3 := d2.(crypto := ctx);
                 match suite.sign(d3.crypto.privateKey, c.nonce + d3.crypto.ephPublic)
                 case None => Answer(d3, None, pin)
                 case Some(sig) =>
                   var r := Response(sig, d3.crypto.publicKey, d3.crypto.ephPublic);
                   Answer(d3, Some(Packet(d.protocolVersion, AUTH_RESPONSE, ResponseBytes(r))), pin)
  }

  /** session_authenticate_client, after its second receive. */
  function AcceptSuccess(d: SessionData, p: Packet): (SessionData, bool) {
    if p.typ != AUTH_SUCCESS || |p.payload| != SUCCESS_SIZE then (d, false)
    else
      var s := ReadSuccess(p.payload);
      (d.(sessionId := s.sessionId, sessionNonce := s.sessionNonce, state := Established), true)
  }

  // ---- each role on the whole of its input stream ----

  /** `ok` for a zero return; the bytes sent; what is left of the stream; the key saved, if any. */
  datatype Result = Result(ok: bool, data: SessionData, sent: seq<byte>, rest: seq<byte>, pin: Option<Key>)

  /** session_server_connect on the stream s. */
  function ServerRun(suite: Suite, draws: Draws, d: SessionData, s: seq<byte>): Result {
    var r := ParseFrame(s);
    if !r.Parsed? then Result(false, d, [], Refused(s), None)
    else if r.packet.typ != CLIENT_HELLO || r.packet.version != CURRENT_VERSION then
      Result(false, d, [], s[r.size..], None)
    else
      var q := ServerAuthenticate(suite, draws, d.(state := WaitAuth), s[r.size..]);
      q.(sent := FrameBytes(Packet(d.protocolVersion, SERVER_HELLO, []), draws.pad1) + q.sent)
  }

  /** session_server_connect, from its call of session_authenticate_server. */
  function ServerAuthenticate(suite: Suite, draws: Draws, d: SessionData, s: seq<byte>): Result {
    var (d1, request) := PrepareChallenge(suite, draws, d);
    if request.None? then Result(false, d1, [], s, None)
    else
      var q := ServerFinish(suite, draws, d1.(state := WaitAuth), s);
      q.(sent := FrameBytes(request.value, draws.pad2) + q.sent)
  }

  /** session_server_connect, from its call of session_verify_client. */
  function ServerFinish(suite: Suite, draws: Draws, d: SessionData, s: seq<byte>): Result {
    var r := ParseFrame(s);
    if !r.Parsed? then Result(false, d, [], Refused(s), None)
    else
      var (d1, verified) := VerifyResponse(suite, d, r.packet);
      if !verified then Result(false, d1, [], s[r.size..], None)
      else
        var d2 := d1.(sessionNonce := draws.sessionNonce);
        Result(true, d2.(state := Established), FrameBytes(SuccessPacket(d2), draws.pad3), s[r.size..], None)
  }

  /** session_client_connect on the stream s. */
  function ClientRun(suite: Suite, draws: Draws, d: SessionData, s: seq<byte>): Result {
    var r := ParseFrame(s);
    var hello := FrameBytes(Packet(CURRENT_VERSION, CLIENT_HELLO, []), draws.pad1);
    if !r.Parsed? then Result(false, d, hello, Refused(s), None)
    else if r.packet.typ != SERVER_HELLO || r.packet.version != CURRENT_VERSION then
      Result(false, d, hello, s[r.size..], None)
    else
      var q := ClientAuthenticate(suite, draws, d, s[r.size..]);
      q.(sent := hello + q.sent)
  }

  /** session_authenticate_client on the stream s. */
  function ClientAuthenticate(suite: Suite, draws: Draws, d: SessionData, s: seq<byte>): Result {
    var r := ParseFrame(s);
    if !r.Parsed? then Result(false, d, [], Refused(s), None)
    else ClientReply(suite, draws, d, r.packet, s[r.size..])
  }

  /** session_authenticate_client, from the end of its first receive. */
  function ClientReply(suite: Suite, draws: Draws, d: SessionData, p: Packet, s: seq<byte>): Result {
    var a := AnswerChallenge(suite, draws, d, p);
    if a.reply.None? then Result(false, a.data, [], s, a.pin)
    else
      var q := ClientFinish(a.data.(state := WaitAuth), s);
      q.(sent := FrameBytes(a.reply.value, draws.pad2) + q.sent, pin := a.pin)
  }

  /** session_authenticate_client, from its second receive. */
  function ClientFinish(d: SessionData, s: seq<byte>): Result {
    var r := ParseFrame(s);
    if !r.Parsed? then Result(false, d, [], Refused(s), None)
    else
      var (d1, accepted) := AcceptSuccess(d, r.packet);
      Result(accepted, d1, [], s[r.size..], None)
  }
}
