/** Exactly which byte streams take a role of the handshake to ESTABLISHED. */
module Acceptance {
  import opened Bytes
  import opened Crypto
  import opened Packet
  import opened Handshake
  import opened Layout

  /** A frame of the given type and payload size. */
  ghost predicate IsFrame(b: seq<byte>, k: Packet, typ: byte) {
    k.Acceptable() && k.typ == typ && exists pad: Padding :: b == FrameBytes(k, pad)
  }

  /** A response that answers this very session's nonce, signed under the key that it carries. */
  ghost predicate GoodResponse(suite: Suite, draws: Draws, k: Packet) {
    |k.payload| == RESPONSE_SIZE &&
    var r := ReadResponse(k.payload);
    && suite.verify(r.publicKey, draws.authNonce + r.ephPublic, r.signature)
    && draws.ephemeral.Some?
    && suite.exchange(draws.ephemeral.value, r.ephPublic).Some?
  }

  /** The server's own part did not fail. */
  ghost predicate CanChallenge(suite: Suite, draws: Draws, d: SessionData) {
    draws.ephemeral.Some? &&
    suite.sign(d.crypto.privateKey, draws.authNonce + suite.ephPublic(draws.ephemeral.value)).Some?
  }

  ghost predicate ServerLanguage(suite: Suite, draws: Draws, d: SessionData, b: seq<byte>) {
    exists k1: Packet, k2: Packet, i: nat :: ServerWord(suite, draws, d, b, k1, k2, i)
  }

  ghost predicate ServerWord(suite: Suite, draws: Draws, d: SessionData, b: seq<byte>, k1: Packet, k2: Packet, i: nat) {
    && i <= |b|
    && IsFrame(b[..i], k1, CLIENT_HELLO)
    && IsFrame(b[i..], k2, AUTH_RESPONSE)
    && CanChallenge(suite, draws, d)
    && GoodResponse(suite, draws, k2)
  }

  /** A challenge under the pinned key if there is one, signed over its nonce and ephemeral key. */
  ghost predicate GoodChallenge(suite: Suite, draws: Draws, d: SessionData, k: Packet) {
    |k.payload| == CHALLENGE_SIZE &&
    var c := ReadChallenge(k.payload);
    && (d.hasTrustedPeerKey ==> c.publicKey == d.trustedPeerKey)
    && suite.verify(c.publicKey, c.nonce + c.ephPublic, c.signature)
    && draws.ephemeral.Some?
    && suite.exchange(draws.ephemeral.value, c.ephPublic).Some?
    && suite.sign(d.crypto.privateKey, c.nonce + suite.ephPublic(draws.ephemeral.value)).Some?
  }

  ghost predicate ClientLanguage(suite: Suite, draws: Draws, d: SessionData, b: seq<byte>) {
    exists k1: Packet, k2: Packet, k3: Packet, i: nat, j: nat :: ClientWord(suite, draws, d, b, k1, k2, k3, i, j)
  }

  ghost predicate ClientWord(suite: Suite, draws: Draws, d: SessionData, b: seq<byte>,
                             k1: Packet, k2: Packet, k3: Packet, i: nat, j: nat) {
    && i <= j <= |b|
    && IsFrame(b[..i], k1, SERVER_HELLO)
    && IsFrame(b[i..j], k2, AUTH_REQUEST)
    && IsFrame(b[j..], k3, AUTH_SUCCESS)
    && GoodChallenge(suite, draws, d, k2)
    && |k3.payload| == SUCCESS_SIZE
  }

  // ---- the parser on words of the languages ----

  lemma FrameParses(s: seq<byte>, i: nat, k: Packet, typ: byte)
    requires i <= |s| && IsFrame(s[..i], k, typ)
    ensures ParseFrame(s) == Parsed(k, i)
  {
    var pad: Padding :| s[..i] == FrameBytes(k, pad);
    FrameReadsBack(k, pad, s[i..]);
    assert s == FrameBytes(k, pad) + s[i..];
  }

  lemma ParsedIsFrame(s: seq<byte>)
    requires ParseFrame(s).Parsed?
    ensures var r := ParseFrame(s); IsFrame(s[..r.size], r.packet, r.packet.typ)
  {
    var pad := AcceptedIsFrame(s);
  }

  // ---- the server ----

  lemma ServerVerifies(suite: Suite, draws: Draws, d: SessionData, k: Packet)
    ensures var (d1, request) := PrepareChallenge(suite, draws, d.(state := WaitAuth));
            && (request.Some? <==> CanChallenge(suite, draws, d))
            && (request.Some? ==>
                  (VerifyResponse(suite, d1.(state := WaitAuth), k).1
                   <==> k.typ == AUTH_RESPONSE && GoodResponse(suite, draws, k)))
  {
  }

  lemma AcceptedByServer(suite: Suite, draws: Draws, d: SessionData, s: seq<byte>, n: nat)
    requires n <= |s|
    requires var r := ServerRun(suite, draws, d, s); r.ok && r.rest == s[n..]
    ensures ServerLanguage(suite, draws, d, s[..n])
  {
    var p1 := ParseFrame(s);
    var s2 := s[p1.size..];
    var p2 := ParseFrame(s2);
    ParsedIsFrame(s);
    ParsedIsFrame(s2);
    ServerVerifies(suite, draws, d, p2.packet);
    assert |s2[p2.size..]| == |s[n..]|;
    assert s[..n][..p1.size] == s[..p1.size] && s[..n][p1.size..] == s2[..p2.size];
    assert ServerWord(suite, draws, d, s[..n], p1.packet, p2.packet, p1.size);
  }

  lemma ServerAcceptsWord(suite: Suite, draws: Draws, d: SessionData, s: seq<byte>, n: nat,
                          k1: Packet, k2: Packet, i: nat)
    requires n <= |s| && ServerWord(suite, draws, d, s[..n], k1, k2, i)
    ensures var r := ServerRun(suite, draws, d, s); r.ok && r.rest == s[n..]
  {
    assert s[..n][..i] == s[..i] && s[..n][i..] == s[i..][..n - i];
    FrameParses(s, i, k1, CLIENT_HELLO);
    FrameParses(s[i..], n - i, k2, AUTH_RESPONSE);
    ServerVerifies(suite, draws, d, k2);
    assert s[i..][n - i..] == s[n..];
  }

  /**
   * session_server_connect succeeds and leaves s[n..] unread exactly when s[..n] is CLIENT_HELLO followed by
   * an AUTH_RESPONSE that verifies against this session's own nonce.
   */
  lemma ServerAcceptsExactly(suite: Suite, draws: Draws, d: SessionData, s: seq<byte>, n: nat)
    requires n <= |s|
    ensures var r := ServerRun(suite, draws, d, s);
            r.ok && r.rest == s[n..] <==> ServerLanguage(suite, draws, d, s[..n])
  {
    var r := ServerRun(suite, draws, d, s);
    if r.ok && r.rest == s[n..] {
      AcceptedByServer(suite, draws, d, s, n);
    }
    if ServerLanguage(suite, draws, d, s[..n]) {
      var k1: Packet, k2: Packet, i: nat :| ServerWord(suite, draws, d, s[..n], k1, k2, i);
      ServerAcceptsWord(suite, draws, d, s, n, k1, k2, i);
    }
  }

  /** What the server then holds: the state, the verified peer and the keys of this exchange. */
  lemma ServerHolds(suite: Suite, draws: Draws, d: SessionData, s: seq<byte>)
    requires ServerRun(suite, draws, d, s).ok
    ensures var f := ServerRun(suite, draws, d, s).data;
            && f.state == Established && f.crypto.verified && f.sessionId == d.sessionId
            && f.sessionNonce == draws.sessionNonce && draws.ephemeral.Some?
            && var p1 := ParseFrame(s);
               p1.Parsed? &&
               var p2 := ParseFrame(s[p1.size..]);
               p2.Parsed? && |p2.packet.payload| == RESPONSE_SIZE &&
               var c := ReadResponse(p2.packet.payload);
               && f.crypto.peerPublic == c.publicKey
               && suite.exchange(draws.ephemeral.value, c.ephPublic).Some?
               && (f.crypto.txKey, f.crypto.rxKey)
                  == suite.split(suite.exchange(draws.ephemeral.value, c.ephPublic).value, c.ephPublic,
                                 suite.ephPublic(draws.ephemeral.value))
  {
  }

  // ---- the client ----

  lemma ClientAnswers(suite: Suite, draws: Draws, d: SessionData, k: Packet)
    ensures AnswerChallenge(suite, draws, d, k).reply.Some?
            <==> k.typ == AUTH_REQUEST && GoodChallenge(suite, draws, d, k)
  {
  }

  lemma AcceptedByClient(suite: Suite, draws: Draws, d: SessionData, s: seq<byte>, n: nat)
    requires n <= |s|
    requires var r := ClientRun(suite, draws, d, s); r.ok && r.rest == s[n..]
    ensures ClientLanguage(suite, draws, d, s[..n])
  {
    var p1 := ParseFrame(s);
    var s2 := s[p1.size..];
    var p2 := ParseFrame(s2);
    var s3 := s2[p2.size..];
    var p3 := ParseFrame(s3);
    ParsedIsFrame(s);
    ParsedIsFrame(s2);
    ParsedIsFrame(s3);
    ClientAnswers(suite, draws, d, p2.packet);
    var i, j := p1.size, p1.size + p2.size;
    assert |s3[p3.size..]| == |s[n..]|;
    assert s[..n][..i] == s[..i] && s[..n][i..j] == s2[..p2.size] && s[..n][j..] == s3[..p3.size];
    assert ClientWord(suite, draws, d, s[..n], p1.packet, p2.packet, p3.packet, i, j);
  }

  lemma ClientAcceptsWord(suite: Suite, draws: Draws, d: SessionData, s: seq<byte>, n: nat,
                          k1: Packet, k2: Packet, k3: Packet, i: nat, j: nat)
    requires n <= |s| && ClientWord(suite, draws, d, s[..n], k1, k2, k3, i, j)
    ensures var r := ClientRun(suite, draws, d, s); r.ok && r.rest == s[n..]
  {
    assert s[..n][..i] == s[..i] && s[..n][i..j] == s[i..][..j - i] && s[..n][j..] == s[j..][..n - j];
    FrameParses(s, i, k1, SERVER_HELLO);
    FrameParses(s[i..], j - i, k2, AUTH_REQUEST);
    assert s[i..][j - i..] == s[j..];
    FrameParses(s[j..], n - j, k3, AUTH_SUCCESS);
    ClientAnswers(suite, draws, d, k2);
    assert s[j..][n - j..] == s[n..];
  }

  /**
   * session_client_connect succeeds and leaves s[n..] unread exactly when s[..n] is SERVER_HELLO, a challenge
   * under the pinned key with a valid signature, and AUTH_SUCCESS.
   */
  lemma ClientAcceptsExactly(suite: Suite, draws: Draws, d: SessionData, s: seq<byte>, n: nat)
    requires n <= |s|
    ensures var r := ClientRun(suite, draws, d, s);
            r.ok && r.rest == s[n..] <==> ClientLanguage(suite, draws, d, s[..n])
  {
    var r := ClientRun(suite, draws, d, s);
    if r.ok && r.rest == s[n..] {
      AcceptedByClient(suite, draws, d, s, n);
    }
    if ClientLanguage(suite, draws, d, s[..n]) {
      var k1: Packet, k2: Packet, k3: Packet, i: nat, j: nat
        :| ClientWord(suite, draws, d, s[..n], k1, k2, k3, i, j);
      ClientAcceptsWord(suite, draws, d, s, n, k1, k2, k3, i, j);
    }
  }

  /** What the client then holds: the pinned peer, the keys of this exchange, and the id it was given. */
  lemma ClientHolds(suite: Suite, draws: Draws, d: SessionData, s: seq<byte>)
    requires ClientRun(suite, draws, d, s).ok
    ensures var f := ClientRun(suite, draws, d, s).data;
            && f.state == Established && f.hasTrustedPeerKey && f.crypto.peerPublic == f.trustedPeerKey
            && (d.hasTrustedPeerKey ==> f.trustedPeerKey == d.trustedPeerKey) && draws.ephemeral.Some?
            && var p1 := ParseFrame(s);
               p1.Parsed? &&
               var p2 := ParseFrame(s[p1.size..]);
               p2.Parsed? && |p2.packet.payload| == CHALLENGE_SIZE &&
               var c := ReadChallenge(p2.packet.payload);
               && f.crypto.peerPublic == c.publicKey
               && suite.exchange(draws.ephemeral.value, c.ephPublic).Some?
               && (f.crypto.rxKey, f.crypto.txKey)
                  == suite.split(suite.exchange(draws.ephemeral.value, c.ephPublic).value,
                                 suite.ephPublic(draws.ephemeral.value), c.ephPublic)
               && var p3 := ParseFrame(s[p1.size..][p2.size..]);
                  p3.Parsed? && |p3.packet.payload| == SUCCESS_SIZE
                  && Success(f.sessionNonce, f.sessionId) == ReadSuccess(p3.packet.payload)
  {
  }

  // ---- the conversation in numbers: what is read and written, and of it on failure ----

  lemma ParsedIsAt(s: seq<byte>, i: nat)
    requires i <= |s| && ParseFrame(s[i..]).Parsed?
    ensures var r := ParseFrame(s[i..]);
            FrameAt(s, i, r.packet.typ, |r.packet.payload|) && r.size == 8 + |r.packet.payload|
  {
    ParsesExactly(s[i..]);
    assert s[i..][..4] == s[i..i + 4];
  }

  /** A server that succeeds has read frames of types 0 and 3, the latter with 128 bytes, and nothing behind them. */
  lemma ServerReads(suite: Suite, draws: Draws, d: SessionData, s: seq<byte>)
    requires ServerRun(suite, draws, d, s).ok
    ensures |s| >= 4 && var n := Length(s);
            FrameAt(s, 0, 0, n) && FrameAt(s, 8 + n, 3, 128) && ServerRun(suite, draws, d, s).rest == s[144 + n..]
  {
    assert s[0..] == s;
    ParsedIsAt(s, 0);
    var n := ParseFrame(s).size;
    ParsedIsAt(s, n);
    assert s[n..][136..] == s[n + 136..];
  }

  /**
   * What the server has written: nothing before it accepted a CLIENT_HELLO, then a frame of type 1, then unless
   * it could not sign one of type 2 with 144 bytes, and only on success one of type 4 with 40 bytes.
   */
  lemma ServerWrites(suite: Suite, draws: Draws, d: SessionData, s: seq<byte>)
    requires d.protocolVersion == 1
    ensures var (r, p) := (ServerRun(suite, draws, d, s), ParseFrame(s));
            && |r.sent| == (if !p.Parsed? || p.packet.typ != 0 then 0
                            else if !CanChallenge(suite, draws, d) then 8 else if !r.ok then 160 else 208)
            && (|r.sent| >= 8 ==> FrameAt(r.sent, 0, 1, 0))
            && (|r.sent| >= 160 ==> FrameAt(r.sent, 8, 2, 144))
            && (|r.sent| >= 208 ==> FrameAt(r.sent, 160, 4, 40))
  {
    var p := ParseFrame(s);
    if p.Parsed? && p.packet.typ == CLIENT_HELLO {
      ServerAuthenticateWrites(suite, draws, d.(state := WaitAuth), s[p.size..]);
      var q := ServerAuthenticate(suite, draws, d.(state := WaitAuth), s[p.size..]);
      FrameFirst(Packet(1, SERVER_HELLO, []), draws.pad1, q.sent);
    }
  }

  /** A frame, and the frames behind it. */
  lemma FrameFirst(p: Packet, pad: Padding, rest: seq<byte>)
    requires p.Acceptable()
    ensures var b := FrameBytes(p, pad) + rest;
            |b| == 8 + |p.payload| + |rest| && FrameAt(b, 0, p.typ, |p.payload|)
    ensures forall i: nat, typ, size :: FrameAt(rest, i, typ, size) ==>
              FrameAt(FrameBytes(p, pad) + rest, 8 + |p.payload| + i, typ, size)
  {
    var f := FrameBytes(p, pad);
    FrameIsAt(p, pad, [], rest);
    assert [] + f + rest == f + rest;
    forall i: nat, typ, size | FrameAt(rest, i, typ, size) ensures FrameAt(f + rest, |f| + i, typ, size) {
      assert (f + rest)[|f| + i..|f| + i + 4] == rest[i..i + 4];
    }
  }

  lemma ServerAuthenticateWrites(suite: Suite, draws: Draws, d: SessionData, s: seq<byte>)
    requires d.protocolVersion == 1
    ensures var r := ServerAuthenticate(suite, draws, d, s);
            && |r.sent| == (if !CanChallenge(suite, draws, d) then 0 else if !r.ok then 152 else 200)
            && (|r.sent| >= 152 ==> FrameAt(r.sent, 0, 2, 144))
            && (|r.sent| >= 200 ==> FrameAt(r.sent, 152, 4, 40))
  {
    var (d1, request) := PrepareChallenge(suite, draws, d);
    if request.Some? {
      var q := ServerFinish(suite, draws, d1.(state := WaitAuth), s);
      ServerFinishWrites(suite, draws, d1.(state := WaitAuth), s);
      FrameFirst(request.value, draws.pad2, q.sent);
    }
  }

  lemma ServerFinishWrites(suite: Suite, draws: Draws, d: SessionData, s: seq<byte>)
    requires d.protocolVersion == 1
    ensures var r := ServerFinish(suite, draws, d, s);
            |r.sent| == (if r.ok then 48 else 0) && (r.ok ==> FrameAt(r.sent, 0, 4, 40))
  {
    var r := ServerFinish(suite, draws, d, s);
    if r.ok {
      var d2 := VerifyResponse(suite, d, ParseFrame(s).packet).0.(sessionNonce := draws.sessionNonce);
      FrameFirst(SuccessPacket(d2), draws.pad3, []);
      assert r.sent + [] == r.sent;
    }
  }

  /** A client that succeeds has read frames of types 1, 2 with 144 bytes and 4 with 40, and nothing behind them. */
  lemma ClientReads(suite: Suite, draws: Draws, d: SessionData, s: seq<byte>)
    requires ClientRun(suite, draws, d, s).ok
    ensures |s| >= 4 && var n := Length(s);
            && FrameAt(s, 0, 1, n) && FrameAt(s, 8 + n, 2, 144) && FrameAt(s, 160 + n, 4, 40)
            && ClientRun(suite, draws, d, s).rest == s[208 + n..]
  {
    assert s[0..] == s;
    ParsedIsAt(s, 0);
    var n := ParseFrame(s).size;
    ParsedIsAt(s, n);
    ClientAnswers(suite, draws, d, ParseFrame(s[n..]).packet);
    assert s[n..][152..] == s[n + 152..];
    ParsedIsAt(s, n + 152);
    assert s[n + 152..][48..] == s[n + 200..];
  }

  /**
   * What the client has written: at once a frame of type 0, and one of type 3 with 128 bytes exactly if a
   * SERVER_HELLO and a challenge that it answers have come.
   */
  lemma ClientWrites(suite: Suite, draws: Draws, d: SessionData, s: seq<byte>)
    requires d.protocolVersion == 1
    ensures var (r, p) := (ClientRun(suite, draws, d, s), ParseFrame(s));
            && |r.sent| == (if Answers(suite, draws, d, s) then 144 else 8)
            && FrameAt(r.sent, 0, 0, 0) && (|r.sent| >= 144 ==> FrameAt(r.sent, 8, 3, 128))
  {
    var p := ParseFrame(s);
    var f := FrameBytes(Packet(1, CLIENT_HELLO, []), draws.pad1);
    var greeted := p.Parsed? && p.packet.typ == SERVER_HELLO;
    var q := if greeted then ClientAuthenticate(suite, draws, d, s[p.size..]).sent else [];
    FrameFirst(Packet(1, CLIENT_HELLO, []), draws.pad1, q);
    assert f + [] == f;
    if q != [] {
      ClientReplyWrites(suite, draws, d, ParseFrame(s[p.size..]).packet, s[p.size..][ParseFrame(s[p.size..]).size..]);
    }
    if Answers(suite, draws, d, s) {
      ClientAnswers(suite, draws, d, ParseFrame(s[p.size..]).packet);
    }
  }

  ghost predicate Answers(suite: Suite, draws: Draws, d: SessionData, s: seq<byte>) {
    var p := ParseFrame(s);
    p.Parsed? && p.packet.typ == 1 &&
    var q := ParseFrame(s[p.size..]);
    q.Parsed? && q.packet.typ == 2 && GoodChallenge(suite, draws, d, q.packet)
  }

  lemma ClientReplyWrites(suite: Suite, draws: Draws, d: SessionData, k: Packet, s: seq<byte>)
    requires d.protocolVersion == 1
    ensures var r := ClientReply(suite, draws, d, k, s);
            |r.sent| == (if k.typ == 2 && GoodChallenge(suite, draws, d, k) then 136 else 0)
            && (|r.sent| > 0 ==> FrameAt(r.sent, 0, 3, 128))
  {
    var a := AnswerChallenge(suite, draws, d, k);
    ClientAnswers(suite, draws, d, k);
    if a.reply.Some? {
      var f := FrameBytes(a.reply.value, draws.pad2);
      FrameFirst(a.reply.value, draws.pad2, []);
      assert f + [] == f;
    }
  }

  /**
   * A handshake that the server does not complete leaves no keys and no verified peer, and the session in WAIT_AUTH
   * exactly if a CLIENT_HELLO was accepted. A peer key that did not verify may have been recorded.
   */
  lemma FailureLeaves(suite: Suite, draws: Draws, d: SessionData, s: seq<byte>)
    requires !ServerRun(suite, draws, d, s).ok
    ensures var (e, p) := (ServerRun(suite, draws, d, s).data, ParseFrame(s));
            && e.state == (if p.Parsed? && p.packet.typ == 0 then WaitAuth else d.state)
            && e.crypto.verified == d.crypto.verified && e.crypto.txKey == d.crypto.txKey
            && e.crypto.rxKey == d.crypto.rxKey && e.sessionNonce == d.sessionNonce
    ensures var (e, p) := (ServerRun(suite, draws, d, s).data, ParseFrame(s));
            var responded := p.Parsed? && p.packet.typ == 0 && CanChallenge(suite, draws, d) &&
                             var q := ParseFrame(s[p.size..]);
                             q.Parsed? && q.packet.typ == 3 && |q.packet.payload| == 128;
            e.crypto.peerPublic == if responded then ParseFrame(s[p.size..]).packet.payload[64..96]
                                   else d.crypto.peerPublic
  {
  }

  /**
   * A client that fails is in WAIT_AUTH exactly if it has answered a challenge, with the id it drew. A challenge
   * of the right size leaves the key that it offers trusted, where none was, even if it is not answered.
   */
  lemma ClientFailureLeaves(suite: Suite, draws: Draws, d: SessionData, s: seq<byte>)
    requires !ClientRun(suite, draws, d, s).ok
    ensures var e := ClientRun(suite, draws, d, s).data;
            && e.state == (if Answers(suite, draws, d, s) then WaitAuth else d.state)
            && e.sessionId == d.sessionId && e.sessionNonce == d.sessionNonce
    ensures var (e, p) := (ClientRun(suite, draws, d, s).data, ParseFrame(s));
            var challenged := p.Parsed? && p.packet.typ == 1 &&
                              var q := ParseFrame(s[p.size..]);
                              q.Parsed? && q.packet.typ == 2 && |q.packet.payload| == 144;
            && e.hasTrustedPeerKey == (d.hasTrustedPeerKey || challenged)
            && e.trustedPeerKey == (if d.hasTrustedPeerKey || !challenged then d.trustedPeerKey
                                    else ParseFrame(s[p.size..]).packet.payload[64..96])
  {
    var p := ParseFrame(s);
    if p.Parsed? && p.packet.typ == 1 && ParseFrame(s[p.size..]).Parsed? {
      ClientAnswers(suite, draws, d, ParseFrame(s[p.size..]).packet);
    }
  }
}
