/**
 * A client and a server of the handshake joined by two FIFO byte streams, in every interleaving and under
 * every division of the streams into sends and receives.
 */
module Protocol {
  import opened Bytes
  import opened Crypto
  import opened Packet
  import opened Handshake
  import opened Party

  /** Everything a run of the pair depends on but its schedule. The draws are whatever the environment gave. */
  datatype Setup = Setup(
    suite: Suite,
    client: Identity,
    server: Identity,
    trusted: Option<Key>,
    clientId: u64,
    serverId: u64,
    clientDraws: Draws,
    serverDraws: Draws)
  {
    /** Both follow the program, own their identities, draw their ephemerals, and the pin, if any, matches. */
    ghost predicate Honest() {
      && suite.Lawful()
      && client.public == suite.identityPublic(client.secret)
      && server.public == suite.identityPublic(server.secret)
      && (trusted.Some? ==> trusted.value == server.public)
      && clientDraws.ephemeral.Some? && serverDraws.ephemeral.Some?
    }

    function DrawsOf(role: Role): Draws {
      if role == Client then clientDraws else serverDraws
    }
  }

  function Or<T>(o: Option<T>, default: T): T {
    if o.Some? then o.value else default
  }

  // ---- what an honest pair writes, and what each then holds ----

  function ClientEph(x: Setup): Key { x.suite.ephPublic(Or(x.clientDraws.ephemeral, Zeros(32))) }
  function ServerEph(x: Setup): Key { x.suite.ephPublic(Or(x.serverDraws.ephemeral, Zeros(32))) }

  /** Towards the client, and towards the server. */
  function SessionKeys(x: Setup): (Key, Key) {
    var shared := Or(x.suite.exchange(Or(x.clientDraws.ephemeral, Zeros(32)), ServerEph(x)), Zeros(32));
    x.suite.split(shared, ClientEph(x), ServerEph(x))
  }

  function Signed(x: Setup, secret: Secret, eph: Key): Signature {
    Or(x.suite.sign(secret, x.serverDraws.authNonce + eph), Zeros(64))
  }

  function HelloPacket(role: Role): Packet {
    Packet(CURRENT_VERSION, if role == Client then CLIENT_HELLO else SERVER_HELLO, [])
  }

  function RequestPacket(x: Setup): Packet {
    Packet(CURRENT_VERSION, AUTH_REQUEST, ChallengeBytes(
      Challenge(Signed(x, x.server.secret, ServerEph(x)), x.server.public, ServerEph(x), x.serverDraws.authNonce)))
  }

  function ResponsePacket(x: Setup): Packet {
    Packet(CURRENT_VERSION, AUTH_RESPONSE, ResponseBytes(
      Response(Signed(x, x.client.secret, ClientEph(x)), x.client.public, ClientEph(x))))
  }

  function FinalPacket(x: Setup): Packet {
    Packet(CURRENT_VERSION, AUTH_SUCCESS, SuccessBytes(Success(x.serverDraws.sessionNonce, x.serverId)))
  }

  function F1(x: Setup): seq<byte> { FrameBytes(HelloPacket(Client), x.clientDraws.pad1) }
  function F2(x: Setup): seq<byte> { FrameBytes(HelloPacket(Server), x.serverDraws.pad1) }
  function F3(x: Setup): seq<byte> { FrameBytes(RequestPacket(x), x.serverDraws.pad2) }
  function F4(x: Setup): seq<byte> { FrameBytes(ResponsePacket(x), x.clientDraws.pad2) }
  function F5(x: Setup): seq<byte> { FrameBytes(FinalPacket(x), x.serverDraws.pad3) }

  /** All that the role ever writes. */
  function Total(x: Setup, role: Role): seq<byte> {
    if role == Client then F1(x) + F4(x) else F2(x) + F3(x) + F5(x)
  }

  function ClientFresh(x: Setup): SessionData { Created(Client, x.client, x.trusted, x.clientId) }

  function ClientKeyed(x: Setup): SessionData {
    var d := ClientFresh(x);
    d.(trustedPeerKey := x.server.public, hasTrustedPeerKey := true,
       crypto := d.crypto.(peerPublic := x.server.public,
                           ephPrivate := Or(x.clientDraws.ephemeral, Zeros(32)), ephPublic := ClientEph(x),
                           rxKey := SessionKeys(x).0, txKey := SessionKeys(x).1))
  }

  function ClientFinal(x: Setup): SessionData {
    ClientKeyed(x).(sessionId := x.serverId, sessionNonce := x.serverDraws.sessionNonce, state := Established)
  }

  function ServerFresh(x: Setup): SessionData { Created(Server, x.server, None, x.serverId) }

  function ServerAsked(x: Setup): SessionData {
    var d := ServerFresh(x);
    d.(state := WaitAuth, authNonce := x.serverDraws.authNonce,
       crypto := d.crypto.(ephPrivate := Or(x.serverDraws.ephemeral, Zeros(32)), ephPublic := ServerEph(x)))
  }

  function ServerKeyed(x: Setup): SessionData {
    var d := ServerAsked(x);
    d.(sessionNonce := x.serverDraws.sessionNonce,
       crypto := d.crypto.(peerPublic := x.client.public, verified := true,
                           rxKey := SessionKeys(x).1, txKey := SessionKeys(x).0))
  }

  function ServerFinal(x: Setup): SessionData { ServerKeyed(x).(state := Established) }

  predicate Belongs(role: Role, pc: Pc) {
    if role == Client then
      pc.CSendHello? || pc.CWaitHello? || pc.CWaitRequest? || pc.CSendResponse? || pc.CWaitSuccess? || pc.Done?
    else
      pc.SWaitHello? || pc.SSendHello? || pc.SSendRequest? || pc.SWaitResponse? || pc.SSendSuccess? || pc.Done?
  }

  /** The role on arriving at the control point. */
  function Stage(x: Setup, role: Role, pc: Pc): Party
    requires Belongs(role, pc)
  {
    var pin := if x.trusted.None? then Some(x.server.public) else None;
    match pc
    case CSendHello => Party(pc, ClientFresh(x), F1(x), [], None)
    case CWaitHello => Party(pc, ClientFresh(x), [], [], None)
    case CWaitRequest => Party(pc, ClientFresh(x), [], [], None)
    case CSendResponse => Party(pc, ClientKeyed(x), F4(x), [], pin)
    case CWaitSuccess => Party(pc, ClientKeyed(x).(state := WaitAuth), [], [], pin)
    case SWaitHello => Party(pc, ServerFresh(x), [], [], None)
    case SSendHello => Party(pc, ServerFresh(x), F2(x), [], None)
    case SSendRequest => Party(pc, ServerAsked(x), F3(x), [], None)
    case SWaitResponse => Party(pc, ServerAsked(x), [], [], None)
    case SSendSuccess => Party(pc, ServerKeyed(x), F5(x), [], None)
    case Done =>
      if role == Client then Party(pc, ClientFinal(x), [], [], pin) else Party(pc, ServerFinal(x), [], [], None)
  }

  /** What the role will have written once it leaves the control point. */
  function SentBy(x: Setup, role: Role, pc: Pc): seq<byte>
    requires Belongs(role, pc)
  {
    match pc
    case CSendHello => F1(x) case CWaitHello => F1(x) case CWaitRequest => F1(x)
    case CSendResponse => F1(x) + F4(x) case CWaitSuccess => F1(x) + F4(x)
    case SWaitHello => [] case SSendHello => F2(x)
    case SSendRequest => F2(x) + F3(x) case SWaitResponse => F2(x) + F3(x)
    case SSendSuccess => F2(x) + F3(x) + F5(x)
    case Done => Total(x, role)
  }

  function Other(role: Role): Role { if role == Client then Server else Client }

  /** What the role had read on arriving there: whole frames of the peer's. */
  function TookBy(x: Setup, role: Role, pc: Pc): seq<byte>
    requires Belongs(role, pc)
  {
    match pc
    case CSendHello => [] case CWaitHello => [] case CWaitRequest => F2(x)
    case CSendResponse => F2(x) + F3(x) case CWaitSuccess => F2(x) + F3(x)
    case SWaitHello => [] case SSendHello => F1(x) case SSendRequest => F1(x) case SWaitResponse => F1(x)
    case SSendSuccess => F1(x) + F4(x)
    case Done => Total(x, Other(role))
  }

  /** The packet awaited, and the padding it comes with. */
  function Awaited(x: Setup, role: Role, pc: Pc): (Packet, Padding)
    requires Belongs(role, pc) && pc.Waiting()
  {
    match pc
    case CWaitHello => (HelloPacket(Server), x.serverDraws.pad1)
    case CWaitRequest => (RequestPacket(x), x.serverDraws.pad2)
    case CWaitSuccess => (FinalPacket(x), x.serverDraws.pad3)
    case SWaitHello => (HelloPacket(Client), x.clientDraws.pad1)
    case SWaitResponse => (ResponsePacket(x), x.clientDraws.pad2)
  }

  function Next(pc: Pc): Pc {
    match pc
    case CSendHello => CWaitHello case CWaitHello => CWaitRequest case CWaitRequest => CSendResponse
    case CSendResponse => CWaitSuccess case CWaitSuccess => Done
    case SWaitHello => SSendHello case SSendHello => SSendRequest case SSendRequest => SWaitResponse
    case SWaitResponse => SSendSuccess case SSendSuccess => Done
    case Done => Done case Failed => Failed
  }

  // ---- the script is what the handlers compute ----

  lemma SendsAsScripted(x: Setup, role: Role, pc: Pc)
    requires x.Honest() && Belongs(role, pc) && pc.Sending()
    ensures var next := Stage(x, role, Next(pc));
            && AfterSend(x.suite, x.DrawsOf(role), Stage(x, role, pc).(out := [])) == next
            && SentBy(x, role, Next(pc)) == SentBy(x, role, pc) + next.out
            && TookBy(x, role, Next(pc)) == TookBy(x, role, pc)
  {
    if pc.SSendHello? {
      ChallengeIsPrepared(x);
    }
  }

  lemma ChallengeIsPrepared(x: Setup)
    requires x.Honest()
    ensures PrepareChallenge(x.suite, x.serverDraws, ServerFresh(x).(state := WaitAuth))
            == (ServerAsked(x), Some(RequestPacket(x)))
  {
  }

  lemma RequestIsAnswered(x: Setup)
    requires x.Honest()
    ensures var a := AnswerChallenge(x.suite, x.clientDraws, ClientFresh(x), RequestPacket(x));
            && a.data == ClientKeyed(x) && a.reply == Some(ResponsePacket(x))
            && a.pin == (if x.trusted.None? then Some(x.server.public) else None)
  {
    var sig := Signed(x, x.server.secret, ServerEph(x));
    var c := Challenge(sig, x.server.public, ServerEph(x), x.serverDraws.authNonce);
    StructsReadBack(c, Response(Zeros(64), Zeros(32), Zeros(32)), Success(Zeros(32), 0));
  }

  lemma ResponseVerifies(x: Setup)
    requires x.Honest()
    ensures VerifyResponse(x.suite, ServerAsked(x), ResponsePacket(x))
            == (ServerKeyed(x).(sessionNonce := ServerAsked(x).sessionNonce), true)
  {
    var r := Response(Signed(x, x.client.secret, ClientEph(x)), x.client.public, ClientEph(x));
    StructsReadBack(Challenge(Zeros(64), Zeros(32), Zeros(32), Zeros(16)), r, Success(Zeros(32), 0));
    var a, b := x.clientDraws.ephemeral.value, x.serverDraws.ephemeral.value;
    assert x.suite.exchange(a, x.suite.ephPublic(b)) == x.suite.exchange(b, x.suite.ephPublic(a));
  }

  lemma SuccessIsAccepted(x: Setup)
    ensures AcceptSuccess(ClientKeyed(x).(state := WaitAuth), FinalPacket(x)) == (ClientFinal(x), true)
  {
    StructsReadBack(Challenge(Zeros(64), Zeros(32), Zeros(32), Zeros(16)), Response(Zeros(64), Zeros(32), Zeros(32)),
                    Success(x.serverDraws.sessionNonce, x.serverId));
  }

  lemma ReceivesAsScripted(x: Setup, role: Role, pc: Pc)
    requires x.Honest() && Belongs(role, pc) && pc.Waiting()
    ensures var (k, pad) := Awaited(x, role, pc);
            var next := Stage(x, role, Next(pc));
            && k.Acceptable()
            && OnPacket(x.suite, x.DrawsOf(role), Stage(x, role, pc), k) == next
            && SentBy(x, role, Next(pc)) == SentBy(x, role, pc) + next.out
            && TookBy(x, role, Next(pc)) == TookBy(x, role, pc) + FrameBytes(k, pad)
            && TookBy(x, role, pc) + FrameBytes(k, pad) <= Total(x, Other(role))
  {
    match pc
    case CWaitRequest => RequestIsAnswered(x);
    case SWaitResponse => ResponseVerifies(x);
    case CWaitSuccess => SuccessIsAccepted(x);
    case _ =>
  }

  // ---- the pair ----

  /** One role, all it has written, and how much of the peer's stream it has taken. */
  datatype Side = Side(party: Party, sent: seq<byte>, took: nat)

  datatype Pair = Pair(client: Side, server: Side) {
    function Of(role: Role): Side { if role == Client then client else server }
  }

  function Initial(x: Setup): Pair {
    Pair(Side(ClientStart(x.clientDraws, ClientFresh(x)), [], 0), Side(ServerStart(ServerFresh(x)), [], 0))
  }

  predicate Enabled(p: Pair, role: Role, m: Move) {
    var me, peer := p.Of(role), p.Of(Other(role));
    me.took <= |peer.sent| && CanMove(me.party, m, peer.sent[me.took..])
  }

  function Moving(x: Setup, role: Role, me: Side, m: Move, peerSent: seq<byte>): Side
    requires me.took <= |peerSent| && CanMove(me.party, m, peerSent[me.took..])
  {
    var r := Do(x.suite, x.DrawsOf(role), me.party, m, peerSent[me.took..]);
    Side(r.party, me.sent + r.sent, me.took + r.took)
  }

  function Step(x: Setup, p: Pair, role: Role, m: Move): Pair
    requires Enabled(p, role, m)
  {
    var me := Moving(x, role, p.Of(role), m, p.Of(Other(role)).sent);
    if role == Client then p.(client := me) else p.(server := me)
  }

  function Run(x: Setup, p: Pair, moves: seq<(Role, Move)>): Option<Pair>
    decreases |moves|
  {
    if moves == [] then Some(p)
    else if Enabled(p, moves[0].0, moves[0].1) then Run(x, Step(x, p, moves[0].0, moves[0].1), moves[1..])
    else None
  }

  // ---- the invariant: each side is on its script ----

  /** A control point of the script: the role, its streams so far, and the frame awaited if it waits. */
  datatype Mark = Mark(stage: Party, sent: seq<byte>, took: seq<byte>, packet: Packet, pad: Padding) {
    function Frame(): seq<byte> { FrameBytes(packet, pad) }
  }

  function MarkAt(x: Setup, role: Role, pc: Pc): Mark
    requires Belongs(role, pc)
  {
    var (k, pad) := if pc.Waiting() then Awaited(x, role, pc) else (HelloPacket(Client), [0, 0]);
    Mark(Stage(x, role, pc), SentBy(x, role, pc), TookBy(x, role, pc), k, pad)
  }

  /** The side has reached the mark and is somewhere in its send or its receive. */
  ghost predicate At(k: Mark, me: Side, peerSent: seq<byte>) {
    var p := me.party;
    && p == k.stage.(out := p.out, buf := p.buf)
    && me.sent + p.out == k.sent
    && me.took <= |peerSent|
    && peerSent[..me.took] == k.took + p.buf
    && (!p.pc.Sending() ==> p.out == [])
    && (if p.pc.Waiting() then p.buf <= k.Frame() && |p.buf| < |k.Frame()| else p.buf == [])
  }

  ghost predicate OnScript(x: Setup, role: Role, me: Side, peerSent: seq<byte>) {
    Belongs(role, me.party.pc) && At(MarkAt(x, role, me.party.pc), me, peerSent)
  }

  ghost predicate Inv(x: Setup, p: Pair) {
    OnScript(x, Client, p.client, p.server.sent) && OnScript(x, Server, p.server, p.client.sent)
  }

  lemma SentIsPrefix(x: Setup, role: Role, me: Side, peerSent: seq<byte>)
    requires OnScript(x, role, me, peerSent)
    ensures me.sent <= Total(x, role)
  {
    assert me.sent <= SentBy(x, role, me.party.pc);
    assert SentBy(x, role, me.party.pc) <= Total(x, role);
  }

  lemma MiddlePart(a: seq<byte>, b: seq<byte>, f: seq<byte>, t: seq<byte>)
    requires a + b <= t && a + f <= t && |b| <= |f|
    ensures b <= f
  {
    forall i | 0 <= i < |b| ensures b[i] == f[i] {
      assert (a + b)[|a| + i] == t[|a| + i] == (a + f)[|a| + i];
    }
  }

  /** The bytes taken so far are a prefix of the awaited frame. */
  lemma BufferGrows(k: Mark, me: Side, n: nat, peerSent: seq<byte>, total: seq<byte>)
    requires At(k, me, peerSent) && peerSent <= total && k.took + k.Frame() <= total && k.packet.Acceptable()
    requires CanMove(me.party, ReceiveSome(n), peerSent[me.took..])
    ensures var b := me.party.buf + peerSent[me.took..][..n];
            b <= k.Frame() && me.took + n <= |peerSent| && peerSent[..me.took + n] == k.took + b
  {
    var p := me.party;
    var chunk := peerSent[me.took..][..n];
    PrefixIsTruncated(k.packet, k.pad, p.buf);
    assert peerSent[..me.took + n] == peerSent[..me.took] + chunk == k.took + (p.buf + chunk);
    MiddlePart(k.took, p.buf + chunk, k.Frame(), total);
  }

  /** The frame arrives in part: the side stays at the mark. Or whole: it is at the next one. */
  lemma ReceiveFollows(x: Setup, role: Role, k: Mark, next: Mark, me: Side, n: nat,
                       peerSent: seq<byte>, total: seq<byte>)
    requires At(k, me, peerSent) && peerSent <= total && k.took + k.Frame() <= total && k.packet.Acceptable()
    requires CanMove(me.party, ReceiveSome(n), peerSent[me.took..])
    requires OnPacket(x.suite, x.DrawsOf(role), me.party, k.packet) == next.stage
    requires next.sent == k.sent + next.stage.out && next.took == k.took + k.Frame()
    requires next.stage.buf == [] && (!next.stage.pc.Sending() ==> next.stage.out == [])
    requires |next.Frame()| > 0
    ensures var me' := Moving(x, role, me, ReceiveSome(n), peerSent);
            At(k, me', peerSent) || At(next, me', peerSent)
    ensures var me' := Moving(x, role, me, ReceiveSome(n), peerSent);
            me'.party.pc == if At(k, me', peerSent) then k.stage.pc else next.stage.pc
  {
    var p := me.party;
    var b := p.buf + peerSent[me.took..][..n];
    BufferGrows(k, me, n, peerSent, total);
    assert me.sent + [] == me.sent;
    if |b| < |k.Frame()| {
      PrefixIsTruncated(k.packet, k.pad, b);
    } else {
      assert b == k.Frame() == k.Frame() + [];
      FrameReadsBack(k.packet, k.pad, []);
      assert next.took + [] == next.took;
    }
  }

  lemma ReceiveStaysOnScript(x: Setup, role: Role, me: Side, n: nat, peerSent: seq<byte>)
    requires x.Honest() && OnScript(x, role, me, peerSent) && peerSent <= Total(x, Other(role))
    requires CanMove(me.party, ReceiveSome(n), peerSent[me.took..])
    ensures OnScript(x, role, Moving(x, role, me, ReceiveSome(n), peerSent), peerSent)
  {
    var pc := me.party.pc;
    var total := Total(x, Other(role));
    var k, next := MarkAt(x, role, pc), MarkAt(x, role, Next(pc));
    MarkFollows(x, role, me, peerSent);
    ReceiveFollows(x, role, k, next, me, n, peerSent, total);
  }

  /** What ReceiveFollows asks of a mark and its successor. */
  lemma MarkFollows(x: Setup, role: Role, me: Side, peerSent: seq<byte>)
    requires x.Honest() && OnScript(x, role, me, peerSent) && me.party.pc.Waiting()
    ensures var pc := me.party.pc;
            Belongs(role, Next(pc)) &&
            var (k, next) := (MarkAt(x, role, pc), MarkAt(x, role, Next(pc)));
            && k.packet.Acceptable() && k.took + k.Frame() <= Total(x, Other(role))
            && OnPacket(x.suite, x.DrawsOf(role), me.party, k.packet) == next.stage
            && next.sent == k.sent + next.stage.out && next.took == k.took + k.Frame()
            && next.stage.buf == [] && (!next.stage.pc.Sending() ==> next.stage.out == [])
            && next.stage.pc == Next(pc) && k.stage.pc == pc
            && |next.Frame()| > 0
  {
    var pc := me.party.pc;
    ReceivesAsScripted(x, role, pc);
    StageShape(x, role, pc);
    StageShape(x, role, Next(pc));
    BufferIgnored(x, role, me.party, Stage(x, role, pc), Awaited(x, role, pc).0);
  }

  lemma StageShape(x: Setup, role: Role, pc: Pc)
    requires Belongs(role, pc)
    ensures Belongs(role, Next(pc))
    ensures var k := MarkAt(x, role, pc);
            && k.stage.pc == pc && k.stage.buf == [] && (!pc.Sending() ==> k.stage.out == []) && |k.Frame()| > 0
  {
  }

  lemma BufferIgnored(x: Setup, role: Role, p: Party, q: Party, k: Packet)
    requires p.pc.Waiting() && p == q.(buf := p.buf)
    ensures OnPacket(x.suite, x.DrawsOf(role), p, k) == OnPacket(x.suite, x.DrawsOf(role), q, k)
  {
  }

  lemma SendFollows(x: Setup, role: Role, k: Mark, me: Side, n: nat, peerSent: seq<byte>)
    requires At(k, me, peerSent) && CanMove(me.party, SendSome(n), peerSent[me.took..])
    ensures At(k, Moving(x, role, me, SendSome(n), peerSent), peerSent)
  {
    var out := me.party.out;
    assert me.sent + out[..n] + out[n..] == me.sent + out;
  }

  lemma ReturnFollows(x: Setup, role: Role, k: Mark, next: Mark, me: Side, peerSent: seq<byte>)
    requires At(k, me, peerSent) && CanMove(me.party, Return, peerSent[me.took..])
    requires AfterSend(x.suite, x.DrawsOf(role), me.party) == next.stage
    requires next.sent == k.sent + next.stage.out && next.took == k.took
    requires next.stage.buf == [] && (!next.stage.pc.Sending() ==> next.stage.out == [])
    ensures At(next, Moving(x, role, me, Return, peerSent), peerSent)
  {
    assert me.sent + [] == me.sent && k.took + [] == k.took;
  }

  lemma SendStaysOnScript(x: Setup, role: Role, me: Side, m: Move, peerSent: seq<byte>)
    requires x.Honest() && OnScript(x, role, me, peerSent) && !m.ReceiveSome?
    requires CanMove(me.party, m, peerSent[me.took..])
    ensures OnScript(x, role, Moving(x, role, me, m, peerSent), peerSent)
  {
    var pc := me.party.pc;
    if m.Return? {
      SendsAsScripted(x, role, pc);
      assert me.party == Stage(x, role, pc).(out := []);
      ReturnFollows(x, role, MarkAt(x, role, pc), MarkAt(x, role, Next(pc)), me, peerSent);
    } else {
      SendFollows(x, role, MarkAt(x, role, pc), me, m.n, peerSent);
    }
  }

  lemma MoreFromPeer(k: Mark, me: Side, peerSent: seq<byte>, more: seq<byte>)
    requires At(k, me, peerSent)
    ensures At(k, me, peerSent + more)
  {
    assert (peerSent + more)[..me.took] == peerSent[..me.took];
  }

  lemma SideStays(x: Setup, role: Role, me: Side, m: Move, peerSent: seq<byte>)
    requires x.Honest() && OnScript(x, role, me, peerSent) && peerSent <= Total(x, Other(role))
    requires CanMove(me.party, m, peerSent[me.took..])
    ensures OnScript(x, role, Moving(x, role, me, m, peerSent), peerSent)
  {
    if m.ReceiveSome? {
      ReceiveStaysOnScript(x, role, me, m.n, peerSent);
    } else {
      SendStaysOnScript(x, role, me, m, peerSent);
    }
  }

  /** Every step of either role keeps both on the script. */
  lemma StepKeepsInv(x: Setup, p: Pair, role: Role, m: Move)
    requires x.Honest() && Inv(x, p) && Enabled(p, role, m)
    ensures Inv(x, Step(x, p, role, m))
  {
    var me, peer := p.Of(role), p.Of(Other(role));
    SentIsPrefix(x, Other(role), peer, me.sent);
    SideStays(x, role, me, m, peer.sent);
    var r := Do(x.suite, x.DrawsOf(role), me.party, m, peer.sent[me.took..]);
    MoreFromPeer(MarkAt(x, Other(role), peer.party.pc), peer, me.sent, r.sent);
  }

  lemma InitialOnScript(x: Setup)
    ensures Inv(x, Initial(x))
  {
    assert [] + F1(x) == F1(x);
  }

  lemma {:induction false} RunKeepsInv(x: Setup, p: Pair, moves: seq<(Role, Move)>)
    requires x.Honest() && Inv(x, p) && Run(x, p, moves).Some?
    ensures Inv(x, Run(x, p, moves).value)
    decreases |moves|
  {
    if moves != [] {
      StepKeepsInv(x, p, moves[0].0, moves[0].1);
      RunKeepsInv(x, Step(x, p, moves[0].0, moves[0].1), moves[1..]);
    }
  }
}
