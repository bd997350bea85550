/** What every run of an honest pair guarantees: agreement, progress, and how far the state fields lag behind. */
module Agreement {
  import opened Bytes
  import opened Crypto
  import opened Packet
  import opened Handshake
  import opened Party
  import opened Protocol

  /** The two sessions use the same keys, crosswise, and each holds the other's identity. */
  ghost predicate KeysAgree(c: SessionData, s: SessionData) {
    && c.crypto.txKey == s.crypto.rxKey && c.crypto.rxKey == s.crypto.txKey
    && c.crypto.peerPublic == s.crypto.publicKey && s.crypto.peerPublic == c.crypto.publicKey
  }

  lemma FrameLengths(x: Setup)
    ensures |F1(x)| == 8 && |F2(x)| == 8 && |F3(x)| == 152 && |F4(x)| == 136 && |F5(x)| == 48
    ensures |Total(x, Client)| == 144 && |Total(x, Server)| == 208
  {
  }

  /** A side that has read everything has a peer that has written everything. */
  lemma DoneSide(x: Setup, p: Pair, role: Role)
    requires Inv(x, p) && p.Of(role).party.pc.Done?
    ensures p.Of(Other(role)).sent == Total(x, Other(role)) && p.Of(Other(role)).party.out == []
  {
    var me, peer := p.Of(role), p.Of(Other(role));
    SentIsPrefix(x, Other(role), peer, me.sent);
    assert peer.sent[..me.took] == Total(x, Other(role)) + [] == Total(x, Other(role));
    assert |peer.sent| == |Total(x, Other(role))|;
    var k := MarkAt(x, Other(role), peer.party.pc);
    assert |k.sent| <= |Total(x, Other(role))| by {
      FrameLengths(x);
    }
  }

  lemma StateTellsPc(x: Setup, role: Role, me: Side, peerSent: seq<byte>)
    requires OnScript(x, role, me, peerSent)
    ensures me.party.data.state == Established <==> me.party.pc.Done?
  {
  }

  /** The state field at each control point of the two programs. */
  lemma StatesByPc(x: Setup, moves: seq<(Role, Move)>)
    requires x.Honest() && Run(x, Initial(x), moves).Some?
    ensures var p := Run(x, Initial(x), moves).value;
            var (c, s) := (p.client.party, p.server.party);
            && (c.pc.CSendHello? || c.pc.CWaitHello? || c.pc.CWaitRequest? || c.pc.CSendResponse?
                <==> c.data.state == Connecting)
            && (c.pc.CWaitSuccess? <==> c.data.state == WaitAuth) && (c.pc.Done? <==> c.data.state == Established)
            && (s.pc.SWaitHello? || s.pc.SSendHello? <==> s.data.state == Connecting)
            && (s.pc.SSendRequest? || s.pc.SWaitResponse? || s.pc.SSendSuccess? <==> s.data.state == WaitAuth)
            && (s.pc.Done? <==> s.data.state == Established)
  {
    InitialOnScript(x);
    RunKeepsInv(x, Initial(x), moves);
    var p := Run(x, Initial(x), moves).value;
    ClientStates(x, p.client, p.server.sent);
    ServerStates(x, p.server, p.client.sent);
  }

  lemma ClientStates(x: Setup, me: Side, peerSent: seq<byte>)
    requires OnScript(x, Client, me, peerSent)
    ensures var c := me.party;
            && (c.pc.CSendHello? || c.pc.CWaitHello? || c.pc.CWaitRequest? || c.pc.CSendResponse?
                <==> c.data.state == Connecting)
            && (c.pc.CWaitSuccess? <==> c.data.state == WaitAuth) && (c.pc.Done? <==> c.data.state == Established)
  {
  }

  lemma ServerStates(x: Setup, me: Side, peerSent: seq<byte>)
    requires OnScript(x, Server, me, peerSent)
    ensures var s := me.party;
            && (s.pc.SWaitHello? || s.pc.SSendHello? <==> s.data.state == Connecting)
            && (s.pc.SSendRequest? || s.pc.SWaitResponse? || s.pc.SSendSuccess? <==> s.data.state == WaitAuth)
            && (s.pc.Done? <==> s.data.state == Established)
  {
  }

  /**
   * The streams may be cut anywhere: a role that sends may hand over any number of its bytes, and one that waits
   * may take any number, up to the end of the header or of the frame that it is reading.
   */
  lemma CutsAreFree(x: Setup, p: Pair, role: Role, n: nat)
    requires x.Honest() && Inv(x, p) && n >= 1
    ensures var (me, peer) := (p.Of(role), p.Of(Other(role)));
            && (me.party.pc.Sending() ==> (Enabled(p, role, SendSome(n)) <==> n <= |me.party.out|))
            && (me.party.pc.Waiting() ==>
                  var frame := Awaited(x, role, me.party.pc);
                  var goal := if |me.party.buf| < 8 then 8 else 8 + |frame.0.payload|;
                  Enabled(p, role, ReceiveSome(n)) <==> |me.party.buf| + n <= goal && me.took + n <= |peer.sent|)
  {
    var me := p.Of(role);
    if me.party.pc.Waiting() {
      ReceivesAsScripted(x, role, me.party.pc);
      AsksForRest(x, role, me, p.Of(Other(role)).sent);
    }
  }

  lemma AsksForRest(x: Setup, role: Role, me: Side, peerSent: seq<byte>)
    requires OnScript(x, role, me, peerSent) && me.party.pc.Waiting()
    requires Awaited(x, role, me.party.pc).0.Acceptable()
    ensures var k := Awaited(x, role, me.party.pc).0;
            Missing(me.party.buf) == (if |me.party.buf| < 8 then 8 else 8 + |k.payload|) - |me.party.buf|
  {
    var (k, pad) := Awaited(x, role, me.party.pc);
    PrefixIsTruncated(k, pad, me.party.buf);
  }

  /**
   * In every interleaving, once the client is ESTABLISHED the server has verified it and both hold the same
   * keys, identities, session id and session nonce.
   */
  lemma ClientEstablishedAgrees(x: Setup, moves: seq<(Role, Move)>)
    requires x.Honest() && Run(x, Initial(x), moves).Some?
    ensures var p := Run(x, Initial(x), moves).value;
            var (c, s) := (p.client.party.data, p.server.party.data);
            c.state == Established ==>
              && s.crypto.verified && KeysAgree(c, s)
              && c.sessionId == s.sessionId && c.sessionNonce == s.sessionNonce
              && c.crypto.publicKey == x.client.public && s.crypto.publicKey == x.server.public
              && (p.server.party.pc.SSendSuccess? || s.state == Established)
  {
    InitialOnScript(x);
    RunKeepsInv(x, Initial(x), moves);
    var p := Run(x, Initial(x), moves).value;
    StateTellsPc(x, Client, p.client, p.server.sent);
    StateTellsPc(x, Server, p.server, p.client.sent);
    if p.client.party.pc.Done? {
      DoneSide(x, p, Client);
      FrameLengths(x);
      assert |SentBy(x, Server, p.server.party.pc)| == |Total(x, Server)|;
    }
  }

  /**
   * Once the server is ESTABLISHED the client holds the same keys. Its state is then WAIT_AUTH or ESTABLISHED
   * exactly when its packet_send of the response has returned.
   */
  lemma ServerEstablishedAgrees(x: Setup, moves: seq<(Role, Move)>)
    requires x.Honest() && Run(x, Initial(x), moves).Some?
    ensures var p := Run(x, Initial(x), moves).value;
            var (c, s) := (p.client.party.data, p.server.party.data);
            s.state == Established ==>
              && s.crypto.verified && KeysAgree(c, s)
              && c.crypto.publicKey == x.client.public && s.crypto.publicKey == x.server.public
              && p.client.sent == Total(x, Client)
              && (c.state == WaitAuth || c.state == Established <==> !p.client.party.pc.CSendResponse?)
              && (c.state == Established ==> c.sessionId == s.sessionId && c.sessionNonce == s.sessionNonce)
  {
    InitialOnScript(x);
    RunKeepsInv(x, Initial(x), moves);
    var p := Run(x, Initial(x), moves).value;
    StateTellsPc(x, Server, p.server, p.client.sent);
    if p.server.party.pc.Done? {
      DoneSide(x, p, Server);
      FrameLengths(x);
      assert |SentBy(x, Client, p.client.party.pc)| == |Total(x, Client)|;
    }
  }

  // ---- sockets that fail ----

  /** A move of a role, or a send or receive of its that fails and ends it. */
  datatype Event = Makes(m: Move) | Breaks

  /** The pair as it was when each role last moved, and who has been stopped by a failure. */
  datatype Joint = Joint(pair: Pair, broken: set<Role>)

  /** The role is in a send or receive call, which may fail: it has bytes to hand over, or awaits some. */
  predicate InCall(p: Party) {
    (p.pc.Sending() && p.out != []) || p.pc.Waiting()
  }

  function Happens(x: Setup, j: Joint, role: Role, e: Event): Option<Joint> {
    if role in j.broken then None
    else match e
         case Breaks => if InCall(j.pair.Of(role).party) then Some(j.(broken := j.broken + {role})) else None
         case Makes(m) => if Enabled(j.pair, role, m) then Some(j.(pair := Step(x, j.pair, role, m))) else None
  }

  /** Any call of either role may fail at any time. */
  lemma AnyCallMayFail(x: Setup, j: Joint, role: Role)
    requires role !in j.broken
    requires var p := j.pair.Of(role).party; p.pc.Waiting() || (p.pc.Sending() && |p.out| > 0)
    ensures Happens(x, j, role, Breaks) == Some(Joint(j.pair, j.broken + {role}))
  {
  }

  function Course(x: Setup, j: Joint, events: seq<(Role, Event)>): Option<Joint>
    decreases |events|
  {
    if events == [] then Some(j)
    else match Happens(x, j, events[0].0, events[0].1)
         case None => None
         case Some(j') => Course(x, j', events[1..])
  }

  function MovesOf(events: seq<(Role, Event)>): seq<(Role, Move)> {
    if events == [] then []
    else (if events[0].1.Makes? then [(events[0].0, events[0].1.m)] else []) + MovesOf(events[1..])
  }

  /** A course with failures reaches only pairs that a run without them reaches. */
  lemma {:induction false} CourseIsRun(x: Setup, j: Joint, events: seq<(Role, Event)>)
    requires Course(x, j, events).Some?
    ensures Run(x, j.pair, MovesOf(events)) == Some(Course(x, j, events).value.pair)
    decreases |events|
  {
    if events != [] {
      var (role, e) := events[0];
      var j' := Happens(x, j, role, e).value;
      CourseIsRun(x, j', events[1..]);
      if e.Makes? {
        RunOneMore(x, j.pair, role, e.m, MovesOf(events[1..]));
      } else {
        assert [] + MovesOf(events[1..]) == MovesOf(events[1..]);
      }
    }
  }

  ghost predicate BrokenInCall(j: Joint) {
    forall role <- j.broken :: InCall(j.pair.Of(role).party)
  }

  /** A role that has failed stays where its call failed. */
  lemma {:induction false} CourseKeepsBroken(x: Setup, j: Joint, events: seq<(Role, Event)>)
    requires BrokenInCall(j) && Course(x, j, events).Some?
    ensures BrokenInCall(Course(x, j, events).value)
    decreases |events|
  {
    if events != [] {
      HappensKeepsBroken(x, j, events[0].0, events[0].1);
      CourseKeepsBroken(x, Happens(x, j, events[0].0, events[0].1).value, events[1..]);
    }
  }

  lemma HappensKeepsBroken(x: Setup, j: Joint, role: Role, e: Event)
    requires BrokenInCall(j) && Happens(x, j, role, e).Some?
    ensures BrokenInCall(Happens(x, j, role, e).value)
  {
    var j' := Happens(x, j, role, e).value;
    forall r <- j'.broken ensures InCall(j'.pair.Of(r).party) {
      if e.Makes? {
        assert r != role && j'.pair.Of(r) == j.pair.Of(r);
      }
    }
  }

  /** Once the client is ESTABLISHED the server is in no call that could still fail. */
  lemma ServerIsPastItsCalls(x: Setup, p: Pair)
    requires Inv(x, p) && p.client.party.data.state == Established
    requires p.server.party.pc.SSendSuccess? || p.server.party.data.state == Established
    ensures !InCall(p.server.party)
  {
    StateTellsPc(x, Client, p.client, p.server.sent);
    StateTellsPc(x, Server, p.server, p.client.sent);
    DoneSide(x, p, Client);
  }

  /**
   * Whenever and however often sends and receives fail, a client that is ESTABLISHED agrees with its server, and
   * that server has not failed, so its session has not been destroyed; likewise the server's own session.
   */
  lemma AgreementSurvivesFailures(x: Setup, events: seq<(Role, Event)>)
    requires x.Honest() && Course(x, Joint(Initial(x), {}), events).Some?
    ensures var j := Course(x, Joint(Initial(x), {}), events).value;
            var (c, s) := (j.pair.client.party.data, j.pair.server.party.data);
            && (c.state == Established ==>
                  && Server !in j.broken && Client !in j.broken && s.crypto.verified && KeysAgree(c, s)
                  && c.sessionId == s.sessionId && c.sessionNonce == s.sessionNonce)
            && (s.state == Established ==>
                  Server !in j.broken && s.crypto.verified && KeysAgree(c, s) && j.pair.client.sent == Total(x, Client))
  {
    var start := Joint(Initial(x), {});
    CourseIsRun(x, start, events);
    CourseKeepsBroken(x, start, events);
    ClientEstablishedAgrees(x, MovesOf(events));
    ServerEstablishedAgrees(x, MovesOf(events));
    InitialOnScript(x);
    RunKeepsInv(x, Initial(x), MovesOf(events));
    var p := Course(x, start, events).value.pair;
    StateTellsPc(x, Client, p.client, p.server.sent);
    StateTellsPc(x, Server, p.server, p.client.sent);
    if p.client.party.data.state == Established {
      ServerIsPastItsCalls(x, p);
    }
  }

  // ---- progress ----

  predicate BothDone(p: Pair) {
    p.client.party.pc.Done? && p.server.party.pc.Done?
  }

  /** Neither role can be waiting for bytes that are not there unless the other can still send. */
  lemma NobodyStarves(x: Setup, p: Pair)
    requires Inv(x, p) && !BothDone(p)
    requires !p.client.party.pc.Sending() && !p.server.party.pc.Sending()
    ensures (p.client.party.pc.Waiting() && p.client.took < |p.server.sent|)
         || (p.server.party.pc.Waiting() && p.server.took < |p.client.sent|)
  {
    FrameLengths(x);
    var c, s := p.client, p.server;
    assert |c.sent| == |SentBy(x, Client, c.party.pc)| && |s.sent| == |SentBy(x, Server, s.party.pc)|;
    assert c.took == |TookBy(x, Client, c.party.pc)| + |c.party.buf|;
    assert s.took == |TookBy(x, Server, s.party.pc)| + |s.party.buf|;
  }

  function PickSend(p: Party): Move {
    if p.out == [] then Return else SendSome(1)
  }

  /** Some step that is enabled. */
  function Pick(p: Pair): (Role, Move) {
    if p.client.party.pc.Sending() then (Client, PickSend(p.client.party))
    else if p.server.party.pc.Sending() then (Server, PickSend(p.server.party))
    else if p.client.party.pc.Waiting() && p.client.took < |p.server.sent| then (Client, ReceiveSome(1))
    else (Server, ReceiveSome(1))
  }

  lemma SideCanMove(x: Setup, role: Role, me: Side, peerSent: seq<byte>)
    requires x.Honest() && OnScript(x, role, me, peerSent)
    ensures me.party.pc.Sending() ==> CanMove(me.party, PickSend(me.party), peerSent[me.took..])
    ensures me.party.pc.Waiting() && me.took < |peerSent| ==> CanMove(me.party, ReceiveSome(1), peerSent[me.took..])
  {
    if me.party.pc.Waiting() {
      ReceivesAsScripted(x, role, me.party.pc);
      var (k, pad) := Awaited(x, role, me.party.pc);
      PrefixIsTruncated(k, pad, me.party.buf);
    }
  }

  /** Unless both are established, some step is enabled. */
  lemma NoDeadlock(x: Setup, p: Pair)
    requires x.Honest() && Inv(x, p) && !BothDone(p)
    ensures var (role, m) := Pick(p); Enabled(p, role, m)
  {
    if !p.client.party.pc.Sending() && !p.server.party.pc.Sending() {
      NobodyStarves(x, p);
    }
    SideCanMove(x, Client, p.client, p.server.sent);
    SideCanMove(x, Server, p.server, p.client.sent);
  }

  /** Bytes still to be sent and to be taken, and control points still ahead. */
  function Remaining(x: Setup, p: Pair): int {
    2 * |Total(x, Client)| - |p.client.sent| - p.server.took + p.client.party.pc.Rank() +
    2 * |Total(x, Server)| - |p.server.sent| - p.client.took + p.server.party.pc.Rank()
  }

  lemma RemainingIsNonNegative(x: Setup, p: Pair)
    requires Inv(x, p)
    ensures Remaining(x, p) >= 0
    ensures Remaining(x, p) == 0 ==> BothDone(p)
  {
    SentIsPrefix(x, Client, p.client, p.server.sent);
    SentIsPrefix(x, Server, p.server, p.client.sent);
  }

  lemma RankFalls(x: Setup, role: Role, p: Party, m: Move, unread: seq<byte>)
    requires CanMove(p, m, unread)
    ensures Do(x.suite, x.DrawsOf(role), p, m, unread).party.pc.Rank() <= p.pc.Rank()
    ensures m.Return? ==> Do(x.suite, x.DrawsOf(role), p, m, unread).party.pc.Rank() < p.pc.Rank()
  {
    match m
    case SendSome(_) =>
    case ReceiveSome(n) => AbsorbRank(x.suite, x.DrawsOf(role), p, p.buf + unread[..n]);
    case Return => AfterSendRank(x.suite, x.DrawsOf(role), p);
  }

  lemma AbsorbRank(suite: Suite, draws: Draws, p: Party, b: seq<byte>)
    requires p.pc.Waiting()
    ensures Absorb(suite, draws, p, b).pc.Rank() <= p.pc.Rank()
  {
  }

  lemma AfterSendRank(suite: Suite, draws: Draws, p: Party)
    requires p.pc.Sending()
    ensures AfterSend(suite, draws, p).pc.Rank() < p.pc.Rank()
  {
  }

  /** Every step makes progress. */
  lemma StepDecreases(x: Setup, p: Pair, role: Role, m: Move)
    requires Enabled(p, role, m)
    ensures Remaining(x, Step(x, p, role, m)) < Remaining(x, p)
  {
    var me, peer := p.Of(role), p.Of(Other(role));
    RankFalls(x, role, me.party, m, peer.sent[me.took..]);
  }

  lemma {:induction false} RunDecreases(x: Setup, p: Pair, moves: seq<(Role, Move)>)
    requires x.Honest() && Inv(x, p) && Run(x, p, moves).Some?
    ensures Inv(x, Run(x, p, moves).value)
    ensures Remaining(x, Run(x, p, moves).value) + |moves| <= Remaining(x, p)
    decreases |moves|
  {
    if moves != [] {
      StepKeepsInv(x, p, moves[0].0, moves[0].1);
      StepDecreases(x, p, moves[0].0, moves[0].1);
      RunDecreases(x, Step(x, p, moves[0].0, moves[0].1), moves[1..]);
    }
  }

  lemma DoneIsFinal(x: Setup, role: Role, me: Side, peerSent: seq<byte>)
    requires OnScript(x, role, me, peerSent) && me.party.pc.Done?
    ensures me.party.data == if role == Client then ClientFinal(x) else ServerFinal(x)
  {
  }

  lemma FinalsAgree(x: Setup)
    ensures KeysAgree(ClientFinal(x), ServerFinal(x)) && ServerFinal(x).crypto.verified
    ensures ClientFinal(x).state == Established && ServerFinal(x).state == Established
    ensures ClientFinal(x).sessionId == ServerFinal(x).sessionId == x.serverId
    ensures ClientFinal(x).sessionNonce == ServerFinal(x).sessionNonce
  {
  }

  /**
   * No run takes more than 714 steps, and a run that cannot be extended has both ESTABLISHED, with the
   * sessions on which FinalsAgree.
   */
  lemma MaximalRunsEstablish(x: Setup, moves: seq<(Role, Move)>)
    requires x.Honest() && Run(x, Initial(x), moves).Some?
    ensures |moves| <= 714
    ensures var p := Run(x, Initial(x), moves).value;
            (forall role, m :: !Enabled(p, role, m)) ==>
              && p.client.party.data == ClientFinal(x) && p.server.party.data == ServerFinal(x)
              && p.client.party.data.state == Established && p.server.party.data.state == Established
  {
    InitialOnScript(x);
    RunDecreases(x, Initial(x), moves);
    var p := Run(x, Initial(x), moves).value;
    RemainingIsNonNegative(x, p);
    InitialRemaining(x);
    if forall role, m :: !Enabled(p, role, m) {
      StuckIsEstablished(x, p);
    }
  }

  lemma StuckIsEstablished(x: Setup, p: Pair)
    requires x.Honest() && Inv(x, p) && forall role, m :: !Enabled(p, role, m)
    ensures p.client.party.data == ClientFinal(x) && p.server.party.data == ServerFinal(x)
    ensures p.client.party.data.state == Established && p.server.party.data.state == Established
  {
    if !BothDone(p) {
      NoDeadlock(x, p);
    }
    FinalsAgree(x);
    DoneIsFinal(x, Client, p.client, p.server.sent);
    DoneIsFinal(x, Server, p.server, p.client.sent);
  }

  lemma InitialRemaining(x: Setup)
    ensures Remaining(x, Initial(x)) == 714
  {
    FrameLengths(x);
  }

  // ---- the client's state field can lag behind the server's ----

  lemma RunOneMore(x: Setup, p: Pair, role: Role, m: Move, moves: seq<(Role, Move)>)
    requires Enabled(p, role, m)
    ensures Run(x, p, [(role, m)] + moves) == Run(x, Step(x, p, role, m), moves)
  {
    assert ([(role, m)] + moves)[1..] == moves;
  }

  predicate ResponseHandedOver(p: Pair) {
    p.client.party.pc.CSendResponse? && p.client.party.out == []
  }

  predicate Holding(p: Pair) {
    p.client.party.pc.Rank() >= 2
  }

  /** A step that does not let the client's send of its response return. */
  lemma StepThatHolds(x: Setup, p: Pair) returns (role: Role, m: Move)
    requires x.Honest() && Inv(x, p) && Holding(p) && !(ResponseHandedOver(p) && p.server.party.pc.Done?)
    ensures Enabled(p, role, m) && !(ResponseHandedOver(p) && role == Client)
  {
    role, m := Pick(p).0, Pick(p).1;
    NoDeadlock(x, p);
    if ResponseHandedOver(p) {
      SideCanMove(x, Server, p.server, p.client.sent);
      role, m := Server, PickSend(p.server.party);
      if p.server.party.pc.Waiting() {
        FrameLengths(x);
        assert |p.client.sent| == 144;
        assert p.server.took == |TookBy(x, Server, p.server.party.pc)| + |p.server.party.buf|;
        m := ReceiveSome(1);
      }
    }
  }

  lemma StillHolding(x: Setup, p: Pair, role: Role, m: Move)
    requires x.Honest() && Inv(x, p) && Holding(p) && Enabled(p, role, m) && !(ResponseHandedOver(p) && role == Client)
    ensures Inv(x, Step(x, p, role, m)) && Holding(Step(x, p, role, m))
  {
    StepKeepsInv(x, p, role, m);
    if role == Client {
      ClientStillHolding(x, p, m);
    }
  }

  lemma ClientStillHolding(x: Setup, p: Pair, m: Move)
    requires Inv(x, p) && Holding(p) && Enabled(p, Client, m) && !ResponseHandedOver(p)
    requires Inv(x, Step(x, p, Client, m))
    ensures Holding(Step(x, p, Client, m))
  {
    RankFallsSlowly(x, Client, p.client.party, m, p.server.sent[p.client.took..]);
  }

  /** Hold the client just before its packet_send returns: the server can still finish. */
  lemma {:induction false} HoldClient(x: Setup, p: Pair) returns (moves: seq<(Role, Move)>)
    requires x.Honest() && Inv(x, p) && Holding(p)
    ensures Run(x, p, moves).Some?
    ensures var q := Run(x, p, moves).value; Inv(x, q) && ResponseHandedOver(q) && q.server.party.pc.Done?
    decreases Remaining(x, p)
  {
    moves := [];
    RemainingIsNonNegative(x, p);
    if !(ResponseHandedOver(p) && p.server.party.pc.Done?) {
      var role, m := StepThatHolds(x, p);
      StillHolding(x, p, role, m);
      StepDecreases(x, p, role, m);
      RemainingIsNonNegative(x, Step(x, p, role, m));
      var rest := HoldClient(x, Step(x, p, role, m));
      RunOneMore(x, p, role, m, rest);
      moves := [(role, m)] + rest;
    }
  }

  lemma RankFallsSlowly(x: Setup, role: Role, p: Party, m: Move, unread: seq<byte>)
    requires CanMove(p, m, unread) && !Do(x.suite, x.DrawsOf(role), p, m, unread).party.pc.Failed?
    ensures Do(x.suite, x.DrawsOf(role), p, m, unread).party.pc.Rank() >= p.pc.Rank() - 1
    ensures m.SendSome? ==> Do(x.suite, x.DrawsOf(role), p, m, unread).party.pc == p.pc
  {
  }

  lemma HandedOverIsConnecting(x: Setup, me: Side, peerSent: seq<byte>)
    requires OnScript(x, Client, me, peerSent) && me.party.pc.CSendResponse?
    ensures me.party.data.state == Connecting
  {
  }

  /**
   * "Server ESTABLISHED implies client in WAIT_AUTH or ESTABLISHED" is not quite true of the state fields:
   * every honest pair has a run in which the server is ESTABLISHED while the client is still CONNECTING,
   * because the client assigns WAIT_AUTH only after its packet_send has returned.
   */
  lemma ClientStateCanLag(x: Setup) returns (moves: seq<(Role, Move)>)
    requires x.Honest()
    ensures Run(x, Initial(x), moves).Some?
    ensures var p := Run(x, Initial(x), moves).value;
            p.server.party.data.state == Established && p.client.party.data.state == Connecting
  {
    InitialOnScript(x);
    moves := HoldClient(x, Initial(x));
    var p := Run(x, Initial(x), moves).value;
    HandedOverIsConnecting(x, p.client, p.server.sent);
    StateTellsPc(x, Server, p.server, p.client.sent);
  }
}
