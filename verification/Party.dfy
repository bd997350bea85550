/**
 * One role of the handshake as a machine that moves bytes: send_all hands over any number of bytes at a
 * time, recv_all takes any number at a time, and the computation of Handshake.dfy happens in between.
 */
module Party {
  import opened Bytes
  import opened Crypto
  import opened Packet
  import opened Handshake

  datatype Pc =
    | SWaitHello | SSendHello | SSendRequest | SWaitResponse | SSendSuccess
    | CSendHello | CWaitHello | CWaitRequest | CSendResponse | CWaitSuccess
    | Done | Failed
  {
    predicate Sending() { SSendHello? || SSendRequest? || SSendSuccess? || CSendHello? || CSendResponse? }

    predicate Waiting() { SWaitHello? || SWaitResponse? || CWaitHello? || CWaitRequest? || CWaitSuccess? }

    /** How many control points are still ahead. */
    function Rank(): nat {
      match this
      case SWaitHello => 5 case SSendHello => 4 case SSendRequest => 3 case SWaitResponse => 2 case SSendSuccess => 1
      case CSendHello => 5 case CWaitHello => 4 case CWaitRequest => 3 case CSendResponse => 2 case CWaitSuccess => 1
      case Done => 0 case Failed => 0
    }
  }

  /**
   * `out` is what send_all still has to hand over, `buf` what recv_all has of the current frame, and
   * `pin` the key that was given to crypto_trust_key_save, if any.
   */
  datatype Party = Party(pc: Pc, data: SessionData, out: seq<byte>, buf: seq<byte>, pin: Option<Key>) {
    predicate Valid() {
      && (!pc.Sending() ==> out == [])
      && (if pc.Waiting() then ParseFrame(buf).Truncated? else buf == [])
    }
  }

  function Fail(p: Party, d: SessionData): Party {
    p.(pc := Failed, data := d, out := [], buf := [])
  }

  function ServerStart(d: SessionData): Party {
    Party(SWaitHello, d, [], [], None)
  }

  function ClientStart(draws: Draws, d: SessionData): Party {
    Party(CSendHello, d, FrameBytes(Packet(CURRENT_VERSION, CLIENT_HELLO, []), draws.pad1), [], None)
  }

  /** A packet_send has returned zero. */
  function AfterSend(suite: Suite, draws: Draws, p: Party): Party
    requires p.pc.Sending()
  {
    var d := p.data;
    match p.pc
    case SSendHello =>
      var (d1, request) := PrepareChallenge(suite, draws, d.(state := WaitAuth));
      if request.None? then Fail(p, d1)
      else p.(pc := SSendRequest, data := d1, out := FrameBytes(request.value, draws.pad2))
    case SSendRequest => p.(pc := SWaitResponse, data := d.(state := WaitAuth), out := [])
    case SSendSuccess => p.(pc := Done, data := d.(state := Established), out := [])
    case CSendHello => p.(pc := CWaitHello, out := [])
    case CSendResponse => p.(pc := CWaitSuccess, data := d.(state := WaitAuth), out := [])
  }

  /** A packet_receive has returned zero, with packet k. */
  function OnPacket(suite: Suite, draws: Draws, p: Party, k: Packet): Party
    requires p.pc.Waiting()
  {
    var d := p.data;
    var q := p.(buf := []);
    match p.pc
    case SWaitHello =>
      if k.typ != CLIENT_HELLO || k.version != CURRENT_VERSION then Fail(q, d)
      else q.(pc := SSendHello, out := FrameBytes(Packet(d.protocolVersion, SERVER_HELLO, []), draws.pad1))
    case SWaitResponse =>
      var (d1, verified) := VerifyResponse(suite, d, k);
      if !verified then Fail(q, d1)
      else
        var d2 := d1.(sessionNonce := draws.sessionNonce);
        q.(pc := SSendSuccess, data := d2, out := FrameBytes(SuccessPacket(d2), draws.pad3))
    case CWaitHello =>
      if k.typ != SERVER_HELLO || k.version != CURRENT_VERSION then Fail(q, d)
      else q.(pc := CWaitRequest)
    case CWaitRequest =>
      var a := AnswerChallenge(suite, draws, d, k);
      if a.reply.None? then Fail(q, a.data).(pin := a.pin)
      else q.(pc := CSendResponse, data := a.data, out := FrameBytes(a.reply.value, draws.pad2), pin := a.pin)
    case CWaitSuccess =>
      var (d1, accepted) := AcceptSuccess(d, k);
      if !accepted then Fail(q, d1) else q.(pc := Done, data := d1)
  }

  // ---- moves ----

  datatype Move =
    | SendSome(n: nat)     // one send call inside send_all
    | ReceiveSome(n: nat)  // one recv call inside recv_all
    | Return               // send_all returns, and the role computes up to its next socket call

  /** `unread` is what the peer has sent and this role has not taken. */
  predicate CanMove(p: Party, m: Move, unread: seq<byte>) {
    match m
    case SendSome(n) => p.pc.Sending() && 1 <= n <= |p.out|
    case ReceiveSome(n) => p.pc.Waiting() && 1 <= n <= Missing(p.buf) && n <= |unread|
    case Return => p.pc.Sending() && p.out == []
  }

  /** recv_all has `b` of the current frame. */
  function Absorb(suite: Suite, draws: Draws, p: Party, b: seq<byte>): Party
    requires p.pc.Waiting()
  {
    match ParseFrame(b)
    case Truncated => p.(buf := b)
    case Rejected => Fail(p, p.data)
    case Parsed(k, _) => OnPacket(suite, draws, p, k)
  }

  /** The role after the move, what the move sent, and how much it took. */
  datatype Moved = Moved(party: Party, sent: seq<byte>, took: nat)

  function Do(suite: Suite, draws: Draws, p: Party, m: Move, unread: seq<byte>): Moved
    requires CanMove(p, m, unread)
  {
    match m
    case SendSome(n) => Moved(p.(out := p.out[n..]), p.out[..n], 0)
    case ReceiveSome(n) => Moved(Absorb(suite, draws, p, p.buf + unread[..n]), [], n)
    case Return => Moved(AfterSend(suite, draws, p), [], 0)
  }

  lemma MovesKeepValid(suite: Suite, draws: Draws, p: Party, m: Move, unread: seq<byte>)
    requires p.Valid() && CanMove(p, m, unread)
    ensures Do(suite, draws, p, m, unread).party.Valid()
  {
  }

  // ---- the role run to its end on a given stream ----

  datatype Outcome = Outcome(party: Party, sent: seq<byte>, rest: seq<byte>)

  function Exec(suite: Suite, draws: Draws, p: Party, input: seq<byte>): Outcome
    decreases p.pc.Rank()
  {
    if p.pc.Sending() then
      var o := Exec(suite, draws, AfterSend(suite, draws, p), input);
      o.(sent := p.out + o.sent)
    else if p.pc.Waiting() then
      match ParseFrame(input)
      case Parsed(k, n) => Exec(suite, draws, OnPacket(suite, draws, p, k), input[n..])
      case _ => Outcome(Fail(p, p.data), [], [])
    else Outcome(p, [], if p.pc.Done? then input else [])
  }

  /** Exec, one step at a time. */
  lemma ExecSend(suite: Suite, draws: Draws, p: Party, input: seq<byte>)
    requires p.pc.Sending()
    ensures var (o, q) := (Exec(suite, draws, p, input), Exec(suite, draws, AfterSend(suite, draws, p), input));
            o == q.(sent := p.out + q.sent)
  {
  }

  lemma ExecPacket(suite: Suite, draws: Draws, p: Party, input: seq<byte>)
    requires p.pc.Waiting() && ParseFrame(input).Parsed?
    ensures var r := ParseFrame(input);
            Exec(suite, draws, p, input) == Exec(suite, draws, OnPacket(suite, draws, p, r.packet), input[r.size..])
  {
  }

  lemma ExecEnd(suite: Suite, draws: Draws, p: Party, input: seq<byte>)
    requires p.pc.Done? || p.pc.Failed?
    ensures Exec(suite, draws, p, input) == Outcome(p, [], if p.pc.Done? then input else [])
  {
  }

  ghost predicate Agree(o: Outcome, r: Result) {
    && (o.party.pc.Done? <==> r.ok) && o.party.data == r.data && o.party.pin == r.pin
    && o.sent == r.sent && (r.ok ==> o.rest == r.rest)
  }

  /** The machine computes what session_server_connect computes. */
  lemma ExecServer(suite: Suite, draws: Draws, d: SessionData, s: seq<byte>)
    ensures Agree(Exec(suite, draws, ServerStart(d), s), ServerRun(suite, draws, d, s))
  {
    var r := ParseFrame(s);
    if r.Parsed? {
      ExecPacket(suite, draws, ServerStart(d), s);
      var p1 := OnPacket(suite, draws, ServerStart(d), r.packet);
      var rest := s[r.size..];
      if p1.pc.Failed? {
        ExecEnd(suite, draws, p1, rest);
      } else {
        ExecSend(suite, draws, p1, rest);
        ExecServerAuthenticate(suite, draws, p1, rest);
      }
    }
  }

  lemma ExecServerAuthenticate(suite: Suite, draws: Draws, p: Party, s: seq<byte>)
    requires p.pc == SSendHello && p.buf == [] && p.pin == None
    ensures Agree(Exec(suite, draws, AfterSend(suite, draws, p), s),
                  ServerAuthenticate(suite, draws, p.data.(state := WaitAuth), s))
  {
    var p2 := AfterSend(suite, draws, p);
    if p2.pc.Failed? {
      ExecEnd(suite, draws, p2, s);
    } else {
      ExecSend(suite, draws, p2, s);
      ExecServerFinish(suite, draws, AfterSend(suite, draws, p2), s);
    }
  }

  lemma ExecServerFinish(suite: Suite, draws: Draws, p: Party, s: seq<byte>)
    requires p.pc == SWaitResponse && p.out == [] && p.buf == [] && p.pin == None
    ensures Agree(Exec(suite, draws, p, s), ServerFinish(suite, draws, p.data, s))
  {
    var r := ParseFrame(s);
    if r.Parsed? {
      ExecPacket(suite, draws, p, s);
      var q := OnPacket(suite, draws, p, r.packet);
      if q.pc.Failed? {
        ExecEnd(suite, draws, q, s[r.size..]);
      } else {
        ExecSend(suite, draws, q, s[r.size..]);
        ExecEnd(suite, draws, AfterSend(suite, draws, q), s[r.size..]);
      }
    }
  }

  /** The machine computes what session_client_connect computes. */
  lemma ExecClient(suite: Suite, draws: Draws, d: SessionData, s: seq<byte>)
    ensures Agree(Exec(suite, draws, ClientStart(draws, d), s), ClientRun(suite, draws, d, s))
  {
    ExecSend(suite, draws, ClientStart(draws, d), s);
    var p1 := AfterSend(suite, draws, ClientStart(draws, d));
    var r := ParseFrame(s);
    if r.Parsed? {
      ExecPacket(suite, draws, p1, s);
      var p2 := OnPacket(suite, draws, p1, r.packet);
      if p2.pc.Failed? {
        ExecEnd(suite, draws, p2, s[r.size..]);
      } else {
        ExecClientAuthenticate(suite, draws, p2, s[r.size..]);
      }
    }
  }

  lemma ExecClientAuthenticate(suite: Suite, draws: Draws, p: Party, s: seq<byte>)
    requires p.pc == CWaitRequest && p.out == [] && p.buf == [] && p.pin == None
    ensures Agree(Exec(suite, draws, p, s), ClientAuthenticate(suite, draws, p.data, s))
  {
    var r := ParseFrame(s);
    if r.Parsed? {
      ExecPacket(suite, draws, p, s);
      var q := OnPacket(suite, draws, p, r.packet);
      if q.pc.Failed? {
        ExecEnd(suite, draws, q, s[r.size..]);
      } else {
        ExecSend(suite, draws, q, s[r.size..]);
        ExecClientFinish(suite, draws, AfterSend(suite, draws, q), s[r.size..]);
      }
    }
  }

  lemma ExecClientFinish(suite: Suite, draws: Draws, p: Party, s: seq<byte>)
    requires p.pc == CWaitSuccess && p.out == [] && p.buf == []
    ensures Agree(Exec(suite, draws, p, s), ClientFinish(p.data, s).(pin := p.pin))
    ensures Exec(suite, draws, p, s).sent == []
  {
    var r := ParseFrame(s);
    if r.Parsed? {
      ExecPacket(suite, draws, p, s);
      ExecEnd(suite, draws, OnPacket(suite, draws, p, r.packet), s[r.size..]);
    }
  }

  // ---- any division into sends and receives ends the same way ----

  /** A role in the middle of its handshake, with everything it has sent and all it will ever be sent. */
  datatype Running = Running(party: Party, sent: seq<byte>, unread: seq<byte>)

  function Advance(suite: Suite, draws: Draws, w: Running, m: Move): Running
    requires CanMove(w.party, m, w.unread)
  {
    var r := Do(suite, draws, w.party, m, w.unread);
    Running(r.party, w.sent + r.sent, w.unread[r.took..])
  }

  /** The outcome that w is bound for. */
  function Destiny(suite: Suite, draws: Draws, w: Running): Outcome {
    var o := Exec(suite, draws, w.party.(buf := []), w.party.buf + w.unread);
    o.(sent := w.sent + o.sent)
  }

  lemma SendKeepsDestiny(suite: Suite, draws: Draws, w: Running, n: nat)
    requires w.party.Valid() && CanMove(w.party, SendSome(n), w.unread)
    ensures Destiny(suite, draws, Advance(suite, draws, w, SendSome(n))) == Destiny(suite, draws, w)
  {
    var p := w.party;
    var q := p.(out := p.out[n..]);
    assert [] + w.unread == w.unread;
    ExecSend(suite, draws, p, w.unread);
    ExecSend(suite, draws, q, w.unread);
    assert AfterSend(suite, draws, q) == AfterSend(suite, draws, p);
    var tail := Exec(suite, draws, AfterSend(suite, draws, p), w.unread).sent;
    Regroup(w.sent, p.out, n, tail);
  }

  lemma Regroup(a: seq<byte>, b: seq<byte>, n: nat, c: seq<byte>)
    requires n <= |b|
    ensures a + b[..n] + (b[n..] + c) == a + (b + c)
  {
    assert b[..n] + b[n..] == b;
  }

  lemma ReturnKeepsDestiny(suite: Suite, draws: Draws, w: Running)
    requires w.party.Valid() && CanMove(w.party, Return, w.unread)
    ensures Destiny(suite, draws, Advance(suite, draws, w, Return)) == Destiny(suite, draws, w)
  {
    var p := w.party;
    var q := AfterSend(suite, draws, p);
    MovesKeepValid(suite, draws, p, Return, w.unread);
    assert [] + w.unread == w.unread && w.sent + [] == w.sent;
    ExecSend(suite, draws, p, w.unread);
    assert p.out + Exec(suite, draws, q, w.unread).sent == Exec(suite, draws, q, w.unread).sent;
    assert q.buf == [] && q.(buf := []) == q;
  }

  lemma ReceiveKeepsDestiny(suite: Suite, draws: Draws, w: Running, n: nat)
    requires w.party.Valid() && CanMove(w.party, ReceiveSome(n), w.unread)
    ensures Destiny(suite, draws, Advance(suite, draws, w, ReceiveSome(n))) == Destiny(suite, draws, w)
  {
    var p := w.party;
    var b := p.buf + w.unread[..n];
    var rest := w.unread[n..];
    assert p.buf + w.unread == b + rest && w.sent + [] == w.sent;
    FrameEndsHere(p.buf, w.unread[..n]);
    MoreBytes(b, rest);
    match ParseFrame(b)
    case Truncated =>
    case Rejected =>
      ExecEnd(suite, draws, Fail(p, p.data), rest);
    case Parsed(k, size) =>
      ExecPacket(suite, draws, p.(buf := []), b + rest);
      assert (b + rest)[size..] == rest;
      var q := OnPacket(suite, draws, p, k);
      assert OnPacket(suite, draws, p.(buf := []), k) == q && q.buf == [] && q.(buf := []) == q;
      assert [] + rest == rest;
  }

  lemma OneMoveKeepsDestiny(suite: Suite, draws: Draws, w: Running, m: Move)
    requires w.party.Valid() && CanMove(w.party, m, w.unread)
    ensures Destiny(suite, draws, Advance(suite, draws, w, m)) == Destiny(suite, draws, w)
  {
    match m
    case SendSome(n) => SendKeepsDestiny(suite, draws, w, n);
    case ReceiveSome(n) => ReceiveKeepsDestiny(suite, draws, w, n);
    case Return => ReturnKeepsDestiny(suite, draws, w);
  }

  /** recv_all asks for no byte of the next frame. */
  lemma FrameEndsHere(b: seq<byte>, chunk: seq<byte>)
    requires ParseFrame(b).Truncated? && |chunk| <= Missing(b)
    ensures ParseFrame(b + chunk).Parsed? ==> ParseFrame(b + chunk).size == |b + chunk|
  {
    if |b| >= HEADER_SIZE {
      assert (b + chunk)[..4] == b[..4];
    }
  }

  function Moves(suite: Suite, draws: Draws, w: Running, moves: seq<Move>): Option<Running>
    decreases |moves|
  {
    if moves == [] then Some(w)
    else if CanMove(w.party, moves[0], w.unread) then
      Moves(suite, draws, Advance(suite, draws, w, moves[0]), moves[1..])
    else None
  }

  /**
   * However the two byte streams are cut, a role that has come to its end is where Exec puts it, has sent
   * exactly those bytes and left exactly that rest.
   */
  lemma {:induction false} ChunksDoNotMatter(suite: Suite, draws: Draws, w: Running, moves: seq<Move>)
    requires w.party.Valid() && Moves(suite, draws, w, moves).Some?
    ensures var w' := Moves(suite, draws, w, moves).value;
            && w'.party.Valid()
            && Destiny(suite, draws, w') == Destiny(suite, draws, w)
            && (w'.party.pc.Done? ==> Destiny(suite, draws, w) == Outcome(w'.party, w'.sent, w'.unread))
            && (w'.party.pc.Failed? ==> Destiny(suite, draws, w).party == w'.party)
    decreases |moves|
  {
    if moves == [] {
      assert w.sent + [] == w.sent;
      assert [] + w.unread == w.unread;
    } else {
      MovesKeepValid(suite, draws, w.party, moves[0], w.unread);
      OneMoveKeepsDestiny(suite, draws, w, moves[0]);
      ChunksDoNotMatter(suite, draws, Advance(suite, draws, w, moves[0]), moves[1..]);
    }
  }
}
