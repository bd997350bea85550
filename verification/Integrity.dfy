/**
 * What the data path guarantees over whole runs of the system: published sessions keep their handshake's keys,
 * whatever is written to a TUN was read at the other end of the same session, and no nonce is used twice.
 */
module Integrity {
  import opened Bytes
  import opened Crypto
  import opened Handshake
  import opened Protocol
  import opened SessionTable
  import opened Tunnel
  import opened System
  import Shutdown
  import SessionManager
  import Threads

  // ---- the invariant ----

  /** A server session's keys and counter; a published one is established, verified and has its slot's octet. */
  ghost predicate CellOk(c: Cell) {
    var d := c.data;
    && (c.end.ok ==> Complete(c.end.data) && c.end.data.crypto.txNonce == 0)
    && (!c.life.Freed? ==> d.crypto.txNonce == c.tries % TWO_TO_THE_64)
    && (c.life.Private? ==> c.tries == 0)
    && (c.ready ==> c.end.ok)
    && (!c.life.Freed? && c.ready ==> Keyed(c))
    && (c.life.Published? ==> c.ready && Complete(d) && d.tunnelIpOctet == Octet(c.life.slot))
  }

  ghost predicate Keyed(c: Cell) {
    && c.data.crypto.txKey == KeyOf(c, true) && c.data.crypto.rxKey == KeyOf(c, false)
    && c.data.sessionId == c.end.data.sessionId
  }

  predicate Complete(d: SessionData) {
    d.state.Established? && d.crypto.verified
  }

  /** Only an honest client's session comes up, with the keys of the server's session crosswise. */
  ghost predicate RemoteOk(w: World, c: Cell, r: Remote) {
    && (r.status.NotYet? ==> r.tries == 0)
    && (r.status.Up? ==>
          && Honest(w, c.conn) && c.end.ok
          && r.data.crypto.txNonce == r.tries % TWO_TO_THE_64 && r.data.sessionId == c.end.data.sessionId
          && r.data.crypto.txKey == KeyOf(c, false) && r.data.crypto.rxKey == KeyOf(c, true))
  }

  /** What the listener has in hand has come as far as its control point says. */
  ghost predicate InHand(heap: seq<Cell>, l: LPc) {
    && (l.LSucceeding? ==> l.h < |heap| && heap[l.h].ready)
    && (l.LReady? || l.LLocked? ==> l.h < |heap| && heap[l.h].ready && Complete(heap[l.h].data))
  }

  ghost predicate Cells(w: World, heap: seq<Cell>, remotes: seq<Remote>) {
    && |remotes| == |heap|
    && (forall h :: 0 <= h < |heap| ==> CellOk(heap[h]))
    && (forall h :: 0 <= h < |heap| ==> RemoteOk(w, heap[h], remotes[h]))
  }

  /** Every session's handshake comes to what session_server_connect computes on its stream. */
  ghost predicate Ends(w: World, heap: seq<Cell>) {
    forall h :: 0 <= h < |heap| ==> heap[h].end == Outcome(w, heap[h].conn)
  }

  ghost predicate Sessions(w: World, s: Sys) {
    Cells(w, s.heap, s.remotes) && InHand(s.heap, s.l)
  }

  ghost predicate BothEnded(s: Sys, g: nat, h: nat)
    requires g < |s.heap| && h < |s.heap|
  {
    s.heap[g].end.ok && s.heap[h].end.ok
  }

  /** The two keys of an honest session differ from each other and from those of every other session. */
  ghost predicate KeysDiffer(w: World, s: Sys) {
    && (forall h :: 0 <= h < |s.heap| && HonestAt(w, s, h) ==> KeyOf(s.heap[h], true) != KeyOf(s.heap[h], false))
    && (forall g, h :: 0 <= g < |s.heap| && 0 <= h < |s.heap| && g != h && HonestAt(w, s, h) && BothEnded(s, g, h) ==>
          Separate(s.heap[g], s.heap[h]))
  }

  ghost function Tries(s: Sys, h: Handle, fromServer: bool): nat
    requires h < |s.heap| && h < |s.remotes|
  {
    if fromServer then s.heap[h].tries else s.remotes[h].tries
  }

  ghost function Sent(s: Sys, fromServer: bool): set<(Handle, seq<byte>)> {
    if fromServer then s.routed else s.clientRead
  }

  /** The entry is a packet that its sender read, sealed under the sender's key with the sender's k-th counter. */
  ghost predicate EntryOk(w: World, s: Sys, e: Entry) {
    && EntryCounted(s, e)
    && (!e.fromServer ==> HonestAt(w, s, e.h))
    && e.raw != [] && Sendable(w, e.raw)
    && w.suite.seal(e.key, e.nonce, Compressed(w.codec, e.raw, MAX_PLAINTEXT)) == Some(e.ct)
    && (e.h, e.raw) in Sent(s, e.fromServer)
  }

  ghost predicate EntryCounted(s: Sys, e: Entry) {
    && e.h < |s.heap| && e.h < |s.remotes| && s.heap[e.h].end.ok
    && e.key == KeyOf(s.heap[e.h], e.fromServer)
    && e.nonce == BuildNonce(e.k % TWO_TO_THE_64) && e.k < Tries(s, e.h, e.fromServer)
  }

  ghost predicate LogOk(w: World, s: Sys) {
    (forall i :: 0 <= i < |s.log| ==> EntryOk(w, s, s.log[i])) && Ordered(s.log)
  }

  predicate SameSender(e: Entry, f: Entry) {
    e.h == f.h && e.fromServer == f.fromServer
  }

  /** The counters of each sender rise. */
  ghost predicate Ordered(log: seq<Entry>) {
    forall i, j :: 0 <= i < j < |log| && SameSender(log[i], log[j]) ==> log[i].k < log[j].k
  }

  /** What is written was read at the other end, on the server's side where the session is honest. */
  ghost predicate WrittenOk(w: World, s: Sys) {
    && (forall x <- s.serverWrote :: x.0 < |s.heap| && (Honest(w, s.heap[x.0].conn) ==> x in s.clientRead))
    && (forall x <- s.clientWrote :: x in s.routed)
    && (s.u.UWrite? ==> s.u.h < |s.heap| && (Honest(w, s.heap[s.u.h].conn) ==> (s.u.h, s.u.packet) in s.clientRead))
  }

  /** The packet that the TUN sender has in hand can be sealed. */
  ghost predicate RawOk(w: World, s: Sys) {
    s.t.TRead? || s.t.TScan? || s.t.TSeal? ==> s.t.raw != [] && Sendable(w, s.t.raw)
  }

  /** What every run keeps, whoever the peers are and whatever they forge. */
  ghost predicate Kept(w: World, s: Sys) {
    Threads.Inv(s) && Sessions(w, s) && Ends(w, s.heap)
  }

  /** And what it keeps where sealing obeys its law. */
  ghost predicate Inv(w: World, s: Sys) {
    Kept(w, s) && LogOk(w, s) && RawOk(w, s)
  }

  // ---- what the handshake hands over ----

  /** Whatever a peer sends, a handshake that succeeds leaves a verified session that has sent nothing yet. */
  lemma OutcomeIsComplete(w: World, k: Connection)
    requires Outcome(w, k).ok
    ensures var d := Outcome(w, k).data; d.state == Established && d.crypto.verified && d.crypto.txNonce == 0
  {
  }

  /**
   * With an honest client it succeeds, and what it sends is what session_client_connect turns into the client's
   * final session, which has the same keys crosswise and the same id.
   */
  lemma HonestOutcome(w: World, k: Connection)
    requires Honest(w, k)
    ensures var (e, d) := (Outcome(w, k), ClientFinal(k.client.value));
            && e.ok && e.data == ServerFinal(k.client.value)
            && d.crypto.txKey == e.data.crypto.rxKey && d.crypto.rxKey == e.data.crypto.txKey
            && d.sessionId == e.data.sessionId && d.crypto.txNonce == 0
    ensures var (e, x) := (Outcome(w, k), k.client.value);
            && e.sent == Total(x, Server)
            && var r := ClientRun(w.suite, x.clientDraws, ClientFresh(x), e.sent);
               r.ok && r.data == ClientFinal(x) && r.sent == k.stream && r.rest == []
  {
    var x := k.client.value;
    ServerMeets(x, k.stream);
    assert Created(Server, w.server, None, k.id) == ServerFresh(x);
    ClientMeets(x);
    FinalKeys(x);
  }

  lemma ServerMeets(x: Setup, s: seq<byte>)
    requires x.Honest() && s == Total(x, Client)
    ensures ServerRun(x.suite, x.serverDraws, ServerFresh(x), s)
            == Result(true, ServerFinal(x), Total(x, Server), [], None)
  {
    Shutdown.ServerOnClientStream(x, []);
    assert Total(x, Client) + [] == s;
  }

  lemma ClientMeets(x: Setup)
    requires x.Honest()
    ensures var r := ClientRun(x.suite, x.clientDraws, ClientFresh(x), Total(x, Server));
            r.ok && r.data == ClientFinal(x) && r.sent == Total(x, Client) && r.rest == []
  {
    Shutdown.ClientOnServerStream(x, []);
    assert Total(x, Server) + [] == Total(x, Server);
  }

  lemma FinalKeys(x: Setup)
    ensures var (e, d) := (ServerFinal(x), ClientFinal(x));
            && d.crypto.txKey == e.crypto.rxKey && d.crypto.rxKey == e.crypto.txKey
            && d.sessionId == e.sessionId && d.crypto.txNonce == 0
  {
  }

  // ---- sessions ----

  lemma SetCell(w: World, heap: seq<Cell>, remotes: seq<Remote>, h: Handle, c: Cell)
    requires Cells(w, heap, remotes) && h < |heap| && CellOk(c) && c.conn == heap[h].conn && c.end == heap[h].end
    ensures Cells(w, heap[h := c], remotes)
  {
  }

  lemma SetRemote(w: World, heap: seq<Cell>, remotes: seq<Remote>, h: Handle, r: Remote)
    requires Cells(w, heap, remotes) && h < |heap| && RemoteOk(w, heap[h], r)
    ensures Cells(w, heap, remotes[h := r])
  {
  }

  lemma AddCell(w: World, heap: seq<Cell>, remotes: seq<Remote>, c: Cell, r: Remote)
    requires Cells(w, heap, remotes) && CellOk(c) && RemoteOk(w, c, r)
    ensures Cells(w, heap + [c], remotes + [r])
  {
  }

  lemma CountUp(n: nat)
    ensures (n % TWO_TO_THE_64 + 1) % TWO_TO_THE_64 == (n + 1) % TWO_TO_THE_64
  {
  }

  lemma AcceptKeepsSessions(w: World, s: Sys, k: Connection)
    requires Sessions(w, s) && CanL(w, s, Accept(k))
    ensures Sessions(w, DoL(w, s, Accept(k)))
  {
    ArrivedOk(w, k);
    AddCell(w, s.heap, s.remotes, Arrived(w, k), Remote(Blank(Client), NotYet, 0));
  }

  lemma ArrivedOk(w: World, k: Connection)
    ensures CellOk(Arrived(w, k))
  {
    if Outcome(w, k).ok {
      OutcomeIsComplete(w, k);
    }
  }

  lemma SuccessKeepsSessions(w: World, s: Sys)
    requires Threads.Inv(s) && Sessions(w, s) && CanL(w, s, SendSuccess)
    ensures Sessions(w, DoL(w, s, SendSuccess))
  {
    var c := s.heap[s.l.h];
    SetCell(w, s.heap, s.remotes, s.l.h, c.(data := c.end.data.(state := WaitAuth), ready := true));
  }

  lemma FinishKeepsSessions(w: World, s: Sys)
    requires Threads.Inv(s) && Sessions(w, s) && CanL(w, s, FinishHandshake)
    ensures Sessions(w, DoL(w, s, FinishHandshake))
  {
    var c := s.heap[s.l.h];
    SetCell(w, s.heap, s.remotes, s.l.h, c.(data := c.end.data));
  }

  lemma ListenerKeepsSessions(w: World, s: Sys, a: LAct)
    requires Threads.Inv(s) && Sessions(w, s) && CanL(w, s, a)
    ensures Sessions(w, DoL(w, s, a))
  {
    match a
    case Accept(k) => AcceptKeepsSessions(w, s, k);
    case SendSuccess => SuccessKeepsSessions(w, s);
    case FinishHandshake => FinishKeepsSessions(w, s);
    case AddInsert => InsertKeepsSessions(w, s);
    case Drop => SetCell(w, s.heap, s.remotes, s.l.h, Destroyed(s.heap[s.l.h]));
    case _ =>
  }

  lemma InsertKeepsSessions(w: World, s: Sys)
    requires Threads.Inv(s) && Sessions(w, s) && CanL(w, s, AddInsert)
    ensures Sessions(w, DoL(w, s, AddInsert))
  {
    var f := FreeIndex(s);
    if f < |s.table| {
      var c := s.heap[s.l.h];
      var d := c.data.(tunnelIpOctet := Octet(f));
      SetCell(w, s.heap, s.remotes, s.l.h, c.(data := d, life := Published(f)));
    }
  }

  lemma UdpKeepsSessions(w: World, s: Sys, a: UAct)
    requires Threads.Inv(s) && Sessions(w, s) && CanU(w, s, a)
    ensures Sessions(w, DoU(w, s, a))
  {
    if a.PeerStore? {
      var c := s.heap[s.u.h];
      var udp := c.data.udp.(peerAddr := s.u.from, peerKnown := true);
      SetCell(w, s.heap, s.remotes, s.u.h, c.(data := c.data.(udp := udp)));
    }
  }

  lemma SealKeepsSessions(w: World, s: Sys)
    requires Threads.Inv(s) && Sessions(w, s) && CanT(w, s, Seal)
    ensures Sessions(w, DoT(w, s, Seal))
  {
    var c := s.heap[s.t.h];
    SealEffect(w, s);
    CountUp(c.tries);
    SetCell(w, s.heap, s.remotes, s.t.h, c.(data := Counted(c.data), tries := c.tries + 1));
  }

  lemma SealEffect(w: World, s: Sys)
    requires CanT(w, s, Seal)
    ensures var (s', c) := (DoT(w, s, Seal), s.heap[s.t.h]);
            && s'.heap == s.heap[s.t.h := c.(data := Counted(c.data), tries := c.tries + 1)]
            && s'.remotes == s.remotes && s'.l == s.l
  {
  }

  lemma TunKeepsSessions(w: World, s: Sys, a: TAct)
    requires Threads.Inv(s) && Sessions(w, s) && CanT(w, s, a)
    ensures Sessions(w, DoT(w, s, a))
  {
    if a.Seal? {
      SealKeepsSessions(w, s);
    }
  }

  lemma MainKeepsSessions(w: World, s: Sys, a: MAct)
    requires Threads.Inv(s) && Sessions(w, s) && CanM(s, a)
    ensures Sessions(w, DoM(s, a))
  {
    if a.SweepSlot? && s.m.i < |s.table| && s.table[s.m.i].Some? {
      var h := s.table[s.m.i].value;
      SetCell(w, s.heap, s.remotes, h, Destroyed(s.heap[h]));
    }
  }

  lemma ClientKeepsSessions(w: World, s: Sys, a: CAct)
    requires Sessions(w, s) && Ends(w, s.heap) && CanC(w, s, a)
    ensures Sessions(w, DoC(w, s, a))
  {
    match a
    case ClientUp(h) => UpKeepsSessions(w, s, h);
    case ClientSend(h, raw) => SendKeepsSessions(w, s, h, raw);
    case ClientReceive(h, d) =>
    case ClientDown(h) =>
      SetRemote(w, s.heap, s.remotes, h, s.remotes[h].(data := Blank(Client), status := Down));
  }

  lemma SendKeepsSessions(w: World, s: Sys, h: Handle, raw: seq<byte>)
    requires Sessions(w, s) && CanC(w, s, ClientSend(h, raw))
    ensures Sessions(w, DoC(w, s, ClientSend(h, raw)))
  {
    var r := s.remotes[h];
    CountUp(r.tries);
    assert RemoteOk(w, s.heap[h], r);
    SetRemote(w, s.heap, s.remotes, h, r.(data := Counted(r.data), tries := r.tries + 1));
  }

  lemma UpKeepsSessions(w: World, s: Sys, h: Handle)
    requires Sessions(w, s) && Ends(w, s.heap) && CanC(w, s, ClientUp(h))
    ensures Sessions(w, DoC(w, s, ClientUp(h)))
  {
    var (k, r) := (s.heap[h].conn, s.remotes[h]);
    HonestOutcome(w, k);
    assert RemoteOk(w, s.heap[h], r);
    SetRemote(w, s.heap, s.remotes, h, r.(data := ClientFinal(k.client.value), status := Up));
  }

  // ---- how handshakes end, and keys ----

  lemma StepKeepsEnds(w: World, s: Sys, a: Act)
    requires Ends(w, s.heap) && Can(w, s, a)
    ensures Ends(w, Do(w, s, a).heap)
  {
    StepGrows(w, s, a);
    if a.L? && a.l.Accept? {
      assert Do(w, s, a).heap == s.heap + [Arrived(w, a.l.k)];
    } else {
      SameSize(w, s, a);
    }
  }

  lemma SameSize(w: World, s: Sys, a: Act)
    requires Can(w, s, a) && !(a.L? && a.l.Accept?)
    ensures |Do(w, s, a).heap| == |s.heap|
  {
  }

  lemma StepGrows(w: World, s: Sys, a: Act)
    requires Can(w, s, a)
    ensures Grows(s, Do(w, s, a))
  {
  }

  lemma FreshKeysDiffer(w: World, s: Sys)
    requires FreshDraws(w, s) && NoHonestCollision(w, s)
    ensures KeysDiffer(w, s)
  {
    FreshIsApart(w, s);
  }

  lemma FreshIsApart(w: World, s: Sys)
    requires FreshDraws(w, s)
    ensures forall g, h :: 0 <= g < |s.heap| && 0 <= h < |s.heap| && g != h && BothEnded(s, g, h) ==> Apart(w, s, g, h)
  {
    forall g, h | 0 <= g < |s.heap| && 0 <= h < |s.heap| && g != h && BothEnded(s, g, h) ensures Apart(w, s, g, h) {
      if h < g {
        assert Ephemeral(w, s.heap[h].conn) != Ephemeral(w, s.heap[g].conn);
      }
    }
  }

  /** Keys that differ at the end of a run differed all along. */
  lemma KeysDifferedBefore(w: World, s: Sys, s': Sys)
    requires Grows(s, s') && KeysDiffer(w, s')
    ensures KeysDiffer(w, s)
  {
    forall g, h | 0 <= g < |s.heap| && 0 <= h < |s.heap| && g != h && HonestAt(w, s, h)
                  && s.heap[g].end.ok && s.heap[h].end.ok
      ensures Separate(s.heap[g], s.heap[h])
    {
      SameEnds(s, s', g, h);
      assert HonestAt(w, s', h) && BothEnded(s', g, h);
    }
    forall h | 0 <= h < |s.heap| && HonestAt(w, s, h) ensures KeyOf(s.heap[h], true) != KeyOf(s.heap[h], false) {
      SameEnds(s, s', h, h);
      assert HonestAt(w, s', h);
    }
  }

  lemma SameEnds(s: Sys, s': Sys, g: Handle, h: Handle)
    requires Grows(s, s') && g < |s.heap| && h < |s.heap|
    ensures s'.heap[g].end == s.heap[g].end && s'.heap[h].end == s.heap[h].end && s'.heap[h].conn == s.heap[h].conn
    ensures Separate(s.heap[g], s.heap[h]) <==> Separate(s'.heap[g], s'.heap[h])
  {
    forall a, b ensures KeyOf(s'.heap[g], a) == KeyOf(s.heap[g], a) && KeyOf(s'.heap[h], b) == KeyOf(s.heap[h], b) {}
  }

  // ---- the log of sealed datagrams ----

  lemma EntryStaysOk(w: World, s: Sys, s': Sys, e: Entry)
    requires EntryOk(w, s, e) && Grows(s, s')
    ensures EntryOk(w, s', e)
  {
  }

  lemma OldEntriesStayOk(w: World, s: Sys, s': Sys)
    requires LogOk(w, s) && Grows(s, s')
    ensures forall i :: 0 <= i < |s.log| ==> EntryOk(w, s', s.log[i])
  {
    forall i | 0 <= i < |s.log| ensures EntryOk(w, s', s.log[i]) {
      EntryStaysOk(w, s, s', s.log[i]);
    }
  }

  /** What a sender adds to the log when its counter goes from k to k + 1. */
  lemma NewEntry(w: World, s: Sys, s': Sys, h: Handle, fromServer: bool, raw: seq<byte>, ctx: CryptoContext, id: u64)
    requires LogOk(w, s) && Grows(s, s') && h < |s.heap| && h < |s.remotes| && s.heap[h].end.ok
    requires fromServer || HonestAt(w, s, h)
    requires w.suite.SealOpens() && raw != [] && Sendable(w, raw)
    requires ctx.txKey == KeyOf(s.heap[h], fromServer)
    requires var k := Tries(s, h, fromServer);
             ctx.txNonce == k % TWO_TO_THE_64 && Tries(s', h, fromServer) == k + 1
             && s'.log == s.log + Sealed(h, fromServer, k, raw, ctx,
                                         Outbound(w.suite, w.codec, ctx.txKey, id, ctx.txNonce, raw))
    requires (h, raw) in Sent(s', fromServer)
    ensures LogOk(w, s')
  {
    OldEntriesStayOk(w, s, s');
    var k := Tries(s, h, fromServer);
    var b := Outbound(w.suite, w.codec, ctx.txKey, id, ctx.txNonce, raw);
    if b.Some? {
      HeaderRoundTrip(w.suite, ctx.txKey, id, ctx.txNonce, Compressed(w.codec, raw, MAX_PLAINTEXT));
      var e := Entry(h, fromServer, k, raw, ctx.txKey, BuildNonce(ctx.txNonce), b.value[TUNNEL_HEADER_SIZE..]);
      assert s'.log == s.log + [e];
      assert EntryOk(w, s', e);
      LogGrows(w, s, s', e);
    } else {
      assert s'.log == s.log;
    }
  }

  /** A new entry with the sender's next counter keeps each sender's counters in order. */
  lemma LogGrows(w: World, s: Sys, s': Sys, e: Entry)
    requires LogOk(w, s) && s'.log == s.log + [e] && EntryOk(w, s', e)
    requires forall i :: 0 <= i < |s.log| ==> EntryOk(w, s', s.log[i])
    requires e.h < |s.heap| && e.h < |s.remotes| && e.k == Tries(s, e.h, e.fromServer)
    ensures LogOk(w, s')
  {
    forall i | 0 <= i < |s.log| && SameSender(s.log[i], e) ensures s.log[i].k < e.k {
      CountedSoFar(w, s, s.log[i]);
    }
    OrderGrows(s.log, e);
  }

  lemma CountedSoFar(w: World, s: Sys, e: Entry)
    requires EntryOk(w, s, e)
    ensures e.h < |s.heap| && e.h < |s.remotes| && e.k < Tries(s, e.h, e.fromServer)
  {
  }

  lemma OrderGrows(log: seq<Entry>, e: Entry)
    requires Ordered(log) && forall i :: 0 <= i < |log| && SameSender(log[i], e) ==> log[i].k < e.k
    ensures Ordered(log + [e])
  {
  }

  lemma SealKeepsLog(w: World, s: Sys)
    requires Inv(w, s) && w.suite.SealOpens() && CanT(w, s, Seal)
    ensures LogOk(w, DoT(w, s, Seal))
  {
    var c := s.heap[s.t.h];
    assert CellOk(c);
    NewEntry(w, s, DoT(w, s, Seal), s.t.h, true, s.t.raw, c.data.crypto, c.data.sessionId);
  }

  lemma ClientSendKeepsLog(w: World, s: Sys, h: Handle, raw: seq<byte>)
    requires Inv(w, s) && w.suite.SealOpens() && CanC(w, s, ClientSend(h, raw))
    ensures LogOk(w, DoC(w, s, ClientSend(h, raw)))
  {
    var c := s.remotes[h];
    assert RemoteOk(w, s.heap[h], c);
    NewEntry(w, s, DoC(w, s, ClientSend(h, raw)), h, false, raw, c.data.crypto, c.data.sessionId);
  }

  lemma OthersDoNotSeal(w: World, s: Sys, a: Act)
    requires Can(w, s, a) && a != T(Seal) && !(a.C? && a.c.ClientSend?)
    ensures Do(w, s, a).log == s.log && Grows(s, Do(w, s, a))
  {
  }

  lemma StepKeepsLog(w: World, s: Sys, a: Act)
    requires Inv(w, s) && w.suite.SealOpens() && Can(w, s, a)
    ensures LogOk(w, Do(w, s, a))
  {
    if a == T(Seal) {
      SealKeepsLog(w, s);
    } else if a.C? && a.c.ClientSend? {
      ClientSendKeepsLog(w, s, a.c.h, a.c.raw);
    } else {
      OthersDoNotSeal(w, s, a);
      OldEntriesStayOk(w, s, Do(w, s, a));
    }
  }

  // ---- what is delivered was sent ----

  /** A datagram that opens under an honest session's key was made from a packet that the other end of it read. */
  lemma Delivered(w: World, s: Sys, h: Handle, fromServer: bool, d: seq<byte>)
    requires KeysDiffer(w, s) && LogOk(w, s) && w.Lawful() && HonestAt(w, s, h) && s.heap[h].end.ok
    requires var key := KeyOf(s.heap[h], fromServer);
             Authentic(w, s, key, d) && Inbound(w.suite, w.codec, key, d).Some?
    ensures (h, Inbound(w.suite, w.codec, KeyOf(s.heap[h], fromServer), d).value) in Sent(s, fromServer)
  {
    var key := KeyOf(s.heap[h], fromServer);
    var e :| e in s.log && e.key == key && e.nonce == NonceOf(d) && e.ct == d[TUNNEL_HEADER_SIZE..];
    assert EntryOk(w, s, e);
    SameKeySameSender(w, s, h, fromServer, e.h, e.fromServer);
    OpensToRaw(w, e, d);
  }

  lemma OpensToRaw(w: World, e: Entry, d: seq<byte>)
    requires w.Lawful() && e.raw != [] && Sendable(w, e.raw)
    requires w.suite.seal(e.key, e.nonce, Compressed(w.codec, e.raw, MAX_PLAINTEXT)) == Some(e.ct)
    requires Inbound(w.suite, w.codec, e.key, d).Some? && e.nonce == NonceOf(d) && e.ct == d[TUNNEL_HEADER_SIZE..]
    ensures Inbound(w.suite, w.codec, e.key, d) == Some(e.raw)
  {
    SealedOpens(w.suite, e.key, e.nonce, Compressed(w.codec, e.raw, MAX_PLAINTEXT), e.ct);
    CompressRoundTrip(w.codec, e.raw, MAX_PLAINTEXT, MAX_PLAINTEXT);
  }

  lemma SealedOpens(suite: Suite, key: Key, nonce: AeadNonce, plain: seq<byte>, ct: seq<byte>)
    requires suite.SealOpens() && suite.seal(key, nonce, plain) == Some(ct)
    ensures suite.unseal(key, nonce, ct) == Some(plain)
  {
  }

  lemma SameKeySameSender(w: World, s: Sys, g: Handle, a: bool, h: Handle, b: bool)
    requires KeysDiffer(w, s) && g < |s.heap| && h < |s.heap| && s.heap[g].end.ok && s.heap[h].end.ok
    requires HonestAt(w, s, g) || HonestAt(w, s, h)
    ensures KeyOf(s.heap[g], a) == KeyOf(s.heap[h], b) <==> g == h && a == b
  {
    if g == h {
      OwnKeys(s.heap[g], a, b);
    } else if HonestAt(w, s, h) {
      OtherKeys(w, s, g, a, h, b);
    } else {
      OtherKeys(w, s, h, b, g, a);
    }
  }

  lemma OwnKeys(c: Cell, a: bool, b: bool)
    requires KeyOf(c, true) != KeyOf(c, false)
    ensures KeyOf(c, a) == KeyOf(c, b) <==> a == b
  {
  }

  lemma OtherKeys(w: World, s: Sys, g: Handle, a: bool, h: Handle, b: bool)
    requires KeysDiffer(w, s) && g < |s.heap| && g != h && HonestAt(w, s, h) && BothEnded(s, g, h)
    ensures KeyOf(s.heap[g], a) != KeyOf(s.heap[h], b)
  {
    assert Separate(s.heap[g], s.heap[h]);
  }

  /** What a datagram opens to under an honest session's key was sent to it. */
  lemma OpenedWasSent(w: World, s: Sys, h: Handle, fromServer: bool, key: Key, d: seq<byte>)
    requires KeysDiffer(w, s) && LogOk(w, s) && w.Lawful() && h < |s.heap| && s.heap[h].end.ok
    requires key == KeyOf(s.heap[h], fromServer) && (HonestAt(w, s, h) ==> Authentic(w, s, key, d))
    ensures var packet := Inbound(w.suite, w.codec, key, d);
            HonestAt(w, s, h) && packet.Some? ==> (h, packet.value) in Sent(s, fromServer)
  {
    if HonestAt(w, s, h) && Inbound(w.suite, w.codec, key, d).Some? {
      Delivered(w, s, h, fromServer, d);
    }
  }

  lemma WritableIsOk(w: World, s: Sys, packet: Option<seq<byte>>, h: Handle)
    requires WrittenOk(w, s) && h < |s.heap|
    requires HonestAt(w, s, h) && packet.Some? ==> (h, packet.value) in s.clientRead
    ensures WrittenOk(w, s.(u := AfterDecode(packet, h)))
  {
  }

  lemma DecodeKeepsWritten(w: World, s: Sys)
    requires Inv(w, s) && KeysDiffer(w, s) && WrittenOk(w, s) && w.Lawful() && CanU(w, s, Decode)
    requires Unforged(w, s, U(Decode))
    ensures WrittenOk(w, DoU(w, s, Decode))
  {
    var (h, d) := (s.u.h, s.u.d);
    var key := s.heap[h].data.crypto.rxKey;
    PublishedKey(s, h);
    OpenedWasSent(w, s, h, false, key, d);
    WritableIsOk(w, s, Inbound(w.suite, w.codec, key, d), h);
  }

  lemma PublishedKey(s: Sys, h: Handle)
    requires Threads.IsPublished(s, h) && CellOk(s.heap[h])
    ensures s.heap[h].end.ok && s.heap[h].data.crypto.rxKey == KeyOf(s.heap[h], false)
  {
  }

  lemma ClientWritesIsOk(w: World, s: Sys, h: Handle, p: seq<byte>)
    requires WrittenOk(w, s) && (h, p) in s.routed
    ensures WrittenOk(w, s.(clientWrote := s.clientWrote + [(h, p)]))
  {
  }

  lemma ClientReceiveKeepsWritten(w: World, s: Sys, h: Handle, d: seq<byte>)
    requires Inv(w, s) && KeysDiffer(w, s) && WrittenOk(w, s) && w.Lawful() && CanC(w, s, ClientReceive(h, d))
    requires Unforged(w, s, C(ClientReceive(h, d)))
    ensures WrittenOk(w, DoC(w, s, ClientReceive(h, d)))
  {
    var key := s.remotes[h].data.crypto.rxKey;
    UpIsHonest(w, s, h);
    OpenedWasSent(w, s, h, true, key, d);
    var p := Inbound(w.suite, w.codec, key, d);
    if p.Some? {
      ClientWritesIsOk(w, s, h, p.value);
    }
  }

  lemma UpIsHonest(w: World, s: Sys, h: Handle)
    requires h < |s.heap| && h < |s.remotes| && RemoteOk(w, s.heap[h], s.remotes[h]) && s.remotes[h].status.Up?
    ensures HonestAt(w, s, h) && s.heap[h].end.ok && s.remotes[h].data.crypto.rxKey == KeyOf(s.heap[h], true)
  {
  }

  lemma UdpKeepsWritten(w: World, s: Sys, a: UAct)
    requires WrittenOk(w, s) && CanU(w, s, a) && !a.Decode?
    ensures WrittenOk(w, DoU(w, s, a))
  {
  }

  lemma GrowingKeepsWritten(w: World, s: Sys, s': Sys)
    requires WrittenOk(w, s) && Grows(s, s')
    requires s'.serverWrote == s.serverWrote && s'.clientWrote == s.clientWrote && s'.u == s.u
    ensures WrittenOk(w, s')
  {
  }

  /** Only the two receiving ends write to a TUN. */
  lemma OthersDoNotWrite(w: World, s: Sys, a: Act)
    requires Can(w, s, a) && !a.U? && !(a.C? && a.c.ClientReceive?)
    ensures var s' := Do(w, s, a); s'.serverWrote == s.serverWrote && s'.clientWrote == s.clientWrote && s'.u == s.u
  {
  }

  lemma StepKeepsWritten(w: World, s: Sys, a: Act)
    requires Inv(w, s) && KeysDiffer(w, s) && WrittenOk(w, s) && w.Lawful() && Can(w, s, a) && Unforged(w, s, a)
    ensures WrittenOk(w, Do(w, s, a))
  {
    if a == U(Decode) {
      DecodeKeepsWritten(w, s);
    } else if a.U? {
      UdpKeepsWritten(w, s, a.u);
    } else if a.C? && a.c.ClientReceive? {
      ClientReceiveKeepsWritten(w, s, a.c.h, a.c.d);
    } else {
      StepGrows(w, s, a);
      OthersDoNotWrite(w, s, a);
      GrowingKeepsWritten(w, s, Do(w, s, a));
    }
  }

  // ---- every run ----

  lemma StepKeepsSessions(w: World, s: Sys, a: Act)
    requires Threads.Inv(s) && Sessions(w, s) && Ends(w, s.heap) && Can(w, s, a)
    ensures Sessions(w, Do(w, s, a))
  {
    match a
    case L(b) => ListenerKeepsSessions(w, s, b);
    case U(b) => UdpKeepsSessions(w, s, b);
    case T(b) => TunKeepsSessions(w, s, b);
    case M(b) => MainKeepsSessions(w, s, b);
    case C(b) => ClientKeepsSessions(w, s, b);
  }

  lemma StepKeepsRaw(w: World, s: Sys, a: Act)
    requires RawOk(w, s) && Can(w, s, a)
    ensures RawOk(w, Do(w, s, a))
  {
    if a.T? {
      TunKeepsRaw(w, s, a.t);
    } else {
      OthersLeaveTun(w, s, a);
    }
  }

  lemma TunKeepsRaw(w: World, s: Sys, a: TAct)
    requires RawOk(w, s) && CanT(w, s, a)
    ensures RawOk(w, DoT(w, s, a))
  {
  }

  lemma OthersLeaveTun(w: World, s: Sys, a: Act)
    requires Can(w, s, a) && !a.T?
    ensures Do(w, s, a).t == s.t
  {
  }

  /** What every step keeps, whoever the peers are and whatever datagrams they make up. */
  lemma StepKeepsKept(w: World, s: Sys, a: Act)
    requires Kept(w, s) && Can(w, s, a)
    ensures Kept(w, Do(w, s, a))
  {
    Threads.StepKeepsInv(w, s, a);
    StepKeepsSessions(w, s, a);
    StepKeepsEnds(w, s, a);
  }

  lemma StepKeepsInv(w: World, s: Sys, a: Act)
    requires Inv(w, s) && w.suite.SealOpens() && Can(w, s, a)
    ensures Inv(w, Do(w, s, a))
  {
    StepKeepsKept(w, s, a);
    StepKeepsLog(w, s, a);
    StepKeepsRaw(w, s, a);
  }

  lemma {:induction false} RunKeepsKept(w: World, s: Sys, acts: seq<Act>)
    requires Kept(w, s) && System.Run(w, s, acts).Some?
    ensures Kept(w, System.Run(w, s, acts).value) && Grows(s, System.Run(w, s, acts).value)
    decreases |acts|
  {
    if acts != [] {
      StepKeepsKept(w, s, acts[0]);
      StepGrows(w, s, acts[0]);
      RunKeepsKept(w, Do(w, s, acts[0]), acts[1..]);
    }
  }

  lemma {:induction false} RunKeepsInv(w: World, s: Sys, acts: seq<Act>)
    requires Inv(w, s) && w.suite.SealOpens() && System.Run(w, s, acts).Some?
    ensures Inv(w, System.Run(w, s, acts).value)
    decreases |acts|
  {
    if acts != [] {
      StepKeepsInv(w, s, acts[0]);
      RunKeepsInv(w, Do(w, s, acts[0]), acts[1..]);
    }
  }

  lemma AlwaysKept(w: World, acts: seq<Act>)
    requires System.Run(w, Init(), acts).Some?
    ensures Kept(w, System.Run(w, Init(), acts).value)
  {
    Threads.InitInv();
    RunKeepsKept(w, Init(), acts);
  }

  lemma Reachable(w: World, acts: seq<Act>)
    requires w.suite.SealOpens() && System.Run(w, Init(), acts).Some?
    ensures Inv(w, System.Run(w, Init(), acts).value)
  {
    Threads.InitInv();
    RunKeepsInv(w, Init(), acts);
  }

  lemma {:induction false} RunKeepsWritten(w: World, s: Sys, acts: seq<Act>)
    requires Inv(w, s) && WrittenOk(w, s) && w.Lawful()
    requires System.Run(w, s, acts).Some? && UnforgedRun(w, s, acts) && KeysDiffer(w, System.Run(w, s, acts).value)
    ensures WrittenOk(w, System.Run(w, s, acts).value)
    decreases |acts|
  {
    if acts != [] {
      RunKeepsKept(w, s, acts);
      KeysDifferedBefore(w, s, System.Run(w, s, acts).value);
      StepKeepsInv(w, s, acts[0]);
      StepKeepsWritten(w, s, acts[0]);
      RunKeepsWritten(w, Do(w, s, acts[0]), acts[1..]);
    }
  }

  // ---- the theorems ----

  /**
   * End-to-end integrity of every honest session, beside any number of sessions with peers of any kind: under any
   * loss, duplication, reordering and injection of datagrams that are not forgeries under an honest session's
   * key, every packet a client writes to its TUN is one that the server read and routed to that client's
   * session, and every packet the server writes for the session is one that its client read.
   */
  lemma TunnelIntegrity(w: World, acts: seq<Act>, h: Handle, packet: seq<byte>)
    requires w.Lawful() && System.Run(w, Init(), acts).Some? && UnforgedRun(w, Init(), acts)
    requires var s := System.Run(w, Init(), acts).value; FreshDraws(w, s) && NoHonestCollision(w, s)
    ensures var s := System.Run(w, Init(), acts).value;
            && ((h, packet) in s.clientWrote ==> (h, packet) in s.routed)
            && ((h, packet) in s.serverWrote && HonestAt(w, s, h) ==> (h, packet) in s.clientRead)
  {
    Threads.InitInv();
    FreshKeysDiffer(w, System.Run(w, Init(), acts).value);
    RunKeepsWritten(w, Init(), acts);
  }

  lemma EntriesCollide(w: World, s: Sys, e: Entry, f: Entry)
    requires FreshDraws(w, s) && NoCollision(w, s) && EntryOk(w, s, e) && EntryOk(w, s, f)
    ensures (e.key, e.nonce) == (f.key, f.nonce) <==> SameSender(e, f) && e.k % TWO_TO_THE_64 == f.k % TWO_TO_THE_64
  {
    SameKeySameEntry(w, s, e, f);
    SmallNonces(e.k % TWO_TO_THE_64, f.k % TWO_TO_THE_64);
  }

  /** The client's side of a session is modelled only where it is honest, so both sides of another are the server's. */
  lemma SameKeySameEntry(w: World, s: Sys, e: Entry, f: Entry)
    requires FreshDraws(w, s) && NoCollision(w, s) && EntryOk(w, s, e) && EntryOk(w, s, f)
    ensures e.key == f.key <==> SameSender(e, f)
  {
    if e.h != f.h {
      FreshIsApart(w, s);
      assert BothEnded(s, e.h, f.h) && Apart(w, s, e.h, f.h) && Separate(s.heap[e.h], s.heap[f.h]);
    } else if e.fromServer != f.fromServer {
      assert HonestAt(w, s, e.h);
      OwnKeys(s.heap[e.h], e.fromServer, f.fromServer);
    }
  }

  lemma SmallNonces(a: u64, b: u64)
    ensures BuildNonce(a) == BuildNonce(b) <==> a == b
  {
    NonceCollision(a, b);
    SmallCounters(a, b);
  }

  lemma CountersDiffer(w: World, s: Sys, i: nat, j: nat)
    requires LogOk(w, s) && i < j < |s.log|
    requires var e := s.log[i]; e.h < |s.heap| && e.h < |s.remotes| && Tries(s, e.h, e.fromServer) <= TWO_TO_THE_64
    ensures var (e, f) := (s.log[i], s.log[j]);
            e.h == f.h && e.fromServer == f.fromServer ==> e.k % TWO_TO_THE_64 != f.k % TWO_TO_THE_64
  {
    LogAt(w, s, i, j);
    if s.log[i].h == s.log[j].h && s.log[i].fromServer == s.log[j].fromServer {
      SmallCounters(s.log[i].k, s.log[j].k);
    }
  }

  lemma LogAt(w: World, s: Sys, i: nat, j: nat)
    requires LogOk(w, s) && i < j < |s.log|
    ensures var (e, f) := (s.log[i], s.log[j]);
            && EntryCounted(s, e) && EntryCounted(s, f)
            && (e.h == f.h && e.fromServer == f.fromServer ==> e.k < f.k)
  {
    assert EntryOk(w, s, s.log[i]) && EntryOk(w, s, s.log[j]);
    assert SameSender(s.log[i], s.log[j]) ==> s.log[i].k < s.log[j].k;
  }

  lemma SmallCounters(k: nat, l: nat)
    requires k < TWO_TO_THE_64 && l < TWO_TO_THE_64
    ensures k % TWO_TO_THE_64 == k && l % TWO_TO_THE_64 == l
  {
  }

  /**
   * Two datagrams sealed in a run, for any peers, have the same key and nonce exactly when the same side of the
   * same session sealed both, with counters that agree modulo 2^64.
   */
  lemma NoncesRepeatExactly(w: World, acts: seq<Act>, i: nat, j: nat)
    requires w.Lawful() && System.Run(w, Init(), acts).Some?
    requires var s := System.Run(w, Init(), acts).value;
             FreshDraws(w, s) && NoCollision(w, s) && i < |s.log| && j < |s.log|
    ensures var log := System.Run(w, Init(), acts).value.log;
            (log[i].key, log[i].nonce) == (log[j].key, log[j].nonce)
            <==> SameSender(log[i], log[j]) && log[i].k % TWO_TO_THE_64 == log[j].k % TWO_TO_THE_64
  {
    Reachable(w, acts);
    var s := System.Run(w, Init(), acts).value;
    assert EntryOk(w, s, s.log[i]) && EntryOk(w, s, s.log[j]);
    EntriesCollide(w, s, s.log[i], s.log[j]);
  }

  /**
   * While a side of a session has drawn no more than 2^64 counters, no datagram that it sealed has the key and
   * nonce of any other datagram of the run.
   */
  lemma NoNonceReuse(w: World, acts: seq<Act>, i: nat, j: nat)
    requires w.Lawful() && System.Run(w, Init(), acts).Some?
    requires var s := System.Run(w, Init(), acts).value;
             && FreshDraws(w, s) && NoCollision(w, s) && i < |s.log| && j < |s.log| && i != j
             && s.log[i].h < |s.heap| && s.log[i].h < |s.remotes|
             && Tries(s, s.log[i].h, s.log[i].fromServer) <= TWO_TO_THE_64
    ensures var log := System.Run(w, Init(), acts).value.log;
            log[i].key != log[j].key || log[i].nonce != log[j].nonce
  {
    Reachable(w, acts);
    NoncesRepeatExactly(w, acts, i, j);
    var s := System.Run(w, Init(), acts).value;
    if SameSender(s.log[i], s.log[j]) {
      if i < j {
        CountersDiffer(w, s, i, j);
      } else {
        CountersDiffer(w, s, j, i);
      }
    }
  }

  /**
   * Published sessions, whoever their peers, are established and verified, and hold the keys and the id that
   * their handshake derived; an honest client holds the same.
   */
  lemma PublishedSessions(w: World, acts: seq<Act>, h: Handle)
    requires System.Run(w, Init(), acts).Some?
    requires h < |System.Run(w, Init(), acts).value.heap|
    ensures var s := System.Run(w, Init(), acts).value;
            s.heap[h].life.Published? ==> HoldsHandshake(w, s.heap[h])
  {
    AlwaysKept(w, acts);
    var s := System.Run(w, Init(), acts).value;
    if s.heap[h].life.Published? {
      PublishedCell(w, s.heap[h]);
    }
  }

  ghost predicate HoldsHandshake(w: World, c: Cell)
    requires c.life.Published?
  {
    var (d, e) := (c.data, Outcome(w, c.conn));
    && e.ok && d.state == Established && d.crypto.verified && d.tunnelIpOctet == Octet(c.life.slot)
    && d.crypto.txKey == e.data.crypto.txKey && d.crypto.rxKey == e.data.crypto.rxKey
    && d.sessionId == e.data.sessionId
    && (Honest(w, c.conn) ==> SharedWith(d, ClientFinal(c.conn.client.value)))
  }

  predicate SharedWith(d: SessionData, f: SessionData) {
    d.crypto.txKey == f.crypto.rxKey && d.crypto.rxKey == f.crypto.txKey && d.sessionId == f.sessionId
  }

  lemma PublishedCell(w: World, c: Cell)
    requires CellOk(c) && c.life.Published? && c.end == Outcome(w, c.conn)
    ensures HoldsHandshake(w, c)
  {
    if Honest(w, c.conn) {
      HonestOutcome(w, c.conn);
    }
  }

  /** No step changes the keys of a session from its publication until it is destroyed, whoever its peer. */
  lemma PublishedKeysAreStable(w: World, s: Sys, a: Act, h: Handle)
    requires Kept(w, s) && Can(w, s, a)
    requires h < |s.heap| && s.heap[h].life.Published?
    ensures h < |Do(w, s, a).heap|
    ensures var c := Do(w, s, a).heap[h];
            c.life.Freed? ||
            (c.life == s.heap[h].life && c.data.crypto.txKey == s.heap[h].data.crypto.txKey
             && c.data.crypto.rxKey == s.heap[h].data.crypto.rxKey && c.data.sessionId == s.heap[h].data.sessionId
             && c.data.state.Established?)
  {
    StepKeepsKept(w, s, a);
    assert CellOk(s.heap[h]) && CellOk(Do(w, s, a).heap[h]);
    LifeOfPublished(w, s, a, h);
  }

  lemma LifeOfPublished(w: World, s: Sys, a: Act, h: Handle)
    requires Threads.Inv(s) && Can(w, s, a) && h < |s.heap| && s.heap[h].life.Published?
    ensures h < |Do(w, s, a).heap|
    ensures Do(w, s, a).heap[h].life == s.heap[h].life || Do(w, s, a).heap[h].life.Freed?
    ensures Do(w, s, a).heap[h].end == s.heap[h].end
  {
    StepGrows(w, s, a);
    match a
    case L(b) => ListenerLeavesPublished(w, s, b, h);
    case M(b) => MainLeavesPublished(s, b, h);
    case _ => Threads.DataThreadsNeverFree(w, s, a, h);
  }

  lemma ListenerLeavesPublished(w: World, s: Sys, a: LAct, h: Handle)
    requires Threads.Inv(s) && CanL(w, s, a) && h < |s.heap| && s.heap[h].life.Published?
    ensures h < |DoL(w, s, a).heap| && DoL(w, s, a).heap[h].life == s.heap[h].life
  {
  }

  lemma MainLeavesPublished(s: Sys, a: MAct, h: Handle)
    requires CanM(s, a) && h < |s.heap| && s.heap[h].life.Published?
    ensures h < |DoM(s, a).heap|
    ensures DoM(s, a).heap[h].life == s.heap[h].life || DoM(s, a).heap[h].life.Freed?
  {
  }

  /**
   * The decode outside the lock uses the key that the session's handshake derived; for an honest client, the key
   * with which that client sends.
   */
  lemma DecodeUsesHandshakeKey(w: World, acts: seq<Act>)
    requires System.Run(w, Init(), acts).Some?
    requires CanU(w, System.Run(w, Init(), acts).value, Decode)
    ensures var s := System.Run(w, Init(), acts).value;
            var c := s.heap[s.u.h];
            && c.data.crypto.rxKey == Outcome(w, c.conn).data.crypto.rxKey
            && (Honest(w, c.conn) ==> c.data.crypto.rxKey == ClientFinal(c.conn.client.value).crypto.txKey)
  {
    AlwaysKept(w, acts);
    var s := System.Run(w, Init(), acts).value;
    PublishedCell(w, s.heap[s.u.h]);
  }
}
