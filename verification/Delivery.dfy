/**
 * Integrity says that nothing else is written to a TUN; these runs say that a client that connects is published
 * and that what is sent does get there when nothing interferes, so that the assumptions can be met.
 */
module Delivery {
  import opened Bytes
  import opened Crypto
  import opened Handshake
  import opened Protocol
  import opened Tunnel
  import opened System
  import Threads
  import Integrity
  import opened SessionTable

  /** The turn of the UDP listener on a datagram. */
  function ListenerTurn(d: seq<byte>, from: Address): seq<Act> {
    [U(Arrive(d, from)), U(GetLock), U(GetScan), U(GetUnlock),
     U(PeerLock), U(PeerStore), U(PeerUnlock), U(Decode), U(Write)]
  }

  /** The datagram was made from raw under the session's key, with some counter. */
  ghost predicate Made(w: World, c: Cell, raw: seq<byte>, d: seq<byte>, fromServer: bool) {
    exists n: u64 :: MadeWith(w, c, raw, d, fromServer, n)
  }

  ghost predicate MadeWith(w: World, c: Cell, raw: seq<byte>, d: seq<byte>, fromServer: bool, n: u64) {
    Outbound(w.suite, w.codec, KeyOf(c, fromServer), c.end.data.sessionId, n, raw) == Some(d)
  }

  /** The log shows that it was sealed by one of the modelled ends. */
  ghost predicate Logged(s: Sys, c: Cell, d: seq<byte>, fromServer: bool) {
    |d| >= TUNNEL_HEADER_SIZE &&
    exists e :: e in s.log && e.key == KeyOf(c, fromServer) && e.nonce == NonceOf(d) && e.ct == d[TUNNEL_HEADER_SIZE..]
  }

  lemma MadeIsGood(w: World, c: Cell, raw: seq<byte>, d: seq<byte>, fromServer: bool)
    requires w.codec.Lawful() && w.suite.SealOpens() && raw != [] && Made(w, c, raw, d, fromServer)
    ensures Peeked(d) == Some(c.end.data.sessionId) && |d| <= MAX_DATAGRAM
    ensures Inbound(w.suite, w.codec, KeyOf(c, fromServer), d) == Some(raw)
  {
    var n: u64 :| MadeWith(w, c, raw, d, fromServer, n);
    PipelineRoundTrip(w.suite, w.codec, KeyOf(c, fromServer), c.end.data.sessionId, n, raw);
  }

  lemma RunOne(w: World, s: Sys, a: Act, acts: seq<Act>)
    requires Can(w, s, a)
    ensures System.Run(w, s, [a] + acts) == System.Run(w, Do(w, s, a), acts)
  {
    assert ([a] + acts)[1..] == acts;
  }

  /** From the datagram's arrival to the lookup's result. */
  lemma LookupTurn(w: World, s: Sys, h: Handle, d: seq<byte>, from: Address)
    requires Threads.Inv(s) && s.u.UIdle? && s.lock.Nobody? && Peeked(d).Some? && |d| <= MAX_DATAGRAM
    requires FindSession(s, Peeked(d).value) == Some(h)
    ensures System.Run(w, s, ListenerTurn(d, from)[..4]) == Some(s.(u := UFound(d, from, h)))
  {
    var t := ListenerTurn(d, from);
    var s1 := s.(u := UGot(d, from));
    var s2 := s.(u := UScan(d, from), lock := Udp);
    SameScan(s, s2, Peeked(d).value);
    ScanTurn(w, s2, h, d, from);
    assert s2.(u := UFound(d, from, h), lock := Nobody) == s.(u := UFound(d, from, h));
    assert t[..4] == [t[0]] + [t[1], t[2], t[3]];
    RunOne(w, s, t[0], [t[1], t[2], t[3]]);
    assert [t[1], t[2], t[3]] == [t[1]] + [t[2], t[3]];
    RunOne(w, s1, t[1], [t[2], t[3]]);
  }

  lemma ScanTurn(w: World, s: Sys, h: Handle, d: seq<byte>, from: Address)
    requires s.u == UScan(d, from) && Peeked(d).Some? && FindSession(s, Peeked(d).value) == Some(h)
    ensures System.Run(w, s, [U(GetScan), U(GetUnlock)]) == Some(s.(u := UFound(d, from, h), lock := Nobody))
  {
    var s1 := s.(u := UGetUnlock(d, from, Some(h)));
    assert [U(GetScan), U(GetUnlock)] == [U(GetScan)] + [U(GetUnlock)];
    RunOne(w, s, U(GetScan), [U(GetUnlock)]);
    assert [U(GetUnlock)] == [U(GetUnlock)] + [];
    RunOne(w, s1, U(GetUnlock), []);
  }

  lemma SameScan(s: Sys, s': Sys, id: u64)
    requires s.table == s'.table && s.heap == s'.heap
    ensures FindSession(s', id) == FindSession(s, id)
  {
    var p := (d: SessionData) => d.sessionId == id;
    var f := seq(|s.table|, i requires 0 <= i < |s.table| =>
      s.table[i].Some? && s.table[i].value < |s.heap| && p(s.heap[s.table[i].value].data));
    var f' := seq(|s'.table|, i requires 0 <= i < |s'.table| =>
      s'.table[i].Some? && s'.table[i].value < |s'.heap| && p(s'.heap[s'.table[i].value].data));
    assert f == f';
  }

  ghost function WithPeer(c: Cell, from: Address): Cell {
    c.(data := c.data.(udp := c.data.udp.(peerAddr := from, peerKnown := true)))
  }

  /** From the lookup's result to the decode. */
  lemma PeerTurn(w: World, s: Sys, h: Handle, d: seq<byte>, from: Address)
    requires s.u == UFound(d, from, h) && s.lock.Nobody? && h < |s.heap|
    ensures System.Run(w, s, ListenerTurn(d, from)[4..7]) ==
              Some(s.(u := UDecode(d, h), heap := s.heap[h := WithPeer(s.heap[h], from)]))
  {
    var t := ListenerTurn(d, from);
    var heap := s.heap[h := WithPeer(s.heap[h], from)];
    var s1 := s.(u := UStore(d, from, h), lock := Udp);
    var s2 := s.(u := UStoreUnlock(d, h), lock := Udp, heap := heap);
    assert s.(u := UDecode(d, h), heap := heap).lock == Nobody;
    assert t[4..7] == [t[4]] + [t[5], t[6]];
    RunOne(w, s, t[4], [t[5], t[6]]);
    assert [t[5], t[6]] == [t[5]] + [t[6]];
    RunOne(w, s1, t[5], [t[6]]);
    assert [t[6]] == [t[6]] + [];
    RunOne(w, s2, t[6], []);
  }

  /** From the decode to the TUN. */
  lemma WriteTurn(w: World, s: Sys, h: Handle, d: seq<byte>, from: Address, raw: seq<byte>)
    requires s.u == UDecode(d, h) && s.tunOpen && h < |s.heap|
    requires Inbound(w.suite, w.codec, s.heap[h].data.crypto.rxKey, d) == Some(raw)
    ensures System.Run(w, s, ListenerTurn(d, from)[7..]) ==
              Some(s.(u := UIdle, serverWrote := s.serverWrote + [(h, raw)]))
  {
    var t := ListenerTurn(d, from);
    var s1 := s.(u := UWrite(raw, h));
    assert t[7..] == [t[7]] + [t[8]];
    assert CanU(w, s, Decode) && DoU(w, s, Decode) == s1;
    RunOne(w, s, t[7], [t[8]]);
    assert [t[8]] == [t[8]] + [];
    RunOne(w, s1, t[8], []);
  }

  lemma {:induction false} RunBoth(w: World, s: Sys, first: seq<Act>, second: seq<Act>)
    requires System.Run(w, s, first).Some?
    ensures System.Run(w, s, first + second) == System.Run(w, System.Run(w, s, first).value, second)
    decreases |first|
  {
    if first == [] {
      assert first + second == second;
    } else {
      assert (first + second)[1..] == first[1..] + second;
      RunBoth(w, Do(w, s, first[0]), first[1..], second);
    }
  }

  /** The listener's turn on a datagram that belongs to session h and opens to raw. */
  lemma UndisturbedTurn(w: World, s: Sys, h: Handle, raw: seq<byte>, d: seq<byte>, from: Address)
    requires Threads.Inv(s) && s.u.UIdle? && s.lock.Nobody? && s.tunOpen && h < |s.heap|
    requires Peeked(d).Some? && |d| <= MAX_DATAGRAM && FindSession(s, Peeked(d).value) == Some(h)
    requires Inbound(w.suite, w.codec, s.heap[h].data.crypto.rxKey, d) == Some(raw)
    ensures System.Run(w, s, ListenerTurn(d, from)) ==
              Some(s.(heap := s.heap[h := WithPeer(s.heap[h], from)], serverWrote := s.serverWrote + [(h, raw)]))
  {
    var t := ListenerTurn(d, from);
    LookupTurn(w, s, h, d, from);
    var s1 := s.(u := UFound(d, from, h));
    PeerTurn(w, s1, h, d, from);
    var s2 := s1.(u := UDecode(d, h), heap := s.heap[h := WithPeer(s.heap[h], from)]);
    WriteTurn(w, s2, h, d, from, raw);
    RunBoth(w, s1, t[4..7], t[7..]);
    RunBoth(w, s, t[..4], t[4..]);
    Parts(t, 4, 7);
  }

  /**
   * A datagram made under a published session's key, which the listener takes up without interference, is
   * written to the server's TUN as the packet it was made from, and its sender becomes the peer.
   */
  lemma ServerDelivers(w: World, s: Sys, h: Handle, raw: seq<byte>, d: seq<byte>, from: Address)
    requires Integrity.Kept(w, s) && w.codec.Lawful() && w.suite.SealOpens() && raw != []
    requires Threads.IsPublished(s, h) && Made(w, s.heap[h], raw, d, false)
    requires FindSession(s, s.heap[h].end.data.sessionId) == Some(h)
    requires s.u.UIdle? && s.lock.Nobody? && s.tunOpen
    ensures System.Run(w, s, ListenerTurn(d, from)) ==
              Some(s.(heap := s.heap[h := WithPeer(s.heap[h], from)], serverWrote := s.serverWrote + [(h, raw)]))
    ensures Logged(s, s.heap[h], d, false) ==> Authentic(w, s, s.heap[h].data.crypto.rxKey, d)
  {
    assert Integrity.CellOk(s.heap[h]);
    MadeIsGood(w, s.heap[h], raw, d, false);
    UndisturbedTurn(w, s, h, raw, d, from);
  }

  /** Likewise a datagram made under the server's key, at a client that is up. */
  lemma ClientDelivers(w: World, s: Sys, h: Handle, raw: seq<byte>, d: seq<byte>)
    requires Integrity.Kept(w, s) && w.codec.Lawful() && w.suite.SealOpens() && raw != []
    requires h < |s.heap| && Made(w, s.heap[h], raw, d, true) && s.remotes[h].status.Up?
    ensures CanC(w, s, ClientReceive(h, d))
    ensures DoC(w, s, ClientReceive(h, d)) == s.(clientWrote := s.clientWrote + [(h, raw)])
    ensures Logged(s, s.heap[h], d, true) ==> Unforged(w, s, C(ClientReceive(h, d)))
  {
    assert Integrity.RemoteOk(w, s.heap[h], s.remotes[h]);
    MadeIsGood(w, s.heap[h], raw, d, true);
  }

  lemma Emits(w: World, h: Handle, fromServer: bool, k: nat, raw: seq<byte>, ctx: CryptoContext, d: seq<byte>, c: Cell)
    requires w.suite.SealOpens() && ctx.txKey == KeyOf(c, fromServer)
    requires Outbound(w.suite, w.codec, ctx.txKey, c.end.data.sessionId, ctx.txNonce, raw) == Some(d)
    ensures Made(w, c, raw, d, fromServer) && |d| >= TUNNEL_HEADER_SIZE
    ensures |Sealed(h, fromServer, k, raw, ctx, Some(d))| == 1
    ensures var e := Sealed(h, fromServer, k, raw, ctx, Some(d))[0];
            e.key == KeyOf(c, fromServer) && e.nonce == NonceOf(d) && e.ct == d[TUNNEL_HEADER_SIZE..]
  {
    assert MadeWith(w, c, raw, d, fromServer, ctx.txNonce);
    HeaderRoundTrip(w.suite, ctx.txKey, c.end.data.sessionId, ctx.txNonce, Compressed(w.codec, raw, MAX_PLAINTEXT));
  }

  /** Every datagram that a client sends is made so, and logged. */
  lemma ClientSendMakes(w: World, s: Sys, h: Handle, raw: seq<byte>)
    requires Integrity.Kept(w, s) && w.suite.SealOpens() && CanC(w, s, ClientSend(h, raw))
    ensures var c := s.remotes[h].data;
            var d := Outbound(w.suite, w.codec, c.crypto.txKey, c.sessionId, c.crypto.txNonce, raw);
            var s' := DoC(w, s, ClientSend(h, raw));
            && s'.clientSent == s.clientSent + (if d.Some? then [(h, d.value)] else [])
            && (d.Some? ==> Made(w, s.heap[h], raw, d.value, false) && Logged(s', s.heap[h], d.value, false))
  {
    var c := s.remotes[h];
    assert Integrity.RemoteOk(w, s.heap[h], c);
    var d := Outbound(w.suite, w.codec, c.data.crypto.txKey, c.data.sessionId, c.data.crypto.txNonce, raw);
    if d.Some? {
      Emits(w, h, false, c.tries, raw, c.data.crypto, d.value, s.heap[h]);
      var e := Sealed(h, false, c.tries, raw, c.data.crypto, d)[0];
      assert DoC(w, s, ClientSend(h, raw)).log == s.log + [e];
    }
  }

  /** So is every datagram that the TUN sender seals, and it goes to the recorded peer. */
  lemma ServerSealMakes(w: World, s: Sys)
    requires Integrity.Kept(w, s) && w.suite.SealOpens() && CanT(w, s, Seal)
    ensures var c := s.heap[s.t.h].data;
            var d := Outbound(w.suite, w.codec, c.crypto.txKey, c.sessionId, c.crypto.txNonce, s.t.raw);
            && (d.Some? ==> Made(w, s.heap[s.t.h], s.t.raw, d.value, true)
                            && Logged(DoT(w, s, Seal), s.heap[s.t.h], d.value, true)
                            && DoT(w, s, Seal).t == TUnlock(Some(Parcel(s.t.h, d.value, c.udp.peerAddr))))
            && (d.None? ==> DoT(w, s, Seal).t == TUnlock(None))
  {
    var c := s.heap[s.t.h];
    assert Integrity.CellOk(c);
    var d := Outbound(w.suite, w.codec, c.data.crypto.txKey, c.data.sessionId, c.data.crypto.txNonce, s.t.raw);
    if d.Some? {
      Emits(w, s.t.h, true, c.tries, s.t.raw, c.data.crypto, d.value, c);
      var e := Sealed(s.t.h, true, c.tries, s.t.raw, c.data.crypto, d)[0];
      assert DoT(w, s, Seal).log == s.log + [e];
    }
  }

  // ---- connections ----

  /** The turn of the TCP listener on a connection whose handshake succeeds. */
  function AcceptTurn(k: Connection): seq<Act> {
    [L(Accept(k)), L(SendSuccess), L(FinishHandshake), L(AddLock), L(AddInsert), L(AddUnlock)]
  }

  ghost function PublishedAs(w: World, k: Connection, f: nat): Cell {
    var e := Outcome(w, k);
    Cell(k, e, e.data.(tunnelIpOctet := Octet(f)), Published(f), true, 0)
  }

  /** The state after it: one more session, in slot f. */
  ghost function Joined(w: World, s: Sys, k: Connection, f: nat): Sys
    requires f < |s.table|
  {
    s.(heap := s.heap + [PublishedAs(w, k, f)], remotes := s.remotes + [Remote(Blank(Client), NotYet, 0)],
       table := s.table[f := Some(|s.heap|)])
  }

  lemma Arrives(w: World, s: Sys, k: Connection)
    requires s.l.LIdle?
    ensures System.Run(w, s, AcceptTurn(k)[..1]) ==
              Some(s.(l := LHandshake(|s.heap|), heap := s.heap + [Arrived(w, k)],
                      remotes := s.remotes + [Remote(Blank(Client), NotYet, 0)]))
  {
    assert AcceptTurn(k)[..1] == [L(Accept(k))] + [];
    RunOne(w, s, L(Accept(k)), []);
  }

  /** The handshake's part of the turn. */
  lemma HandshakeTurn(w: World, s: Sys, k: Connection, h: Handle)
    requires s.l == LHandshake(h) && h < |s.heap| && s.heap[h].end.ok
    ensures System.Run(w, s, AcceptTurn(k)[1..3]) ==
              Some(s.(l := LReady(h), heap := s.heap[h := s.heap[h].(data := s.heap[h].end.data, ready := true)]))
  {
    var t := AcceptTurn(k);
    var c := s.heap[h];
    var c1 := c.(data := c.end.data.(state := WaitAuth), ready := true);
    var s1 := s.(l := LSucceeding(h), heap := s.heap[h := c1]);
    assert t[1..3] == [t[1]] + [t[2]];
    RunOne(w, s, t[1], [t[2]]);
    assert s1.heap[h := c1.(data := c.end.data)] == s.heap[h := c1.(data := c.end.data)];
    assert [t[2]] == [t[2]] + [];
    RunOne(w, s1, t[2], []);
  }

  /** The publication's part. */
  lemma PublishTurn(w: World, s: Sys, k: Connection, h: Handle)
    requires s.l == LReady(h) && h < |s.heap| && s.lock.Nobody? && FreeIndex(s) < |s.table|
    ensures var f := FreeIndex(s);
            var c := s.heap[h];
            var d := c.data.(tunnelIpOctet := Octet(f));
            System.Run(w, s, AcceptTurn(k)[3..]) ==
              Some(s.(l := LIdle, table := s.table[f := Some(h)],
                      heap := s.heap[h := c.(data := d, life := Published(f))]))
  {
    var t := AcceptTurn(k);
    var f, c := FreeIndex(s), s.heap[h];
    var cell := c.(data := c.data.(tunnelIpOctet := Octet(f)), life := Published(f));
    var s1 := s.(l := LLocked(h), lock := Listener);
    var s2 := s1.(l := LUnlock(h, true), table := s.table[f := Some(h)], heap := s.heap[h := cell]);
    assert s2.(l := LIdle, lock := Nobody) == s.(l := LIdle, table := s2.table, heap := s2.heap);
    assert t[3..] == [t[3]] + [t[4], t[5]];
    RunOne(w, s, t[3], [t[4], t[5]]);
    SameFree(s, s1);
    assert [t[4], t[5]] == [t[4]] + [t[5]];
    RunOne(w, s1, t[4], [t[5]]);
    assert [t[5]] == [t[5]] + [];
    RunOne(w, s2, t[5], []);
  }

  lemma SameFree(s: Sys, s': Sys)
    requires s.table == s'.table
    ensures FreeIndex(s) == FreeIndex(s')
  {
  }

  /** The session of a connection that is being accepted: CONNECTING with no keys, then WAIT_AUTH, then ESTABLISHED. */
  lemma StatesOnAccept(w: World, s: Sys, k: Connection)
    ensures CanL(w, s, Accept(k)) ==>
              var d := DoL(w, s, Accept(k)).heap[|s.heap|].data;
              d.state == Connecting && d.sessionId == k.id && !d.crypto.verified && !d.udp.peerKnown
    ensures CanL(w, s, SendSuccess) ==> DoL(w, s, SendSuccess).heap[s.l.h].data.state == WaitAuth
    ensures CanL(w, s, FinishHandshake) ==>
              DoL(w, s, FinishHandshake).heap[s.l.h].data == s.heap[s.l.h].end.data
  {
  }

  /** session_destroy, on the client's side. */
  lemma GoesDown(w: World, s: Sys, h: Handle)
    requires CanC(w, s, ClientDown(h))
    ensures DoC(w, s, ClientDown(h)).remotes[h] == s.remotes[h].(data := Blank(Client), status := Down)
  {
  }

  /** A client that has gone down sends and receives nothing more, and stays as it is. */
  lemma DownIsFinal(w: World, s: Sys, h: Handle, a: Act)
    requires Can(w, s, a) && h < |s.remotes| && s.remotes[h].status.Down?
    ensures a.C? ==> a.c.h != h
    ensures h < |Do(w, s, a).remotes| && Do(w, s, a).remotes[h] == s.remotes[h]
  {
    match a
    case L(b) => ListenerLeavesRemotes(w, s, b, h);
    case C(b) => OthersLeaveRemote(w, s, b, h);
    case U(b) => assert DoU(w, s, b).remotes == s.remotes;
    case T(b) => assert DoT(w, s, b).remotes == s.remotes;
    case M(b) => assert DoM(s, b).remotes == s.remotes;
  }

  lemma ListenerLeavesRemotes(w: World, s: Sys, a: LAct, h: Handle)
    requires CanL(w, s, a) && h < |s.remotes|
    ensures h < |DoL(w, s, a).remotes| && DoL(w, s, a).remotes[h] == s.remotes[h]
  {
  }

  lemma OthersLeaveRemote(w: World, s: Sys, a: CAct, h: Handle)
    requires CanC(w, s, a) && h < |s.remotes| && s.remotes[h].status.Down?
    ensures a.h != h && h < |DoC(w, s, a).remotes| && DoC(w, s, a).remotes[h] == s.remotes[h]
  {
  }

  /** A connection whose handshake succeeds is published in the lowest free slot, if there is one. */
  lemma Joins(w: World, s: Sys, k: Connection)
    requires s.l.LIdle? && s.lock.Nobody? && FreeIndex(s) < |s.table| && Outcome(w, k).ok
    ensures System.Run(w, s, AcceptTurn(k)) == Some(Joined(w, s, k, FreeIndex(s)))
  {
    var t := AcceptTurn(k);
    var h := |s.heap|;
    Arrives(w, s, k);
    var s1 := System.Run(w, s, t[..1]).value;
    JoinsFrom(w, s1, k, h);
    SameFree(s, s1);
    RunBoth(w, s, t[..1], t[1..]);
    Parts(t, 1, 1);
    assert s1.heap[h := PublishedAs(w, k, FreeIndex(s))] == s.heap + [PublishedAs(w, k, FreeIndex(s))];
  }

  lemma JoinsFrom(w: World, s: Sys, k: Connection, h: Handle)
    requires s.l == LHandshake(h) && h < |s.heap| && s.lock.Nobody? && FreeIndex(s) < |s.table|
    requires s.heap[h].end.ok && s.heap[h].life.Private?
    ensures var f := FreeIndex(s);
            var d := s.heap[h].end.data.(tunnelIpOctet := Octet(f));
            System.Run(w, s, AcceptTurn(k)[1..]) ==
              Some(s.(l := LIdle, table := s.table[f := Some(h)],
                      heap := s.heap[h := s.heap[h].(data := d, life := Published(f), ready := true)]))
  {
    var t := AcceptTurn(k);
    HandshakeTurn(w, s, k, h);
    var s1 := System.Run(w, s, t[1..3]).value;
    SameFree(s, s1);
    PublishTurn(w, s1, k, h);
    RunBoth(w, s, t[1..3], t[3..]);
    Parts(t, 1, 3);
    var c := s.heap[h].(data := s.heap[h].end.data.(tunnelIpOctet := Octet(FreeIndex(s))));
    assert s1.heap[h := c.(life := Published(FreeIndex(s)), ready := true)]
        == s.heap[h := c.(life := Published(FreeIndex(s)), ready := true)];
  }

  lemma Parts(t: seq<Act>, i: nat, j: nat)
    requires i <= j <= |t|
    ensures t[i..j] + t[j..] == t[i..] && t[..i] + t[i..] == t
  {
  }

  /** Two connections of the world with the toy primitives, with the given ephemerals. */
  function ToyServer(): Identity { Identity(Zeros(64)[..32], Zeros(64)) }

  function ToySetup(client: Key, server: Key, id: u64): Setup {
    var draws := Draws(Some(client), Zeros(16), Zeros(32), [0, 0], [0, 0], [0, 0]);
    Setup(TOY_SUITE, ToyServer(), ToyServer(), None, 0, id, draws, draws.(ephemeral := Some(server)))
  }

  function ToyConnection(client: Key, server: Key, id: u64): Connection {
    var x := ToySetup(client, server, id);
    Connection(x.serverDraws, id, Total(x, Client), Some(x))
  }

  const TOY_WORLD: World := World(TOY_SUITE, TOY_CODEC, ToyServer())

  lemma ToyIsHonest(client: Key, server: Key, id: u64)
    ensures Honest(TOY_WORLD, ToyConnection(client, server, id))
  {
    ToySuiteIsLawful();
  }

  lemma ToyKeys(client: Key, server: Key, id: u64)
    ensures var e := Outcome(TOY_WORLD, ToyConnection(client, server, id));
            e.ok && e.data.crypto.txKey == client && e.data.crypto.rxKey == server
    ensures Ephemeral(TOY_WORLD, ToyConnection(client, server, id)) == server
  {
    ToyIsHonest(client, server, id);
    Integrity.HonestOutcome(TOY_WORLD, ToyConnection(client, server, id));
    ToyFinal(client, server, id);
  }

  lemma ToyFinal(client: Key, server: Key, id: u64)
    ensures var e := ServerFinal(ToySetup(client, server, id));
            e.crypto.txKey == client && e.crypto.rxKey == server
  {
  }

  lemma FirstFree(s: Sys)
    requires |s.table| == MAX_SESSIONS && forall j :: 1 <= j < MAX_SESSIONS ==> s.table[j].None?
    ensures FreeIndex(s) == if s.table[0].None? then 0 else 1
  {
    assert s.table[1].None?;
  }

  lemma BothJoin(w: World, k: Connection, l: Connection)
    requires Outcome(w, k).ok && Outcome(w, l).ok
    ensures System.Run(w, Init(), AcceptTurn(k) + AcceptTurn(l)) == Some(Joined(w, Joined(w, Init(), k, 0), l, 1))
  {
    FirstFree(Init());
    Joins(w, Init(), k);
    var s := Joined(w, Init(), k, 0);
    FirstFree(s);
    Joins(w, s, l);
    RunBoth(w, Init(), AcceptTurn(k), AcceptTurn(l));
  }

  lemma TwoDoNotCollide(w: World, s: Sys)
    requires |s.heap| == 2
    requires Ephemeral(w, s.heap[0].conn) != Ephemeral(w, s.heap[1].conn)
    requires AllDiffer(KeyOf(s.heap[0], true), KeyOf(s.heap[0], false), KeyOf(s.heap[1], true), KeyOf(s.heap[1], false))
    ensures FreshDraws(w, s) && NoCollision(w, s)
  {
    SeparatePair(s.heap[0], s.heap[1]);
  }

  lemma SeparatePair(c: Cell, e: Cell)
    requires AllDiffer(KeyOf(c, true), KeyOf(c, false), KeyOf(e, true), KeyOf(e, false))
    ensures Separate(c, e) && Separate(e, c)
  {
  }

  /** The run publishes the two connections and meets the assumptions of Integrity.dfy. */
  ghost predicate PublishesTwo(w: World, acts: seq<Act>, k: Connection, l: Connection) {
    && System.Run(w, Init(), acts).Some? && UnforgedRun(w, Init(), acts)
    && var s := System.Run(w, Init(), acts).value;
       && FreshDraws(w, s) && NoCollision(w, s) && |s.heap| == 2
       && s.heap[0].conn == k && s.heap[1].conn == l
       && Threads.IsPublished(s, 0) && Threads.IsPublished(s, 1)
  }

  ghost predicate AllDiffer(a: Key, b: Key, c: Key, d: Key) {
    a != b && a != c && a != d && b != c && b != d && c != d
  }

  lemma BothPublished(w: World, k: Connection, l: Connection)
    requires Outcome(w, k).ok && Outcome(w, l).ok && Ephemeral(w, k) != Ephemeral(w, l)
    requires var (c, e) := (Outcome(w, k).data.crypto, Outcome(w, l).data.crypto);
             AllDiffer(c.txKey, c.rxKey, e.txKey, e.rxKey)
    ensures PublishesTwo(w, AcceptTurn(k) + AcceptTurn(l), k, l)
  {
    BothJoin(w, k, l);
    ListenerActs(k, l);
    EndPublishesTwo(w, AcceptTurn(k) + AcceptTurn(l), Joined(w, Joined(w, Init(), k, 0), l, 1), k, l);
  }

  lemma ListenerActs(k: Connection, l: Connection)
    ensures forall a <- AcceptTurn(k) + AcceptTurn(l) :: a.L?
  {
  }

  lemma EndPublishesTwo(w: World, acts: seq<Act>, s: Sys, k: Connection, l: Connection)
    requires System.Run(w, Init(), acts) == Some(s) && forall a <- acts :: a.L?
    requires |s.heap| == 2 && s.heap[0].conn == k && s.heap[1].conn == l && Ephemeral(w, k) != Ephemeral(w, l)
    requires s.heap[0].life.Published? && s.heap[1].life.Published?
    requires var (c, e) := (s.heap[0].end.data.crypto, s.heap[1].end.data.crypto);
             AllDiffer(c.txKey, c.rxKey, e.txKey, e.rxKey)
    ensures PublishesTwo(w, acts, k, l)
  {
    TwoDoNotCollide(w, s);
    AcceptingOpensNothing(w, Init(), acts);
  }

  /** The assumptions can be met by two honest connections, with any four different ephemerals. */
  lemma ConnectionsExist(a: Key, b: Key, c: Key, d: Key, id: u64, other: u64)
    requires AllDiffer(a, b, c, d)
    ensures TOY_WORLD.Lawful()
    ensures Honest(TOY_WORLD, ToyConnection(a, b, id)) && Honest(TOY_WORLD, ToyConnection(c, d, other))
    ensures var (k, l) := (ToyConnection(a, b, id), ToyConnection(c, d, other));
            PublishesTwo(TOY_WORLD, AcceptTurn(k) + AcceptTurn(l), k, l)
  {
    ToySuiteIsLawful();
    ToyCodecIsLawful();
    ToyIsHonest(a, b, id);
    ToyIsHonest(c, d, other);
    ToyPublishes(a, b, c, d, id, other);
  }

  lemma ToyPublishes(a: Key, b: Key, c: Key, d: Key, id: u64, other: u64)
    requires AllDiffer(a, b, c, d)
    ensures var (k, l) := (ToyConnection(a, b, id), ToyConnection(c, d, other));
            PublishesTwo(TOY_WORLD, AcceptTurn(k) + AcceptTurn(l), k, l)
  {
    ToyKeys(a, b, id);
    ToyKeys(c, d, other);
    BothPublished(TOY_WORLD, ToyConnection(a, b, id), ToyConnection(c, d, other));
  }

  lemma {:induction false} AcceptingOpensNothing(w: World, s: Sys, acts: seq<Act>)
    requires System.Run(w, s, acts).Some? && forall a <- acts :: a.L?
    ensures UnforgedRun(w, s, acts)
    decreases |acts|
  {
    if acts != [] {
      AcceptingOpensNothing(w, Do(w, s, acts[0]), acts[1..]);
    }
  }
}
