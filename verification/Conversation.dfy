/**
 * A packet there and one back: that the steps of the system suffice for what it is for, with nobody interfering.
 */
module Conversation {
  import opened Bytes
  import opened Crypto
  import opened Handshake
  import opened Protocol
  import opened Tunnel
  import opened System
  import opened Delivery
  import opened Sending
  import Threads
  import Integrity

  /** Sealing does not fail. */
  ghost predicate SealsAll(suite: Suite) {
    forall k, n, p {:trigger suite.seal(k, n, p)} :: suite.seal(k, n, p).Some?
  }

  lemma OutboundExists(w: World, key: Key, id: u64, counter: u64, raw: seq<byte>)
    requires SealsAll(w.suite) && w.codec.Lawful() && |raw| <= 65499
    ensures Outbound(w.suite, w.codec, key, id, counter, raw).Some?
  {
    DroppedExactly(w.codec, raw);
  }

  /** All threads are between turns, and session h is published for an honest client that is about to come up. */
  ghost predicate Ready(w: World, s: Sys, h: Handle) {
    && Integrity.Kept(w, s) && w.Lawful() && SealsAll(w.suite)
    && s.u.UIdle? && s.t.TIdle? && s.lock.Nobody? && s.udpOpen && s.tunOpen
    && HonestAt(w, s, h) && s.heap[h].life.Published? && s.remotes[h].status.NotYet?
    && FindSession(s, s.heap[h].end.data.sessionId) == Some(h)
  }

  /** The session's octet leads to it. */
  ghost predicate OwnsOctet(s: Sys, h: Handle)
    requires h < |s.heap|
  {
    forall g :: 0 <= g < |s.heap| && g != h && s.heap[g].life.Published? ==>
      s.heap[g].data.tunnelIpOctet != s.heap[h].data.tunnelIpOctet
  }

  function ClientTurn(h: Handle, raw: seq<byte>): seq<Act> {
    [C(ClientUp(h)), C(ClientSend(h, raw))]
  }

  /** Nothing but the clients and what they did is different. */
  ghost predicate SameServer(s: Sys, s': Sys) {
    s' == s.(remotes := s'.remotes, log := s'.log, clientRead := s'.clientRead, clientSent := s'.clientSent)
  }

  lemma ComesUp(w: World, s: Sys, h: Handle)
    requires Ready(w, s, h)
    ensures CanC(w, s, ClientUp(h))
    ensures var s' := DoC(w, s, ClientUp(h));
            && Integrity.Kept(w, s') && SameServer(s, s') && s'.clientSent == s.clientSent && s'.remotes[h].status.Up?
  {
    assert Integrity.CellOk(s.heap[h]);
    Integrity.StepKeepsKept(w, s, C(ClientUp(h)));
  }

  lemma Sends(w: World, s: Sys, h: Handle, raw: seq<byte>) returns (d: seq<byte>)
    requires Integrity.Kept(w, s) && w.Lawful() && SealsAll(w.suite) && 1 <= |raw| <= 65499
    requires h < |s.heap| && h < |s.remotes| && s.remotes[h].status.Up?
    ensures CanC(w, s, ClientSend(h, raw)) && Made(w, s.heap[h], raw, d, false)
    ensures var s' := DoC(w, s, ClientSend(h, raw));
            && Integrity.Kept(w, s') && SameServer(s, s') && s'.clientSent == s.clientSent + [(h, d)]
            && s'.remotes[h].status.Up?
  {
    DroppedExactly(w.codec, raw);
    var r := s.remotes[h].data;
    OutboundExists(w, r.crypto.txKey, r.sessionId, r.crypto.txNonce, raw);
    d := Outbound(w.suite, w.codec, r.crypto.txKey, r.sessionId, r.crypto.txNonce, raw).value;
    ClientSendMakes(w, s, h, raw);
    Integrity.StepKeepsKept(w, s, C(ClientSend(h, raw)));
    SendKeepsUp(w, s, h, raw);
  }

  /** The honest client comes up and sends a packet. */
  lemma ClientSpeaks(w: World, s: Sys, h: Handle, raw: seq<byte>) returns (s': Sys, d: seq<byte>)
    requires Ready(w, s, h) && 1 <= |raw| <= 65499
    ensures System.Run(w, s, ClientTurn(h, raw)) == Some(s')
    ensures SameServer(s, s') && s'.clientSent == s.clientSent + [(h, d)]
    ensures Integrity.Kept(w, s') && h < |s'.remotes| && s'.remotes[h].status.Up? && Made(w, s.heap[h], raw, d, false)
  {
    ComesUp(w, s, h);
    var s1 := DoC(w, s, ClientUp(h));
    d := Sends(w, s1, h, raw);
    s' := DoC(w, s1, ClientSend(h, raw));
    TwoActs(w, s, s1, C(ClientUp(h)), C(ClientSend(h, raw)));
  }

  lemma TwoActs(w: World, s: Sys, s1: Sys, a: Act, b: Act)
    requires Can(w, s, a) && s1 == Do(w, s, a) && Can(w, s1, b)
    ensures System.Run(w, s, [a, b]) == Some(Do(w, s1, b))
  {
    assert [a, b] == [a] + [b] && [b] == [b] + [];
    RunOne(w, s, a, [b]);
    RunOne(w, s1, b, []);
  }

  lemma SendKeepsUp(w: World, s: Sys, h: Handle, raw: seq<byte>)
    requires CanC(w, s, ClientSend(h, raw))
    ensures var s' := DoC(w, s, ClientSend(h, raw));
            && s'.remotes[h].status.Up?
            && s' == s.(remotes := s'.remotes, log := s'.log, clientRead := s'.clientRead, clientSent := s'.clientSent)
  {
  }

  /** A reply on the server's TUN reaches the client that is up. */
  lemma ServerSpeaks(w: World, s: Sys, h: Handle, raw: seq<byte>) returns (acts: seq<Act>, s': Sys)
    requires Integrity.Kept(w, s) && w.Lawful() && SealsAll(w.suite)
    requires s.t.TIdle? && s.lock.Nobody? && s.udpOpen && 20 <= |raw| <= 65499
    requires h < |s.heap| && s.heap[h].life.Published? && s.heap[h].data.udp.peerKnown && OwnsOctet(s, h)
    requires s.heap[h].data.tunnelIpOctet == raw[19] && h < |s.remotes| && s.remotes[h].status.Up?
    ensures System.Run(w, s, acts) == Some(s')
    ensures s'.clientWrote == s.clientWrote + [(h, raw)] && s'.serverWrote == s.serverWrote
    ensures s'.clientSent == s.clientSent
    ensures exists d :: s'.serverSent == s.serverSent + [Parcel(h, d, s.heap[h].data.udp.peerAddr)]
  {
    var posting, s1, d := Posts(w, s, h, raw);
    s' := Receives(w, s1, h, raw, d);
    RunBoth(w, s, posting, [C(ClientReceive(h, d))]);
    acts := posting + [C(ClientReceive(h, d))];
    assert s'.serverSent == s.serverSent + [Parcel(h, d, s.heap[h].data.udp.peerAddr)];
  }

  /** From the client's socket to its TUN. */
  lemma Receives(w: World, s: Sys, h: Handle, raw: seq<byte>, d: seq<byte>) returns (s': Sys)
    requires Integrity.Kept(w, s) && w.Lawful() && raw != []
    requires h < |s.heap| && h < |s.remotes| && s.remotes[h].status.Up? && Made(w, s.heap[h], raw, d, true)
    ensures System.Run(w, s, [C(ClientReceive(h, d))]) == Some(s')
    ensures s' == s.(clientWrote := s.clientWrote + [(h, raw)])
  {
    ClientDelivers(w, s, h, raw, d);
    s' := DoC(w, s, ClientReceive(h, d));
    assert [C(ClientReceive(h, d))] == [C(ClientReceive(h, d))] + [];
    RunOne(w, s, C(ClientReceive(h, d)), []);
  }

  /** From the server's TUN to its socket. */
  lemma Posts(w: World, s: Sys, h: Handle, raw: seq<byte>) returns (acts: seq<Act>, s': Sys, d: seq<byte>)
    requires Integrity.Kept(w, s) && w.Lawful() && SealsAll(w.suite)
    requires s.t.TIdle? && s.lock.Nobody? && s.udpOpen && 20 <= |raw| <= 65499
    requires h < |s.heap| && s.heap[h].life.Published? && s.heap[h].data.udp.peerKnown && OwnsOctet(s, h)
    requires s.heap[h].data.tunnelIpOctet == raw[19]
    ensures System.Run(w, s, acts) == Some(s') && Integrity.Kept(w, s')
    ensures s' == s.(heap := s.heap[h := Spent(s.heap[h])], log := s'.log, routed := s'.routed,
                     serverSent := s.serverSent + [Parcel(h, d, s.heap[h].data.udp.peerAddr)])
    ensures Made(w, s'.heap[h], raw, d, true)
  {
    var c := s.heap[h];
    assert Integrity.CellOk(c);
    OutboundExists(w, c.data.crypto.txKey, c.data.sessionId, c.data.crypto.txNonce, raw);
    PacketIsSent(w, s, raw, h);
    acts, d := SendTurn(raw, true), SealedBy(w, c, raw).value;
    s' := System.Run(w, s, acts).value;
    assert MadeWith(w, c, raw, d, true, c.data.crypto.txNonce);
    SpentIsMade(w, c, raw, d);
    Integrity.RunKeepsKept(w, s, acts);
  }

  lemma SpentIsMade(w: World, c: Cell, raw: seq<byte>, d: seq<byte>)
    requires Made(w, c, raw, d, true)
    ensures Made(w, Spent(c), raw, d, true)
  {
    var n: u64 :| MadeWith(w, c, raw, d, true, n);
    assert MadeWith(w, Spent(c), raw, d, true, n);
  }

  /**
   * An honest client comes up and sends a packet; the server writes exactly that packet to its TUN and learns where
   * the client is; a packet for the session's octet goes there, and the client writes exactly that one.
   */
  lemma ThereAndBack(w: World, s: Sys, h: Handle, raw: seq<byte>, reply: seq<byte>, from: Address)
    returns (acts: seq<Act>)
    requires Ready(w, s, h) && OwnsOctet(s, h) && 1 <= |raw| <= 65499
    requires 20 <= |reply| <= 65499 && reply[19] == s.heap[h].data.tunnelIpOctet
    ensures System.Run(w, s, acts).Some?
    ensures var s' := System.Run(w, s, acts).value;
            && s'.serverWrote == s.serverWrote + [(h, raw)] && s'.clientWrote == s.clientWrote + [(h, reply)]
            && (exists d :: s'.clientSent == s.clientSent + [(h, d)])
            && exists d :: s'.serverSent == s.serverSent + [Parcel(h, d, from)]
  {
    var there, s1, d := There(w, s, h, raw, from);
    var back, s2 := ServerSpeaks(w, s1, h, reply);
    RunBoth(w, s, there, back);
    acts := there + back;
    assert s2.clientSent == s.clientSent + [(h, d)];
  }

  /** The first half: from the client's TUN to the server's. */
  lemma There(w: World, s: Sys, h: Handle, raw: seq<byte>, from: Address)
    returns (acts: seq<Act>, s': Sys, d: seq<byte>)
    requires Ready(w, s, h) && 1 <= |raw| <= 65499
    ensures System.Run(w, s, acts) == Some(s') && Integrity.Kept(w, s')
    ensures s' == s.(heap := s.heap[h := WithPeer(s.heap[h], from)], serverWrote := s.serverWrote + [(h, raw)],
                     remotes := s'.remotes, log := s'.log, clientRead := s'.clientRead,
                     clientSent := s.clientSent + [(h, d)])
    ensures h < |s'.remotes| && s'.remotes[h].status.Up?
  {
    var s1;
    s1, d := ClientSpeaks(w, s, h, raw);
    SameLookup(s, s1, s.heap[h].end.data.sessionId);
    ServerDelivers(w, s1, h, raw, d, from);
    s' := System.Run(w, s1, ListenerTurn(d, from)).value;
    Integrity.RunKeepsKept(w, s1, ListenerTurn(d, from));
    RunBoth(w, s, ClientTurn(h, raw), ListenerTurn(d, from));
    acts := ClientTurn(h, raw) + ListenerTurn(d, from);
  }

  lemma SameLookup(s: Sys, s': Sys, id: u64)
    requires s'.table == s.table && s'.heap == s.heap
    ensures FindSession(s', id) == FindSession(s, id)
  {
    SameScan(s, s', id);
  }
}
