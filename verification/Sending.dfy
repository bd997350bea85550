/**
 * What the server hands to its UDP socket: the TUN sender's turn from the packet to the datagram, and where every
 * datagram of a run went.
 */
module Sending {
  import opened Bytes
  import opened Handshake
  import opened Tunnel
  import opened System
  import opened Delivery
  import opened PeerAddress
  import Allocation
  import SessionManager
  import SessionTable
  import Threads
  import Integrity

  // ---- an undisturbed turn of the TUN sender ----

  function RouteTurn(raw: seq<byte>): seq<Act> {
    [T(ReadTun(raw)), T(RouteLock), T(RouteScan)]
  }

  /** The session's cell once it has sealed a datagram, or tried to. */
  ghost function Spent(c: Cell): Cell {
    c.(data := Counted(c.data), tries := c.tries + 1)
  }

  /** What the session makes of the packet. */
  ghost function SealedBy(w: World, c: Cell, raw: seq<byte>): Option<seq<byte>> {
    Outbound(w.suite, w.codec, c.data.crypto.txKey, c.data.sessionId, c.data.crypto.txNonce, raw)
  }

  lemma ReadAndLock(w: World, s: Sys, raw: seq<byte>)
    requires s.t.TIdle? && s.lock.Nobody? && w.codec.Lawful() && 20 <= |raw| <= 65499
    ensures System.Run(w, s, RouteTurn(raw)[..2]) == Some(s.(t := TScan(raw), lock := Tun))
  {
    DroppedExactly(w.codec, raw);
    var t := RouteTurn(raw);
    var s1 := s.(t := TRead(raw));
    assert t[..2] == [t[0]] + [t[1]];
    RunOne(w, s, t[0], [t[1]]);
    assert [t[1]] == [t[1]] + [];
    RunOne(w, s1, t[1], []);
  }

  lemma Scans(w: World, s: Sys, raw: seq<byte>)
    requires s.t == TScan(raw) && |raw| >= 20
    ensures System.Run(w, s, RouteTurn(raw)[2..]) == Some(DoT(w, s, RouteScan))
  {
    assert RouteTurn(raw)[2..] == [T(RouteScan)] + [];
    RunOne(w, s, T(RouteScan), []);
  }

  /** Up to the scan, with the lock held: the one session selected, or none. */
  lemma Routes(w: World, s: Sys, raw: seq<byte>)
    requires s.t.TIdle? && s.lock.Nobody? && w.codec.Lawful() && 20 <= |raw| <= 65499
    ensures System.Run(w, s, RouteTurn(raw)) == Some(DoT(w, s.(t := TScan(raw), lock := Tun), RouteScan))
  {
    var t := RouteTurn(raw);
    ReadAndLock(w, s, raw);
    Scans(w, s.(t := TScan(raw), lock := Tun), raw);
    RunBoth(w, s, t[..2], t[2..]);
    assert t[..2] + t[2..] == t;
  }

  lemma SealStep(w: World, s: Sys, raw: seq<byte>, h: Handle)
    requires s.t == TSeal(raw, h) && h < |s.heap|
    ensures CanT(w, s, Seal)
    ensures var (c, s') := (s.heap[h], DoT(w, s, Seal));
            var d := SealedBy(w, c, raw);
            && s'.t == TUnlock(if d.Some? then Some(Parcel(h, d.value, c.data.udp.peerAddr)) else None)
            && s' == s.(t := s'.t, heap := s.heap[h := Spent(c)], log := s'.log, routed := s'.routed)
  {
  }

  lemma UnlockAndSend(w: World, s: Sys, p: Parcel)
    requires s.t == TUnlock(Some(p)) && s.udpOpen
    ensures System.Run(w, s, [T(RouteUnlock), T(Send)]) ==
              Some(s.(t := TIdle, lock := Nobody, serverSent := s.serverSent + [p]))
  {
    assert [T(RouteUnlock), T(Send)] == [T(RouteUnlock)] + [T(Send)];
    RunOne(w, s, T(RouteUnlock), [T(Send)]);
    assert [T(Send)] == [T(Send)] + [];
    RunOne(w, s.(t := TSend(p), lock := Nobody), T(Send), []);
  }

  lemma UnlockOnly(w: World, s: Sys)
    requires s.t == TUnlock(None)
    ensures System.Run(w, s, [T(RouteUnlock)]) == Some(s.(t := TIdle, lock := Nobody))
  {
    assert [T(RouteUnlock)] == [T(RouteUnlock)] + [];
    RunOne(w, s, T(RouteUnlock), []);
  }

  /** From a selected session to the socket. */
  lemma SealAndSend(w: World, s: Sys, raw: seq<byte>, h: Handle)
    requires s.t == TSeal(raw, h) && h < |s.heap| && s.udpOpen
    ensures var (c, d) := (s.heap[h], SealedBy(w, s.heap[h], raw));
            var r := System.Run(w, s, [T(Seal), T(RouteUnlock)] + if d.Some? then [T(Send)] else []);
            var sent := if d.Some? then [Parcel(h, d.value, c.data.udp.peerAddr)] else [];
            && r.Some?
            && r.value == s.(t := TIdle, lock := Nobody, heap := s.heap[h := Spent(c)],
                             serverSent := s.serverSent + sent, log := r.value.log, routed := r.value.routed)
  {
    SealStep(w, s, raw, h);
    var s1 := DoT(w, s, Seal);
    var d := SealedBy(w, s.heap[h], raw);
    if d.Some? {
      UnlockAndSend(w, s1, s1.t.parcel.value);
      assert [T(Seal), T(RouteUnlock)] + [T(Send)] == [T(Seal)] + [T(RouteUnlock), T(Send)];
      RunOne(w, s, T(Seal), [T(RouteUnlock), T(Send)]);
    } else {
      UnlockOnly(w, s1);
      assert [T(Seal), T(RouteUnlock)] + [] == [T(Seal)] + [T(RouteUnlock)];
      RunOne(w, s, T(Seal), [T(RouteUnlock)]);
    }
  }

  /** The whole turn, if a session is selected. */
  function SendTurn(raw: seq<byte>, sends: bool): seq<Act> {
    RouteTurn(raw) + ([T(Seal), T(RouteUnlock)] + if sends then [T(Send)] else [])
  }

  /**
   * A packet for the octet of a published, established session with a known peer, none such being in a lower slot,
   * that the TUN sender takes up without interference: exactly the datagram sealed under that session's key, id
   * and counter is handed to the socket, for that peer; nothing if sealing fails. The counter is used up.
   */
  lemma PacketIsSent(w: World, s: Sys, raw: seq<byte>, h: Handle)
    requires Threads.Inv(s) && s.t.TIdle? && s.lock.Nobody? && s.udpOpen && w.codec.Lawful() && 20 <= |raw| <= 65499
    requires h < |s.heap| && s.heap[h].life.Published? && s.heap[h].data.state == Established
    requires s.heap[h].data.udp.peerKnown && s.heap[h].data.tunnelIpOctet == raw[19]
    requires forall g :: 0 <= g < |s.heap| && s.heap[g].life.Published? && s.heap[g].data.state == Established
                         && s.heap[g].data.udp.peerKnown && s.heap[g].data.tunnelIpOctet == raw[19] ==>
                           s.heap[h].life.slot <= s.heap[g].life.slot
    ensures var (c, d) := (s.heap[h], SealedBy(w, s.heap[h], raw));
            var r := System.Run(w, s, SendTurn(raw, d.Some?));
            var sent := if d.Some? then [Parcel(h, d.value, c.data.udp.peerAddr)] else [];
            && r.Some?
            && r.value == s.(heap := s.heap[h := Spent(c)], serverSent := s.serverSent + sent,
                             log := r.value.log, routed := r.value.routed)
  {
    Routes(w, s, raw);
    var s1 := s.(t := TScan(raw), lock := Tun);
    ScanningKeepsInv(s, raw);
    Allocation.RouteIsLowest(w, s1, h);
    ScanSelects(w, s1, raw, h);
    var s2 := s1.(t := TSeal(raw, h));
    SealAndSend(w, s2, raw, h);
    var d := SealedBy(w, s.heap[h], raw);
    RunBoth(w, s, RouteTurn(raw), [T(Seal), T(RouteUnlock)] + if d.Some? then [T(Send)] else []);
  }

  lemma ScanningKeepsInv(s: Sys, raw: seq<byte>)
    requires Threads.Inv(s) && s.t.TIdle? && s.lock.Nobody? && |raw| >= 20
    ensures Threads.Inv(s.(t := TScan(raw), lock := Tun))
  {
  }

  lemma ScanSelects(w: World, s: Sys, raw: seq<byte>, h: Handle)
    requires CanT(w, s, RouteScan) && DoT(w, s, RouteScan).t == TSeal(raw, h)
    ensures DoT(w, s, RouteScan) == s.(t := TSeal(raw, h))
  {
  }

  lemma ScanFindsNone(w: World, s: Sys)
    requires CanT(w, s, RouteScan) && DoT(w, s, RouteScan).t == TUnlock(None)
    ensures DoT(w, s, RouteScan) == s.(t := TUnlock(None))
  {
  }

  /** A packet for an octet that no such session has is dropped, and leaves no trace. */
  lemma StrayPacketIsDropped(w: World, s: Sys, raw: seq<byte>)
    requires Threads.Inv(s) && s.t.TIdle? && s.lock.Nobody? && w.codec.Lawful() && 20 <= |raw| <= 65499
    requires forall g :: 0 <= g < |s.heap| && s.heap[g].life.Published? ==>
               !(s.heap[g].data.state == Established && s.heap[g].data.udp.peerKnown
                 && s.heap[g].data.tunnelIpOctet == raw[19])
    ensures System.Run(w, s, RouteTurn(raw) + [T(RouteUnlock)]) == Some(s)
  {
    Routes(w, s, raw);
    var s1 := s.(t := TScan(raw), lock := Tun);
    ScanningKeepsInv(s, raw);
    Allocation.RouteIsLowest(w, s1, 0);
    ScanFindsNone(w, s1);
    var s2 := s1.(t := TUnlock(None));
    UnlockOnly(w, s2);
    RunBoth(w, s, RouteTurn(raw), [T(RouteUnlock)]);
    assert s2.(t := TIdle, lock := Nobody) == s;
  }

  // ---- every datagram of a run ----

  /** The i-th step sealed the datagram for the session, for the source of the last datagram stored with its id. */
  ghost predicate SealedAt(w: World, acts: seq<Act>, i: nat, q: Parcel) {
    i < |acts| && acts[i] == T(Seal) && System.Run(w, Init(), acts[..i]).Some? &&
    var s := System.Run(w, Init(), acts[..i]).value;
    var last := LastStored(w, Init(), acts[..i], q.h);
    && s.t.TSeal? && s.t.h == q.h && q.h < |s.heap| && SealedBy(w, s.heap[q.h], s.t.raw) == Some(q.d)
    && last.Some? && last.value.0 == q.to && Peeked(last.value.1) == Some(s.heap[q.h].data.sessionId)
  }

  ghost predicate WasSealed(w: World, acts: seq<Act>, q: Parcel) {
    exists i: nat :: SealedAt(w, acts, i, q)
  }

  lemma StaysSealed(w: World, acts: seq<Act>, a: Act, q: Parcel)
    requires WasSealed(w, acts, q)
    ensures WasSealed(w, acts + [a], q)
  {
    var i: nat :| SealedAt(w, acts, i, q);
    assert (acts + [a])[..i] == acts[..i];
    assert SealedAt(w, acts + [a], i, q);
  }

  lemma {:induction false} LastStep(w: World, s: Sys, acts: seq<Act>, a: Act)
    requires System.Run(w, s, acts + [a]).Some?
    ensures System.Run(w, s, acts).Some?
    ensures var s1 := System.Run(w, s, acts).value;
            Can(w, s1, a) && System.Run(w, s, acts + [a]).value == Do(w, s1, a)
    decreases |acts|
  {
    if acts == [] {
      assert [] + [a] == [a] && [a][1..] == [];
    } else {
      assert (acts + [a])[1..] == acts[1..] + [a];
      LastStep(w, Do(w, s, acts[0]), acts[1..], a);
    }
  }

  /** On its way to the socket, or there. */
  ghost predicate AllSealed(w: World, acts: seq<Act>, s: Sys) {
    && (forall q <- s.serverSent :: WasSealed(w, acts, q))
    && (s.t.TUnlock? && s.t.parcel.Some? ==> WasSealed(w, acts, s.t.parcel.value))
    && (s.t.TSend? ==> WasSealed(w, acts, s.t.out))
  }

  lemma OthersDoNotSend(w: World, s: Sys, a: Act)
    requires Can(w, s, a) && !a.T?
    ensures Do(w, s, a).serverSent == s.serverSent && Do(w, s, a).t == s.t
  {
  }

  /** Past the seal: the parcel goes on as it is. */
  lemma TunCarries(w: World, s: Sys, a: TAct)
    requires CanT(w, s, a) && !a.Seal?
    ensures var s' := DoT(w, s, a);
            && (forall q <- s'.serverSent :: q in s.serverSent || (s.t.TSend? && q == s.t.out))
            && (s'.t.TUnlock? ==> s'.t.parcel.None?)
            && (s'.t.TSend? ==> s.t.TUnlock? && s.t.parcel == Some(s'.t.out))
  {
  }

  lemma SealIsSealedAt(w: World, acts: seq<Act>, s: Sys)
    requires System.Run(w, Init(), acts) == Some(s) && CanT(w, s, Seal)
    ensures var s' := DoT(w, s, Seal);
            && s'.serverSent == s.serverSent && s'.t.TUnlock?
            && (s'.t.parcel.Some? ==> WasSealed(w, acts + [T(Seal)], s'.t.parcel.value))
  {
    SealsToLastSource(w, acts);
    SealStep(w, s, s.t.raw, s.t.h);
    var s' := DoT(w, s, Seal);
    if s'.t.parcel.Some? {
      assert (acts + [T(Seal)])[..|acts|] == acts;
      assert SealedAt(w, acts + [T(Seal)], |acts|, s'.t.parcel.value);
    }
  }

  lemma StepKeepsSealed(w: World, acts: seq<Act>, s: Sys, a: Act)
    requires System.Run(w, Init(), acts) == Some(s) && AllSealed(w, acts, s) && Can(w, s, a)
    ensures AllSealed(w, acts + [a], Do(w, s, a))
  {
    forall q | WasSealed(w, acts, q) ensures WasSealed(w, acts + [a], q) {
      StaysSealed(w, acts, a, q);
    }
    if a == T(Seal) {
      SealIsSealedAt(w, acts, s);
    } else if a.T? {
      TunCarries(w, s, a.t);
    } else {
      OthersDoNotSend(w, s, a);
    }
  }

  lemma {:induction false} RunKeepsSealed(w: World, acts: seq<Act>)
    requires System.Run(w, Init(), acts).Some?
    ensures AllSealed(w, acts, System.Run(w, Init(), acts).value)
    decreases |acts|
  {
    if acts != [] {
      var (before, a) := (acts[..|acts| - 1], acts[|acts| - 1]);
      assert acts == before + [a];
      LastStep(w, Init(), before, a);
      RunKeepsSealed(w, before);
      StepKeepsSealed(w, before, System.Run(w, Init(), before).value, a);
    }
  }

  /**
   * In every run, whoever the peers are: every datagram that the server handed to its socket was sealed for the
   * session by some step of the run, and went to the source of the last datagram that had by then been stored
   * with that session's id.
   */
  lemma DatagramsGoToLastSource(w: World, acts: seq<Act>, q: Parcel)
    requires System.Run(w, Init(), acts).Some? && q in System.Run(w, Init(), acts).value.serverSent
    ensures exists i: nat :: SealedAt(w, acts, i, q)
  {
    RunKeepsSealed(w, acts);
  }
}
