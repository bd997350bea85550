/**
 * The session manager (src/sessions/session_manager.c) as an object over an array of sessions. Its methods
 * are proved against SessionTable.dfy and Tunnel.dfy; locking is the subject of System.dfy.
 */
module SessionManager {
  import opened Bytes
  import opened Crypto
  import opened Packet
  import opened Handshake
  import opened Session
  import opened SessionTable
  import opened Tunnel

  class SessionManager {
    const sessions: array<Session?>
    const identity: Identity
    var sessionCount: nat
    var tunOpen: bool

    constructor (identity: Identity)
      ensures Valid() && Ids() == EMPTY && sessionCount == 0 && tunOpen && fresh(sessions)
      ensures this.identity == identity
    {
      this.identity := identity;
      sessions := new Session?[MAX_SESSIONS](_ => null);
      sessionCount, tunOpen := 0, true;
      new;
      NothingLeft();
    }

    lemma NothingLeft()
      requires sessions.Length == MAX_SESSIONS && sessionCount == 0
      requires forall i :: 0 <= i < MAX_SESSIONS ==> sessions[i] == null
      ensures Ids() == EMPTY && Valid()
    {
      LiveAtMost(EMPTY);
      assert Ids() == EMPTY;
    }

    ghost function Entries(): set<Session>
      reads sessions
    {
      set i | 0 <= i < sessions.Length && sessions[i] != null :: sessions[i]
    }

    /** No session is in the table twice. */
    ghost predicate Distinct()
      reads sessions
    {
      forall i, j :: 0 <= i < j < sessions.Length && sessions[i] != null ==> sessions[i] != sessions[j]
    }

    ghost function IdAt(i: nat): Option<u64>
      requires i < sessions.Length
      reads sessions, Entries()
    {
      if sessions[i] == null then None else Some(sessions[i].sessionId)
    }

    ghost function Ids(): Table
      requires sessions.Length == MAX_SESSIONS
      reads sessions, Entries()
    {
      seq(MAX_SESSIONS, i requires 0 <= i < MAX_SESSIONS reads sessions, Entries() => IdAt(i))
    }

    ghost predicate Valid()
      reads this, sessions, Entries()
    {
      sessions.Length == MAX_SESSIONS && Distinct() && sessionCount == Live(Ids())
    }

    /** session_manager_add: the lowest free slot, and failure exactly when all slots are taken. */
    method Add(session: Session) returns (ok: bool)
      requires Valid() && session !in Entries()
      modifies this`sessionCount, sessions, session`tunnelIpOctet
      ensures Valid() && Ids() == Apply(old(Ids()), SessionTable.Add(session.sessionId))
      ensures Entries() == old(Entries()) + if ok then {session} else {}
      ensures ok <==> old(sessionCount) < MAX_SESSIONS
      ensures ok <==> FreeSlot(old(Ids())) < MAX_SESSIONS
      ensures ok ==> var f := FreeSlot(old(Ids()));
                     && sessions[..] == old(sessions[..])[f := session]
                     && session.View() == old(session.View()).(tunnelIpOctet := Octet(f))
                     && sessionCount == old(sessionCount) + 1
      ensures !ok ==> sessions[..] == old(sessions[..]) && session.View() == old(session.View())
                      && sessionCount == old(sessionCount)
    {
      ghost var ids := Ids();
      FreeSlotBound(ids);
      LiveAtMost(ids);
      for i := 0 to MAX_SESSIONS
        invariant sessions[..] == old(sessions[..]) && unchanged(session) && sessionCount == old(sessionCount)
        invariant forall j :: 0 <= j < i ==> sessions[j] != null
      {
        if sessions[i] == null {
          assert ids[i].None? && forall j :: 0 <= j < i ==> ids[j].Some?;
          assert FreeSlot(ids) == i;
          session.tunnelIpOctet := Octet(i);
          sessions[i] := session;
          sessionCount := sessionCount + 1;
          LiveAfterWrite(ids, i, Some(session.sessionId));
          assert Ids() == ids[i := Some(session.sessionId)];
          EntriesGrow(old(sessions[..]), session, i);
          return true;
        }
      }
      assert forall j :: 0 <= j < MAX_SESSIONS ==> ids[j].Some?;
      assert Ids() == ids;
      return false;
    }

    lemma EntriesGrow(before: seq<Session?>, session: Session, f: nat)
      requires |before| == sessions.Length && f < |before| && before[f] == null && sessions[..] == before[f := session]
      ensures forall e: Session :: e in Entries() <==> e == session || e in before
    {
      forall e: Session | e in before ensures e in Entries() {
        var j :| 0 <= j < |before| && before[j] == e;
        assert sessions[j] == e;
      }
      assert sessions[f] == session;
    }

    /** session_manager_get: the lowest slot with the id. */
    method Get(id: u64) returns (s: Session?)
      requires sessions.Length == MAX_SESSIONS
      ensures s == Owner(Some(id))
      ensures s != null ==> s in Entries() && s.sessionId == id
      ensures s != null ==> exists i: nat ::
                i < MAX_SESSIONS && sessions[i] == s
                && forall j: nat :: j < i && sessions[j] != null ==> sessions[j].sessionId != id
      ensures s == null <==> forall e <- Entries() :: e.sessionId != id
    {
      ghost var ids := Ids();
      for i := 0 to MAX_SESSIONS
        invariant forall j :: 0 <= j < i ==> ids[j] != Some(id)
        invariant forall j: nat :: j < i && sessions[j] != null ==> sessions[j].sessionId != id
      {
        if sessions[i] != null && sessions[i].sessionId == id {
          assert ids[i] == Some(id);
          assert sessions[i] == sessions[i as nat];
          return sessions[i];
        }
      }
      assert forall j :: 0 <= j < MAX_SESSIONS && sessions[j] != null ==> ids[j] == Some(sessions[j].sessionId);
      return null;
    }

    /** session_manager_remove: the session in the lowest slot with the id is destroyed and its slot freed. */
    method Remove(id: u64) returns (ok: bool)
      requires Valid()
      modifies this`sessionCount, sessions, Entries()
      ensures Valid() && Ids() == Apply(old(Ids()), SessionTable.Remove(id))
      ensures var f := Find(old(Ids()), id);
              && (ok <==> f < MAX_SESSIONS)
              && (ok ==> sessions[..] == old(sessions[..])[f := null] && sessionCount == old(sessionCount) - 1
                         && old(sessions[f]) != null && old(sessions[f]).View() == Blank(old(sessions[f]).role))
              && (!ok ==> sessions[..] == old(sessions[..]) && sessionCount == old(sessionCount))
              && forall i: nat :: i < MAX_SESSIONS && i != f && old(sessions[i]) != null ==>
                   unchanged(old(sessions[i]))
    {
      ghost var ids := Ids();
      for i := 0 to MAX_SESSIONS
        invariant sessions[..] == old(sessions[..]) && sessionCount == old(sessionCount)
        invariant forall s <- old(Entries()) :: unchanged(s)
        invariant forall j :: 0 <= j < i ==> ids[j] != Some(id)
      {
        var session := sessions[i];
        if session != null && session.sessionId == id {
          assert ids[i] == Some(id) && Find(ids, id) == i;
          LiveAfterWrite(ids, i, None);
          session.Destroy();
          sessions[i] := null;
          sessionCount := sessionCount - 1;
          assert Ids() == ids[i := None];
          return true;
        }
      }
      assert Ids() == ids;
      return false;
    }

    ghost function Sockets(): set<Socket>
      reads sessions, Entries()
    {
      set e <- Entries() :: e.socket
    }

    /** Every accepted connection has its own socket. */
    ghost predicate OwnSockets()
      reads sessions, Entries()
    {
      forall e <- Entries(), g <- Entries() :: e != g ==> e.socket != g.socket
    }

    method DisconnectSlot(i: nat, pad: Padding)
      requires i < sessions.Length
      modifies sessions, set e <- Entries() | e == sessions[i], set e <- Entries() | e == sessions[i] :: e.socket
      ensures sessions[..] == old(sessions[..])[i := null]
      ensures var e := old(sessions[i]);
              e != null ==> Farewell(e, old(sessions[i].protocolVersion), old(sessions[i].socket.outbox), pad)
    {
      var session := sessions[i];
      if session != null {
        assert session in Entries();
        var sent := PacketSend(session.socket, Packet(session.protocolVersion, DISCONNECT, []), pad);
        session.Destroy();
        sessions[i] := null;
      }
    }

    lemma SlotsOfSockets() returns (slotOf: map<Socket, nat>)
      requires Distinct() && OwnSockets()
      ensures forall j: nat :: j < sessions.Length && sessions[j] != null ==>
                sessions[j] in Entries() && sessions[j].socket in Sockets()
                && sessions[j].socket in slotOf && slotOf[sessions[j].socket] == j
    {
      assert forall k <- Sockets() :: exists j: nat ::
               j < sessions.Length && sessions[j] != null && sessions[j].socket == k;
      slotOf := map k | k in Sockets() ::
        (var j: nat :| j < sessions.Length && sessions[j] != null && sessions[j].socket == k; j);
      forall j: nat | j < sessions.Length && sessions[j] != null
        ensures sessions[j] in Entries() && sessions[j].socket in Sockets() && slotOf[sessions[j].socket] == j
      {
        assert sessions[j] in Entries();
        var k := slotOf[sessions[j].socket];
        assert sessions[k] in Entries() && sessions[k].socket == sessions[j].socket;
      }
    }

    /** The loop of session_manager_disconnect_all. */
    method DisconnectSlots(pads: seq<Padding>)
      requires sessions.Length == MAX_SESSIONS && Distinct() && OwnSockets() && |pads| == MAX_SESSIONS
      modifies sessions, Entries(), Sockets()
      ensures forall i :: 0 <= i < MAX_SESSIONS ==> sessions[i] == null
      ensures forall i: nat :: i < MAX_SESSIONS && old(sessions[i]) != null ==>
                Farewell(old(sessions[i]), old(sessions[i].protocolVersion), old(sessions[i].socket.outbox), pads[i])
    {
      ghost var entries := sessions[..];
      ghost var slotOf := SlotsOfSockets();
      for i := 0 to MAX_SESSIONS
        invariant forall j :: 0 <= j < i ==> sessions[j] == null
        invariant forall j :: i <= j < MAX_SESSIONS ==> sessions[j] == entries[j]
        invariant forall j :: i <= j < MAX_SESSIONS && entries[j] != null ==>
                    && entries[j].protocolVersion == old(entries[j].protocolVersion)
                    && entries[j].socket.outbox == old(entries[j].socket.outbox)
        invariant forall j: nat :: j < i && entries[j] != null ==>
                    Farewell(entries[j], old(entries[j].protocolVersion), old(entries[j].socket.outbox), pads[j])
      {
        DisconnectSlot(i, pads[i]);
      }
    }

    /**
     * session_manager_disconnect_all: each live session's peer is sent one DISCONNECT frame (whole, unless the
     * socket fails), each session is destroyed, the table is empty and the TUN closed.
     */
    method DisconnectAll(pads: seq<Padding>)
      requires sessions.Length == MAX_SESSIONS && Distinct() && OwnSockets() && |pads| == MAX_SESSIONS
      modifies this`sessionCount, this`tunOpen, sessions, Entries(), Sockets()
      ensures Valid() && Ids() == EMPTY && sessionCount == 0 && !tunOpen
      ensures forall i :: 0 <= i < MAX_SESSIONS ==> sessions[i] == null
      ensures forall i: nat :: i < MAX_SESSIONS && old(sessions[i]) != null ==>
                Farewell(old(sessions[i]), old(sessions[i].protocolVersion), old(sessions[i].socket.outbox), pads[i])
    {
      DisconnectSlots(pads);
      sessionCount := 0;
      tunOpen := false;
      NothingLeft();
    }

    /** The scan of session_manager_tun_sender. */
    ghost function Routable(octet: byte): seq<bool>
      reads sessions, Entries()
    {
      seq(sessions.Length, i requires 0 <= i < sessions.Length reads sessions, Entries() =>
        sessions[i] != null && Matches(sessions[i].View(), octet))
    }

    /** The lowest-slot session that is established, has a known peer, and holds the octet. */
    method Route(octet: byte) returns (target: Session?)
      requires sessions.Length == MAX_SESSIONS
      ensures target == Routed(octet)
      ensures target != null ==>
                && target in Entries() && target.state == Established && target.udp.peerKnown
                && target.tunnelIpOctet == octet
                && exists i: nat :: i < MAX_SESSIONS && sessions[i] == target
                     && forall j: nat :: j < i && sessions[j] != null ==>
                          !(sessions[j].state == Established && sessions[j].udp.peerKnown
                            && sessions[j].tunnelIpOctet == octet)
      ensures target == null ==>
                forall e <- Entries() :: !(e.state == Established && e.udp.peerKnown && e.tunnelIpOctet == octet)
    {
      ghost var flags := Routable(octet);
      for i := 0 to MAX_SESSIONS
        invariant forall j :: 0 <= j < i ==> !flags[j]
        invariant forall j: nat :: j < i && sessions[j] != null ==>
                    !(sessions[j].state == Established && sessions[j].udp.peerKnown
                      && sessions[j].tunnelIpOctet == octet)
      {
        var s := sessions[i];
        if s != null && s.state == Established && s.udp.peerKnown && s.tunnelIpOctet == octet {
          assert flags[i];
          return s;
        }
      }
      return null;
    }

    /** session_manager_connect, up to its call of session_manager_add: a session that completed the handshake. */
    method Accept(suite: Suite, draws: Draws, socket: Socket, id: u64) returns (session: Session?)
      modifies socket
      ensures var r := ServerRun(suite, draws, Created(Server, identity, None, id), old(socket.inbox));
              && (session != null ==> r.ok && fresh(session) && session.View() == r.data && session.socket == socket
                                      && socket.inbox == r.rest && socket.outbox == old(socket.outbox) + r.sent)
              && (socket.reliable ==> (session != null <==> r.ok))
      ensures session != null ==> session.state == Established && session.crypto.verified
    {
      session := new Session(Server, socket, identity, None, id);
      EstablishedIsVerified(suite, draws, session.View(), socket.inbox);
      var ok := session.ServerConnect(suite, draws);
      if !ok {
        session.Destroy();
        session := null;
      }
    }

    /**
     * session_manager_connect: a session that completes the handshake is put in the lowest free slot; any other
     * is destroyed without having been in the table.
     */
    method Connect(suite: Suite, draws: Draws, socket: Socket, id: u64) returns (session: Session?)
      requires Valid()
      modifies this`sessionCount, sessions, socket
      ensures Valid()
      ensures Entries() == old(Entries()) + if session == null then {} else {session}
      ensures session != null ==> session.socket == socket
      ensures session == null ==> sessions[..] == old(sessions[..]) && sessionCount == old(sessionCount)
      ensures session != null ==>
                var r := ServerRun(suite, draws, Created(Server, identity, None, id), old(socket.inbox));
                var f := FreeSlot(old(Ids()));
                && r.ok && f < MAX_SESSIONS && fresh(session)
                && session.state == Established && session.crypto.verified
                && session.View() == r.data.(tunnelIpOctet := Octet(f))
                && sessions[..] == old(sessions[..])[f := session] && sessionCount == old(sessionCount) + 1
                && socket.inbox == r.rest && socket.outbox == old(socket.outbox) + r.sent
      ensures socket.reliable ==>
                (session != null <==> ServerRun(suite, draws, Created(Server, identity, None, id), old(socket.inbox)).ok
                                      && old(sessionCount) < MAX_SESSIONS)
    {
      session := Accept(suite, draws, socket, id);
      assert Ids() == old(Ids());
      if session == null {
        return;
      }
      var ok := AddOrDestroy(session);
      if !ok {
        session := null;
      }
    }

    /** session_manager_connect, from its call of session_manager_add. */
    method AddOrDestroy(session: Session) returns (ok: bool)
      requires Valid() && session !in Entries()
      modifies this`sessionCount, sessions, session
      ensures Valid() && Entries() == old(Entries()) + if ok then {session} else {}
      ensures ok <==> old(sessionCount) < MAX_SESSIONS
      ensures ok ==> var f := FreeSlot(old(Ids()));
                     && f < MAX_SESSIONS && sessions[..] == old(sessions[..])[f := session]
                     && session.View() == old(session.View()).(tunnelIpOctet := Octet(f))
                     && sessionCount == old(sessionCount) + 1
      ensures !ok ==> sessions[..] == old(sessions[..]) && sessionCount == old(sessionCount)
                      && session.View() == Blank(session.role)
    {
      ok := Add(session);
      if !ok {
        ghost var ids := Ids();
        session.Destroy();
        assert forall i: nat :: i < MAX_SESSIONS ==> IdAt(i) == ids[i];
      }
    }

    /**
     * One turn of session_manager_udp_listener on a datagram of `received` bytes: the packet written to the TUN,
     * if any, and the session it was matched to. The sender's address is recorded before anything is decrypted.
     */
    method ReceiveDatagram(suite: Suite, codec: Codec, buffer: array<byte>, received: int, from: Address,
                           plaintext: array<byte>, decompressed: array<byte>)
      returns (written: Option<seq<byte>>, ghost matched: Session?)
      requires sessions.Length == MAX_SESSIONS && suite.SealOpens()
      requires buffer.Length == MAX_DATAGRAM && received <= MAX_DATAGRAM
      requires plaintext.Length == MAX_DATAGRAM && decompressed.Length == MAX_PLAINTEXT
      requires buffer != plaintext && plaintext != decompressed && buffer != decompressed
      modifies plaintext, decompressed, Entries()`udp
      ensures forall e <- Entries() :: e != matched ==> unchanged(e)
      ensures matched == if received <= 0 then null else old(Owner(Peeked(buffer[..received])))
      ensures matched == null ==> written == None
      ensures received < 16 ==> matched == null
      ensures matched == null && received >= 16 ==>
                forall e <- Entries() :: Some(e.sessionId) != Peeked(buffer[..received])
      ensures matched != null ==>
                && matched.sessionId == Peeked(buffer[..received]).value
                && (exists i: nat :: i < MAX_SESSIONS && sessions[i] == matched
                      && forall j: nat :: j < i && sessions[j] != null ==> sessions[j].sessionId != matched.sessionId)
                && matched.udp == old(Contact(matched)).(peerAddr := from, peerKnown := true)
                && written == if tunOpen then Inbound(suite, codec, matched.crypto.rxKey, buffer[..received]) else None
    {
      matched := null;
      if received <= 0 {
        return None, null;
      }
      var id := PeekSessionId(buffer, received);
      if id.None? {
        return None, null;
      }
      var session := Get(id.value);
      if session == null {
        return None, null;
      }
      matched := session;
      session.udp := session.udp.(peerAddr := from, peerKnown := true);
      written := Open(suite, codec, session.crypto.rxKey, buffer, received, plaintext, decompressed);
      if !tunOpen {
        written := None;
      }
    }

    /**
     * One turn of session_manager_tun_sender on a TUN packet of `received` bytes: the datagram and the address it
     * is sent to, if any, and the session it was routed to. The counter is used up even when sealing fails.
     */
    method SendPacket(suite: Suite, codec: Codec, raw: array<byte>, received: int,
                      compressed: array<byte>, encoded: array<byte>)
      returns (sent: Option<(seq<byte>, Address)>, ghost target: Session?)
      requires sessions.Length == MAX_SESSIONS && suite.SealOpens()
      requires raw.Length == MAX_PLAINTEXT && received <= MAX_PLAINTEXT
      requires compressed.Length == MAX_PLAINTEXT + COMPRESS_HEADER_SIZE && encoded.Length == MAX_DATAGRAM
      requires raw != compressed && compressed != encoded && raw != encoded
      modifies compressed, encoded, Entries()`crypto
      ensures forall e <- Entries() :: e != target ==> unchanged(e)
      ensures target == if received < 20 || Compressed(codec, raw[..received], MAX_PLAINTEXT) == [] then null
                        else old(Routed(raw[19]))
      ensures target == null ==> sent == None
      ensures target == null && 20 <= received <= 65499 && codec.Lawful() ==>
                forall e <- Entries() :: !(e.state == Established && e.udp.peerKnown && e.tunnelIpOctet == raw[19])
      ensures target != null ==>
                && received >= 20 && target in Entries() && target.state == Established && target.udp.peerKnown
                && target.tunnelIpOctet == raw[19]
                && exists i: nat :: i < MAX_SESSIONS && sessions[i] == target
                     && forall j: nat :: j < i && sessions[j] != null ==>
                          !(sessions[j].state == Established && sessions[j].udp.peerKnown
                            && sessions[j].tunnelIpOctet == raw[19])
      ensures target != null ==>
                var c := old(Keys(target));
                && target.crypto == c.(txNonce := (c.txNonce + 1) % TWO_TO_THE_64)
                && var d := Outbound(suite, codec, c.txKey, target.sessionId, c.txNonce, raw[..received]);
                   sent == if d.Some? then Some((d.value, target.udp.peerAddr)) else None
    {
      target := null;
      if received < 20 {
        return None, null;
      }
      var compressedLen := Compress(codec, raw, received, compressed, MAX_PLAINTEXT);
      if compressedLen == 0 {
        return None, null;
      }
      var session := Route(raw[19]);
      if session == null {
        return None, null;
      }
      target := session;
      var peer := session.udp.peerAddr;
      var d := SealNext(session, suite, compressed, compressedLen, encoded);
      sent := if d.Some? then Some((d.value, peer)) else None;
    }

    /** The session that session_manager_get finds. */
    ghost function Owner(id: Option<u64>): Session?
      requires sessions.Length == MAX_SESSIONS
      reads sessions, Entries()
    {
      if id.Some? && Find(Ids(), id.value) < MAX_SESSIONS then sessions[Find(Ids(), id.value)] else null
    }

    ghost function Routed(octet: byte): Session?
      requires sessions.Length == MAX_SESSIONS
      reads sessions, Entries()
    {
      if First(Routable(octet)) < MAX_SESSIONS then sessions[First(Routable(octet))] else null
    }
  }

  /** The session's next counter is used up, and the plaintext sealed under it. */
  method SealNext(session: Session, suite: Suite, plaintext: array<byte>, len: nat, encoded: array<byte>)
    returns (d: Option<seq<byte>>)
    requires suite.SealOpens() && len <= plaintext.Length && len <= MAX_PLAINTEXT
    requires encoded.Length == MAX_DATAGRAM && plaintext != encoded
    modifies session`crypto, encoded
    ensures var c := old(session.crypto);
            && session.crypto == c.(txNonce := (c.txNonce + 1) % TWO_TO_THE_64)
            && d == Encoded(suite, c.txKey, session.sessionId, c.txNonce, plaintext[..len])
  {
    var counter := session.crypto.txNonce;
    session.crypto := session.crypto.(txNonce := (counter + 1) % TWO_TO_THE_64);
    var n := Encode(suite, session.crypto.txKey, session.sessionId, counter, plaintext, len, encoded);
    d := if n.None? then None else Some(encoded[..n.value]);
  }

  ghost function Contact(s: Session): UdpTunnel reads s { s.udp }
  ghost function Keys(s: Session): CryptoContext reads s { s.crypto }

  lemma EstablishedIsVerified(suite: Suite, draws: Draws, d: SessionData, s: seq<byte>)
    ensures ServerRun(suite, draws, d, s).ok ==> ServerRun(suite, draws, d, s).data.crypto.verified
  {
  }

  predicate Matches(d: SessionData, octet: byte) {
    d.state == Established && d.udp.peerKnown && d.tunnelIpOctet == octet
  }

  /** The session is destroyed and its peer has been sent a DISCONNECT frame, or part of one on a failing socket. */
  ghost predicate Farewell(s: Session, version: byte, outbox: seq<byte>, pad: Padding)
    reads s, s.socket
  {
    var notice := FrameBytes(Packet(version, DISCONNECT, []), pad);
    && s.View() == Blank(s.role)
    && outbox <= s.socket.outbox <= outbox + notice
    && (s.socket.reliable ==> s.socket.outbox == outbox + notice)
  }
}
