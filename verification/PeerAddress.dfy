/**
 * Where the server sends a session's datagrams: to the source of the last datagram that carried the session's id,
 * whether or not it could be decrypted.
 */
module PeerAddress {
  import opened Bytes
  import opened Crypto
  import opened Handshake
  import opened Tunnel
  import opened System
  import opened Delivery
  import SessionManager
  import Threads
  import Integrity

  // ---- a datagram that does not decrypt ----

  /** A header with the id and nothing behind it. */
  function Bare(id: u64): seq<byte> {
    BigEndian(id, 8) + Zeros(8)
  }

  lemma BareCarriesId(suite: Suite, codec: Codec, key: Key, id: u64)
    ensures Peeked(Bare(id)) == Some(id) && |Bare(id)| == TUNNEL_HEADER_SIZE
    ensures Inbound(suite, codec, key, Bare(id)) == None
  {
    ThreeParts(BigEndian(id, 8), Zeros(8), []);
    assert Bare(id) + [] == Bare(id);
    U64ReadsBack(id);
  }

  /**
   * The sender's address is recorded before anything is decrypted: for every published session that the lookup
   * finds, the bare header from any address makes that address the peer's, and changes nothing else.
   */
  lemma StrayMovesPeer(w: World, s: Sys, h: Handle, from: Address)
    requires Threads.Inv(s) && Threads.IsPublished(s, h) && s.u.UIdle? && s.lock.Nobody?
    requires FindSession(s, s.heap[h].data.sessionId) == Some(h)
    ensures var d := Bare(s.heap[h].data.sessionId);
            && Inbound(w.suite, w.codec, s.heap[h].data.crypto.rxKey, d) == None
            && System.Run(w, s, ListenerTurn(d, from)[..8]) == Some(s.(heap := s.heap[h := WithPeer(s.heap[h], from)]))
  {
    var d := Bare(s.heap[h].data.sessionId);
    var t := ListenerTurn(d, from);
    BareCarriesId(w.suite, w.codec, s.heap[h].data.crypto.rxKey, s.heap[h].data.sessionId);
    LookupTurn(w, s, h, d, from);
    var s1 := s.(u := UFound(d, from, h));
    PeerTurn(w, s1, h, d, from);
    var s2 := s1.(u := UDecode(d, h), heap := s.heap[h := WithPeer(s.heap[h], from)]);
    DropTurn(w, s2, h, d);
    RunBoth(w, s1, t[4..7], [U(Decode)]);
    RunBoth(w, s, t[..4], t[4..7] + [U(Decode)]);
    EightSteps(d, from);
  }

  lemma EightSteps(d: seq<byte>, from: Address)
    ensures var t := ListenerTurn(d, from); t[..8] == t[..4] + (t[4..7] + [U(Decode)])
  {
  }

  lemma DropTurn(w: World, s: Sys, h: Handle, d: seq<byte>)
    requires s.u == UDecode(d, h) && h < |s.heap|
    requires Inbound(w.suite, w.codec, s.heap[h].data.crypto.rxKey, d) == None
    ensures System.Run(w, s, [U(Decode)]) == Some(s.(u := UIdle))
  {
    assert [U(Decode)] == [U(Decode)] + [];
    RunOne(w, s, U(Decode), []);
  }

  // ---- exactly when the address moves ----

  predicate Stores(s: Sys, a: Act, h: Handle) {
    a == U(PeerStore) && s.u.UStore? && s.u.h == h
  }

  /** The peer's address, once there is one. */
  function PeerOf(s: Sys, h: Handle): Option<Address> {
    if h < |s.heap| && s.heap[h].data.udp.peerKnown then Some(s.heap[h].data.udp.peerAddr) else None
  }

  /** No session has a peer before it is published. */
  ghost predicate NoPeerYet(s: Sys) {
    forall h :: 0 <= h < |s.heap| ==>
      && !s.heap[h].end.data.udp.peerKnown
      && (s.heap[h].life.Private? ==> !s.heap[h].data.udp.peerKnown)
  }

  lemma OutcomeHasNoPeer(w: World, k: Connection)
    ensures !Outcome(w, k).data.udp.peerKnown && !Arrived(w, k).data.udp.peerKnown
  {
  }

  /**
   * A step moves the address of a session that it leaves alive exactly if it is the listener's store for that
   * session, and then to the source of the datagram in hand.
   */
  lemma PeerMovesExactly(w: World, s: Sys, a: Act, h: Handle)
    requires Threads.Inv(s) && NoPeerYet(s) && Can(w, s, a)
    requires h < |Do(w, s, a).heap| && !Do(w, s, a).heap[h].life.Freed?
    ensures PeerOf(Do(w, s, a), h) == if Stores(s, a, h) then Some(s.u.from) else PeerOf(s, h)
  {
    match a
    case L(b) => ListenerLeavesPeer(w, s, b, h);
    case U(b) => UdpMovesPeer(w, s, b, h);
    case T(b) => TunLeavesPeer(w, s, b, h);
    case M(b) => MainLeavesPeer(s, b, h);
    case C(b) =>
  }

  lemma ListenerLeavesPeer(w: World, s: Sys, a: LAct, h: Handle)
    requires Threads.Inv(s) && NoPeerYet(s) && CanL(w, s, a)
    requires h < |DoL(w, s, a).heap| && !DoL(w, s, a).heap[h].life.Freed?
    ensures PeerOf(DoL(w, s, a), h) == PeerOf(s, h)
  {
    match a
    case Accept(k) => OutcomeHasNoPeer(w, k);
    case SendSuccess => HandshakeLeavesPeer(w, s, a, h);
    case FinishHandshake => HandshakeLeavesPeer(w, s, a, h);
    case _ => TableLeavesPeer(w, s, a, h);
  }

  lemma HandshakeLeavesPeer(w: World, s: Sys, a: LAct, h: Handle)
    requires Threads.Inv(s) && NoPeerYet(s) && CanL(w, s, a) && (a.SendSuccess? || a.FinishHandshake?)
    ensures PeerOf(DoL(w, s, a), h) == PeerOf(s, h)
  {
  }

  lemma TableLeavesPeer(w: World, s: Sys, a: LAct, h: Handle)
    requires CanL(w, s, a) && !a.Accept? && !a.SendSuccess? && !a.FinishHandshake?
    requires h < |DoL(w, s, a).heap| && !DoL(w, s, a).heap[h].life.Freed?
    ensures PeerOf(DoL(w, s, a), h) == PeerOf(s, h)
  {
  }

  lemma UdpMovesPeer(w: World, s: Sys, a: UAct, h: Handle)
    requires CanU(w, s, a) && h < |s.heap|
    ensures PeerOf(DoU(w, s, a), h) == if Stores(s, U(a), h) then Some(s.u.from) else PeerOf(s, h)
  {
  }

  lemma TunLeavesPeer(w: World, s: Sys, a: TAct, h: Handle)
    requires CanT(w, s, a)
    ensures PeerOf(DoT(w, s, a), h) == PeerOf(s, h)
  {
  }

  lemma MainLeavesPeer(s: Sys, a: MAct, h: Handle)
    requires CanM(s, a) && h < |DoM(s, a).heap| && !DoM(s, a).heap[h].life.Freed?
    ensures PeerOf(DoM(s, a), h) == PeerOf(s, h)
  {
  }

  lemma StepKeepsNoPeerYet(w: World, s: Sys, a: Act)
    requires Threads.Inv(s) && NoPeerYet(s) && Can(w, s, a)
    ensures NoPeerYet(Do(w, s, a))
  {
    var s' := Do(w, s, a);
    Threads.StepKeepsInv(w, s, a);
    Integrity.StepGrows(w, s, a);
    forall h | 0 <= h < |s'.heap|
      ensures !s'.heap[h].end.data.udp.peerKnown && (s'.heap[h].life.Private? ==> !s'.heap[h].data.udp.peerKnown)
    {
      EndHasNoPeer(w, s, a, h);
      if s'.heap[h].life.Private? {
        PeerMovesExactly(w, s, a, h);
        PrivateStaysApart(w, s, a, h);
      }
    }
  }

  lemma EndHasNoPeer(w: World, s: Sys, a: Act, h: Handle)
    requires NoPeerYet(s) && Can(w, s, a) && h < |Do(w, s, a).heap|
    ensures !Do(w, s, a).heap[h].end.data.udp.peerKnown
  {
    Integrity.StepGrows(w, s, a);
    if a.L? && a.l.Accept? {
      OutcomeHasNoPeer(w, a.l.k);
    } else {
      Integrity.SameSize(w, s, a);
    }
  }

  /** A session that is private after a step was private before it, or new, and was not the one stored to. */
  lemma PrivateStaysApart(w: World, s: Sys, a: Act, h: Handle)
    requires Threads.Inv(s) && Can(w, s, a) && Threads.IsPrivate(Do(w, s, a), h)
    ensures h < |s.heap| ==> s.heap[h].life.Private?
    ensures !Stores(s, a, h)
  {
    match a
    case L(b) => ListenerPublishes(w, s, b, h);
    case M(b) => MainLeavesPrivate(s, b, h);
    case _ =>
      if h < |s.heap| {
        Threads.DataThreadsNeverFree(w, s, a, h);
      }
  }

  lemma ListenerPublishes(w: World, s: Sys, a: LAct, h: Handle)
    requires CanL(w, s, a) && Threads.IsPrivate(DoL(w, s, a), h)
    ensures h < |s.heap| ==> s.heap[h].life.Private?
  {
  }

  lemma MainLeavesPrivate(s: Sys, a: MAct, h: Handle)
    requires CanM(s, a) && Threads.IsPrivate(DoM(s, a), h)
    ensures h < |s.heap| ==> s.heap[h].life.Private?
  {
  }

  // ---- the datagram in hand ----

  /** The datagram that the listener has matched to a session carries that session's id. */
  ghost predicate Carries(s: Sys) {
    Matched(s.u).Some? ==>
      Matched(s.u).value < |s.heap| && Peeked(s.u.d) == Some(s.heap[Matched(s.u).value].data.sessionId)
  }

  function Matched(u: UPc): Option<Handle> {
    match u
    case UGetUnlock(_, _, found) => found
    case UFound(_, _, h) => Some(h)
    case UStore(_, _, h) => Some(h)
    case _ => None
  }

  lemma StepKeepsCarries(w: World, s: Sys, a: Act)
    requires Integrity.Kept(w, s) && Carries(s) && Can(w, s, a)
    ensures Carries(Do(w, s, a))
  {
    if a.U? {
      UdpKeepsCarries(w, s, a.u);
    } else if Matched(s.u).Some? {
      OthersLeaveUdp(w, s, a);
      Integrity.StepKeepsKept(w, s, a);
      Integrity.PublishedKeysAreStable(w, s, a, Matched(s.u).value);
    } else {
      OthersLeaveUdp(w, s, a);
    }
  }

  lemma OthersLeaveUdp(w: World, s: Sys, a: Act)
    requires Can(w, s, a) && !a.U?
    ensures Do(w, s, a).u == s.u
  {
  }

  lemma UdpKeepsCarries(w: World, s: Sys, a: UAct)
    requires Threads.Inv(s) && Carries(s) && CanU(w, s, a)
    ensures Carries(DoU(w, s, a))
  {
    if a.GetScan? {
      ScanCarries(w, s);
    } else if a.PeerStore? {
      assert Matched(DoU(w, s, a).u).None?;
    } else if Matched(DoU(w, s, a).u).Some? {
      SameMatch(w, s, a);
    }
  }

  lemma ScanCarries(w: World, s: Sys)
    requires Threads.Inv(s) && CanU(w, s, GetScan)
    ensures Carries(DoU(w, s, GetScan))
  {
    Threads.OnlyPublishedAreFound(w, s);
    assert DoU(w, s, GetScan).heap == s.heap;
  }

  lemma SameMatch(w: World, s: Sys, a: UAct)
    requires CanU(w, s, a) && !a.GetScan? && !a.PeerStore? && Matched(DoU(w, s, a).u).Some?
    ensures var s' := DoU(w, s, a); Matched(s'.u) == Matched(s.u) && s'.u.d == s.u.d && s'.heap == s.heap
  {
  }

  // ---- over runs ----

  /** What the listener last stored for the session: the source, and the datagram that it came with. */
  ghost function LastStored(w: World, s: Sys, acts: seq<Act>, h: Handle): Option<(Address, seq<byte>)>
    requires System.Run(w, s, acts).Some?
    decreases |acts|
  {
    if acts == [] then None
    else
      var later := LastStored(w, Do(w, s, acts[0]), acts[1..], h);
      if later.Some? then later
      else if Stores(s, acts[0], h) then Some((s.u.from, s.u.d))
      else None
  }

  lemma FreedStays(w: World, s: Sys, a: Act, h: Handle)
    requires Threads.Inv(s) && Can(w, s, a) && h < |s.heap| && s.heap[h].life.Freed?
    ensures h < |Do(w, s, a).heap| && Do(w, s, a).heap[h].life.Freed?
  {
    match a
    case L(b) => ListenerLeavesFreed(w, s, b, h);
    case M(b) => MainLeavesFreed(s, b, h);
    case _ => Threads.DataThreadsNeverFree(w, s, a, h);
  }

  lemma ListenerLeavesFreed(w: World, s: Sys, a: LAct, h: Handle)
    requires Threads.Inv(s) && CanL(w, s, a) && h < |s.heap| && s.heap[h].life.Freed?
    ensures h < |DoL(w, s, a).heap| && DoL(w, s, a).heap[h].life.Freed?
  {
  }

  lemma MainLeavesFreed(s: Sys, a: MAct, h: Handle)
    requires CanM(s, a) && h < |s.heap| && s.heap[h].life.Freed?
    ensures h < |DoM(s, a).heap| && DoM(s, a).heap[h].life.Freed?
  {
  }

  /** Freed sessions stay freed, so one that is published at the end was never freed before. */
  lemma {:induction false} FreedForever(w: World, s: Sys, acts: seq<Act>, h: Handle)
    requires Integrity.Kept(w, s) && System.Run(w, s, acts).Some? && h < |s.heap| && s.heap[h].life.Freed?
    ensures var s' := System.Run(w, s, acts).value; h < |s'.heap| && s'.heap[h].life.Freed?
    decreases |acts|
  {
    if acts != [] {
      FreedStays(w, s, acts[0], h);
      Integrity.StepKeepsKept(w, s, acts[0]);
      FreedForever(w, Do(w, s, acts[0]), acts[1..], h);
    }
  }

  lemma {:induction false} IdStays(w: World, s: Sys, acts: seq<Act>, h: Handle)
    requires Integrity.Kept(w, s) && System.Run(w, s, acts).Some?
    requires Threads.IsPublished(s, h) && Threads.IsPublished(System.Run(w, s, acts).value, h)
    ensures System.Run(w, s, acts).value.heap[h].data.sessionId == s.heap[h].data.sessionId
    decreases |acts|
  {
    if acts != [] {
      var s1 := Do(w, s, acts[0]);
      Integrity.StepKeepsKept(w, s, acts[0]);
      Integrity.PublishedKeysAreStable(w, s, acts[0], h);
      if s1.heap[h].life.Freed? {
        FreedForever(w, s1, acts[1..], h);
      }
      IdStays(w, s1, acts[1..], h);
    }
  }

  ghost predicate Tracked(w: World, s: Sys) {
    Integrity.Kept(w, s) && NoPeerYet(s) && Carries(s)
  }

  lemma StepKeepsTracked(w: World, s: Sys, a: Act)
    requires Tracked(w, s) && Can(w, s, a)
    ensures Tracked(w, Do(w, s, a))
  {
    Integrity.StepKeepsKept(w, s, a);
    StepKeepsNoPeerYet(w, s, a);
    StepKeepsCarries(w, s, a);
  }

  lemma {:induction false} RunKeepsTracked(w: World, s: Sys, acts: seq<Act>)
    requires Tracked(w, s) && System.Run(w, s, acts).Some?
    ensures Tracked(w, System.Run(w, s, acts).value)
    decreases |acts|
  {
    if acts != [] {
      StepKeepsTracked(w, s, acts[0]);
      RunKeepsTracked(w, Do(w, s, acts[0]), acts[1..]);
    }
  }

  lemma FirstStep(w: World, s: Sys, a: Act, acts: seq<Act>, h: Handle)
    requires Tracked(w, s) && Can(w, s, a) && System.Run(w, Do(w, s, a), acts).Some?
    requires Threads.IsPublished(System.Run(w, Do(w, s, a), acts).value, h)
    ensures PeerOf(Do(w, s, a), h) == if Stores(s, a, h) then Some(s.u.from) else PeerOf(s, h)
  {
    var s1 := Do(w, s, a);
    Integrity.StepKeepsKept(w, s, a);
    Integrity.StepGrows(w, s, a);
    if h < |s1.heap| {
      if s1.heap[h].life.Freed? {
        FreedForever(w, s1, acts, h);
      }
      PeerMovesExactly(w, s, a, h);
    } else {
      assert UdpRefLive(s);
    }
  }

  ghost predicate UdpRefLive(s: Sys) {
    s.u.UStore? ==> s.u.h < |s.heap|
  }

  /** The address is that of the last store for the session, if there was any. */
  lemma {:induction false} PeerFollowsSources(w: World, s: Sys, acts: seq<Act>, h: Handle)
    requires Tracked(w, s) && System.Run(w, s, acts).Some?
    requires Threads.IsPublished(System.Run(w, s, acts).value, h)
    ensures var last := LastStored(w, s, acts, h);
            PeerOf(System.Run(w, s, acts).value, h) == if last.Some? then Some(last.value.0) else PeerOf(s, h)
    decreases |acts|
  {
    if acts != [] {
      FirstStep(w, s, acts[0], acts[1..], h);
      StepKeepsTracked(w, s, acts[0]);
      PeerFollowsSources(w, Do(w, s, acts[0]), acts[1..], h);
    }
  }

  /** And the datagram that it came with carried the session's id. */
  lemma {:induction false} SourcesCarryId(w: World, s: Sys, acts: seq<Act>, h: Handle)
    requires Tracked(w, s) && System.Run(w, s, acts).Some?
    requires Threads.IsPublished(System.Run(w, s, acts).value, h)
    ensures var last := LastStored(w, s, acts, h);
            last.Some? ==> Peeked(last.value.1) == Some(System.Run(w, s, acts).value.heap[h].data.sessionId)
    decreases |acts|
  {
    if acts != [] {
      StepKeepsTracked(w, s, acts[0]);
      SourcesCarryId(w, Do(w, s, acts[0]), acts[1..], h);
      if Stores(s, acts[0], h) {
        IdStays(w, s, acts, h);
      }
    }
  }

  lemma InitTracked(w: World)
    ensures Tracked(w, Init())
  {
    Threads.InitInv();
  }

  /**
   * In every run, whoever the peers are: a published session has a peer exactly when a datagram with its id has
   * been stored for it, and then the peer is the source of the last such datagram.
   */
  lemma PeerIsLastSource(w: World, acts: seq<Act>, h: Handle)
    requires System.Run(w, Init(), acts).Some? && Threads.IsPublished(System.Run(w, Init(), acts).value, h)
    ensures var (s, last) := (System.Run(w, Init(), acts).value, LastStored(w, Init(), acts, h));
            && (PeerOf(s, h).Some? <==> last.Some?)
            && (last.Some? ==>
                  && PeerOf(s, h) == Some(last.value.0) && Peeked(last.value.1) == Some(s.heap[h].data.sessionId)
                  && |last.value.1| >= 16)
  {
    InitTracked(w);
    PeerFollowsSources(w, Init(), acts, h);
    SourcesCarryId(w, Init(), acts, h);
  }

  // ---- where datagrams go ----

  /** The TUN sender seals only for a session whose peer is known. */
  ghost predicate TargetHasPeer(s: Sys) {
    s.t.TSeal? ==> PeerOf(s, s.t.h).Some?
  }

  lemma StepKeepsTarget(w: World, s: Sys, a: Act)
    requires Threads.Inv(s) && NoPeerYet(s) && TargetHasPeer(s) && Can(w, s, a)
    ensures TargetHasPeer(Do(w, s, a))
  {
    Threads.StepKeepsInv(w, s, a);
    if a.T? {
      TunKeepsTarget(w, s, a.t);
    } else {
      Integrity.OthersLeaveTun(w, s, a);
      if s.t.TSeal? {
        PeerMovesExactly(w, s, a, s.t.h);
      }
    }
  }

  lemma TunKeepsTarget(w: World, s: Sys, a: TAct)
    requires Threads.Inv(s) && CanT(w, s, a)
    ensures TargetHasPeer(DoT(w, s, a))
  {
    if a.RouteScan? {
      var f := RouteTo(s, s.t.raw[19]);
      assert f.Some? ==> SessionManager.Matches(s.heap[f.value].data, s.t.raw[19]);
    }
  }

  lemma {:induction false} RunKeepsTarget(w: World, s: Sys, acts: seq<Act>)
    requires Tracked(w, s) && TargetHasPeer(s) && System.Run(w, s, acts).Some?
    ensures TargetHasPeer(System.Run(w, s, acts).value)
    decreases |acts|
  {
    if acts != [] {
      StepKeepsTracked(w, s, acts[0]);
      StepKeepsTarget(w, s, acts[0]);
      RunKeepsTarget(w, Do(w, s, acts[0]), acts[1..]);
    }
  }

  /** What the TUN sender seals for a session is addressed to the source of the last datagram stored with its id. */
  lemma SealsToLastSource(w: World, acts: seq<Act>)
    requires System.Run(w, Init(), acts).Some? && CanT(w, System.Run(w, Init(), acts).value, Seal)
    ensures var s := System.Run(w, Init(), acts).value;
            var (h, out) := (s.t.h, DoT(w, s, Seal).t.parcel);
            var last := LastStored(w, Init(), acts, h);
            && last.Some? && Peeked(last.value.1) == Some(s.heap[h].data.sessionId)
            && (out.Some? ==> out.value.h == h && out.value.to == last.value.0)
  {
    InitTracked(w);
    RunKeepsTracked(w, Init(), acts);
    RunKeepsTarget(w, Init(), acts);
    var s := System.Run(w, Init(), acts).value;
    PeerIsLastSource(w, acts, s.t.h);
    SealsToPeer(w, s);
  }

  lemma SealsToPeer(w: World, s: Sys)
    requires CanT(w, s, Seal)
    ensures var out := DoT(w, s, Seal).t.parcel;
            out.Some? ==> out.value.h == s.t.h && out.value.to == s.heap[s.t.h].data.udp.peerAddr
  {
  }
}
