/**
 * The table of the running system against SessionTable.dfy: the threads' scans are its operations, slots fill
 * from the bottom until shutdown, and the TUN sender's choice is exactly the lowest match.
 */
module Allocation {
  import opened Bytes
  import opened Handshake
  import opened SessionTable
  import opened System
  import Tunnel
  import Threads
  import Integrity
  import SessionManager

  ghost function IdsOf(s: Sys): (t: Table)
    requires |s.table| == MAX_SESSIONS
    ensures forall i :: 0 <= i < MAX_SESSIONS ==> (t[i].Some? <==> s.table[i].Some? && s.table[i].value < |s.heap|)
  {
    seq(MAX_SESSIONS, i requires 0 <= i < MAX_SESSIONS =>
      if s.table[i].Some? && s.table[i].value < |s.heap| then Some(s.heap[s.table[i].value].data.sessionId) else None)
  }

  // ---- the scans ----

  lemma LowestIs(flags: seq<bool>, i: nat)
    requires i <= |flags| && (i < |flags| ==> flags[i]) && forall j :: 0 <= j < i ==> !flags[j]
    ensures First(flags) == i
  {
  }

  /** The scan of session_manager_get is first-match lookup. */
  lemma LookupIsFind(s: Sys, id: u64)
    requires Threads.Slots(s.table, s.heap)
    ensures var f := Find(IdsOf(s), id);
            FindSession(s, id) == if f < MAX_SESSIONS then s.table[f] else None
  {
    var t := IdsOf(s);
    var f := Find(t, id);
    var p := (d: SessionData) => d.sessionId == id;
    var flags := seq(|s.table|, i requires 0 <= i < |s.table| =>
      s.table[i].Some? && s.table[i].value < |s.heap| && p(s.heap[s.table[i].value].data));
    forall i: nat | i < |flags| ensures flags[i] <==> t[i] == Some(id) {}
    LowestIs(flags, f);
  }

  /** session_manager_add inside the threads is Add on the table, and the new session has its slot's octet. */
  lemma InsertIsAdd(w: World, s: Sys)
    requires Threads.Slots(s.table, s.heap) && CanL(w, s, AddInsert) && Threads.IsPrivate(s, s.l.h)
    ensures var s' := DoL(w, s, AddInsert);
            var f := FreeSlot(IdsOf(s));
            && IdsOf(s') == Apply(IdsOf(s), SessionTable.Add(s.heap[s.l.h].data.sessionId))
            && (f < MAX_SESSIONS ==>
                  s'.heap[s.l.h].life == Published(f) && s'.heap[s.l.h].data.tunnelIpOctet == Octet(f))
            && (f == MAX_SESSIONS ==> s'.table == s.table && s'.l == LUnlock(s.l.h, false))
  {
    SameFreeSlot(s);
    var f := FreeIndex(s);
    if f < MAX_SESSIONS {
      var c := s.heap[s.l.h];
      IdsAfterInsert(s, f, c.(data := c.data.(tunnelIpOctet := Octet(f)), life := Published(f)));
    }
  }

  lemma SameFreeSlot(s: Sys)
    requires Threads.Slots(s.table, s.heap)
    ensures FreeIndex(s) == FreeSlot(IdsOf(s))
  {
  }

  lemma IdsAfterInsert(s: Sys, f: nat, c: Cell)
    requires Threads.Slots(s.table, s.heap) && f < MAX_SESSIONS && s.l.LLocked? && Threads.IsPrivate(s, s.l.h)
    requires c.data.sessionId == s.heap[s.l.h].data.sessionId
    ensures IdsOf(s.(l := LUnlock(s.l.h, true), table := s.table[f := Some(s.l.h)], heap := s.heap[s.l.h := c]))
            == IdsOf(s)[f := Some(c.data.sessionId)]
  {
    var s' := s.(l := LUnlock(s.l.h, true), table := s.table[f := Some(s.l.h)], heap := s.heap[s.l.h := c]);
    forall i: nat | i < MAX_SESSIONS ensures IdsOf(s')[i] == IdsOf(s)[f := Some(c.data.sessionId)][i] {
      if s.table[i].Some? {
        assert s.table[i] != Some(s.l.h);
      }
    }
  }

  /**
   * The TUN sender selects a session exactly when that session is published, established, has a known peer and
   * the packet's last destination byte as its octet, and no such session is in a lower slot; and none exactly
   * when there is no such session.
   */
  lemma RouteIsLowest(w: World, s: Sys, h: Handle)
    requires Threads.Inv(s) && CanT(w, s, RouteScan)
    ensures DoT(w, s, RouteScan).t == TSeal(s.t.raw, h) <==>
              && h < |s.heap| && s.heap[h].life.Published? && s.heap[h].data.state == Established
              && s.heap[h].data.udp.peerKnown && s.heap[h].data.tunnelIpOctet == s.t.raw[19]
              && forall g :: 0 <= g < |s.heap| && s.heap[g].life.Published? && s.heap[g].data.state == Established
                             && s.heap[g].data.udp.peerKnown && s.heap[g].data.tunnelIpOctet == s.t.raw[19] ==>
                               s.heap[h].life.slot <= s.heap[g].life.slot
    ensures DoT(w, s, RouteScan).t == TUnlock(None) <==>
              forall g :: 0 <= g < |s.heap| && s.heap[g].life.Published? ==>
                !(s.heap[g].data.state == Established && s.heap[g].data.udp.peerKnown
                  && s.heap[g].data.tunnelIpOctet == s.t.raw[19])
  {
    var octet := s.t.raw[19];
    var p := (d: SessionData) => SessionManager.Matches(d, octet);
    var flags := seq(|s.table|, i requires 0 <= i < |s.table| =>
      s.table[i].Some? && s.table[i].value < |s.heap| && p(s.heap[s.table[i].value].data));
    forall i: nat | i < |flags|
      ensures flags[i] <==> s.table[i].Some? && SessionManager.Matches(s.heap[s.table[i].value].data, octet)
    {}
    LowestMatch(s.table, s.heap, octet, flags, h);
    SomeMatch(s.table, s.heap, octet, flags);
  }

  ghost predicate Eligible(c: Cell, octet: byte) {
    c.life.Published? && c.data.state == Established && c.data.udp.peerKnown && c.data.tunnelIpOctet == octet
  }

  lemma LowestMatch(table: seq<Option<Handle>>, heap: seq<Cell>, octet: byte, flags: seq<bool>, h: Handle)
    requires Threads.Slots(table, heap) && |flags| == |table|
    requires forall i: nat :: i < |flags| ==>
               (flags[i] <==> table[i].Some? && SessionManager.Matches(heap[table[i].value].data, octet))
    ensures First(flags) < |table| && table[First(flags)] == Some(h) <==>
              && h < |heap| && Eligible(heap[h], octet)
              && forall g :: 0 <= g < |heap| && Eligible(heap[g], octet) ==> heap[h].life.slot <= heap[g].life.slot
  {
    var f := First(flags);
    forall g: nat | g < |heap| && Eligible(heap[g], octet)
      ensures f <= heap[g].life.slot < |table| && table[heap[g].life.slot] == Some(g)
    {
      assert flags[heap[g].life.slot];
    }
    if f < |table| {
      assert flags[f] && heap[table[f].value].life == Published(f);
    }
  }

  lemma SomeMatch(table: seq<Option<Handle>>, heap: seq<Cell>, octet: byte, flags: seq<bool>)
    requires Threads.Slots(table, heap) && |flags| == |table|
    requires forall i: nat :: i < |flags| ==>
               (flags[i] <==> table[i].Some? && SessionManager.Matches(heap[table[i].value].data, octet))
    ensures First(flags) == |table| <==> forall g :: 0 <= g < |heap| ==> !Eligible(heap[g], octet)
  {
    var f := First(flags);
    if f < |table| {
      assert flags[f] && Eligible(heap[table[f].value], octet);
    }
    forall g: nat | g < |heap| && Eligible(heap[g], octet) ensures f < |table| {
      assert flags[heap[g].life.slot];
    }
  }

  // ---- slots fill from the bottom ----

  ghost predicate Packed(s: Sys) {
    Threads.Sweeping(s.m) || forall i, j :: 0 <= i < j < |s.table| && s.table[j].Some? ==> s.table[i].Some?
  }

  lemma StepKeepsPacked(w: World, s: Sys, a: Act)
    requires Packed(s) && Can(w, s, a)
    ensures Packed(Do(w, s, a))
  {
    match a
    case L(b) => ListenerKeepsPacked(w, s, b);
    case M(b) => MainKeepsPacked(s, b);
    case U(b) => UdpLeavesTable(w, s, b);
    case T(b) => TunLeavesTable(w, s, b);
    case C(b) => ClientLeavesTable(w, s, b);
  }

  lemma ListenerKeepsPacked(w: World, s: Sys, a: LAct)
    requires Packed(s) && CanL(w, s, a)
    ensures Packed(DoL(w, s, a))
  {
    if a.AddInsert? {
      var f := FreeIndex(s);
      assert DoL(w, s, a).table == if f < |s.table| then s.table[f := Some(s.l.h)] else s.table;
    } else {
      OthersLeaveTable(w, s, a);
    }
  }

  lemma OthersLeaveTable(w: World, s: Sys, a: LAct)
    requires CanL(w, s, a) && !a.AddInsert?
    ensures DoL(w, s, a).table == s.table && DoL(w, s, a).m == s.m
  {
  }

  lemma MainKeepsPacked(s: Sys, a: MAct)
    requires Packed(s) && CanM(s, a)
    ensures Packed(DoM(s, a))
  {
  }

  lemma UdpLeavesTable(w: World, s: Sys, a: UAct)
    requires CanU(w, s, a)
    ensures DoU(w, s, a).table == s.table && DoU(w, s, a).m == s.m
  {
  }

  lemma TunLeavesTable(w: World, s: Sys, a: TAct)
    requires CanT(w, s, a)
    ensures DoT(w, s, a).table == s.table && DoT(w, s, a).m == s.m
  {
  }

  lemma ClientLeavesTable(w: World, s: Sys, a: CAct)
    requires CanC(w, s, a)
    ensures DoC(w, s, a).table == s.table && DoC(w, s, a).m == s.m
  {
  }

  lemma {:induction false} RunKeepsPacked(w: World, s: Sys, acts: seq<Act>)
    requires Packed(s) && System.Run(w, s, acts).Some?
    ensures Packed(System.Run(w, s, acts).value)
    decreases |acts|
  {
    if acts != [] {
      StepKeepsPacked(w, s, acts[0]);
      RunKeepsPacked(w, Do(w, s, acts[0]), acts[1..]);
    }
  }

  /** Until shutdown sweeps the table, every live slot is below the number of live sessions. */
  lemma LiveSlotsAreLow(w: World, acts: seq<Act>)
    requires System.Run(w, Init(), acts).Some?
    ensures var s := System.Run(w, Init(), acts).value;
            Threads.Slots(s.table, s.heap) && (!Threads.Sweeping(s.m) ==> AllBelow(IdsOf(s), Live(IdsOf(s))))
  {
    Threads.Reachable(w, acts);
    RunKeepsPacked(w, Init(), acts);
    PackedIsLow(System.Run(w, Init(), acts).value);
  }

  lemma PackedIsLow(s: Sys)
    requires Threads.Slots(s.table, s.heap) && Packed(s)
    ensures !Threads.Sweeping(s.m) ==> AllBelow(IdsOf(s), Live(IdsOf(s)))
  {
    var t := IdsOf(s);
    if !Threads.Sweeping(s.m) {
      forall i: nat | i < |t| && t[i].Some? ensures i < Live(t) {
        LiveAtLeast(t, i + 1);
      }
    }
  }

  /** In every run until that sweep, live octets are usable if and only if at most 253 sessions are live. */
  lemma UsableExactly(w: World, acts: seq<Act>)
    requires System.Run(w, Init(), acts).Some? && !Threads.Sweeping(System.Run(w, Init(), acts).value.m)
    ensures var s := System.Run(w, Init(), acts).value;
            |s.table| == MAX_SESSIONS && (Usable(IdsOf(s)) <==> Live(IdsOf(s)) <= 253)
  {
    LiveSlotsAreLow(w, acts);
    RunKeepsPacked(w, Init(), acts);
    var s := System.Run(w, Init(), acts).value;
    if Live(IdsOf(s)) <= 253 {
      OctetsBelow(IdsOf(s));
    } else {
      CrowdedIsUnusable(s);
    }
  }

  lemma CrowdedIsUnusable(s: Sys)
    requires Threads.Slots(s.table, s.heap) && Packed(s) && !Threads.Sweeping(s.m) && Live(IdsOf(s)) > 253
    ensures !Usable(IdsOf(s))
  {
    var t := IdsOf(s);
    if t[253].None? {
      assert s.table[253].None?;
      LiveBelow(t, 253);
    }
    assert t[253].Some? && Octet(253) == 255;
  }

  /**
   * In every run, while at most 253 sessions are live: the published octets are pairwise distinct and in 2..254,
   * and a packet for the octet of an established, reachable session is routed to that session and no other.
   */
  lemma RoutesToTheOwner(w: World, acts: seq<Act>, h: Handle)
    requires System.Run(w, Init(), acts).Some?
    requires var s := System.Run(w, Init(), acts).value;
             !Threads.Sweeping(s.m) && |s.table| == MAX_SESSIONS && Live(IdsOf(s)) <= 253 && Threads.IsPublished(s, h)
    ensures var s := System.Run(w, Init(), acts).value;
            && 2 <= s.heap[h].data.tunnelIpOctet <= 254
            && (forall g :: 0 <= g < |s.heap| && g != h && s.heap[g].life.Published? ==>
                  s.heap[g].data.tunnelIpOctet != s.heap[h].data.tunnelIpOctet)
            && (CanT(w, s, RouteScan) && s.heap[h].data.state == Established && s.heap[h].data.udp.peerKnown ==>
                  (DoT(w, s, RouteScan).t == TSeal(s.t.raw, h) <==> s.heap[h].data.tunnelIpOctet == s.t.raw[19]))
  {
    LiveSlotsAreLow(w, acts);
    Integrity.AlwaysKept(w, acts);
    var s := System.Run(w, Init(), acts).value;
    OctetsDiffer(w, s, h);
    if CanT(w, s, RouteScan) {
      RouteIsLowest(w, s, h);
    }
  }

  lemma OctetsDiffer(w: World, s: Sys, h: Handle)
    requires Threads.Slots(s.table, s.heap) && Integrity.Sessions(w, s) && Threads.IsPublished(s, h)
    requires AllBelow(IdsOf(s), 253)
    ensures 2 <= s.heap[h].data.tunnelIpOctet <= 254
    ensures forall g :: 0 <= g < |s.heap| && g != h && s.heap[g].life.Published? ==>
              s.heap[g].data.tunnelIpOctet != s.heap[h].data.tunnelIpOctet
  {
    var t := IdsOf(s);
    forall g: nat | g < |s.heap| && s.heap[g].life.Published?
      ensures s.heap[g].life.slot < 253 && s.heap[g].data.tunnelIpOctet == Octet(s.heap[g].life.slot)
    {
      assert Integrity.CellOk(s.heap[g]);
      assert t[s.heap[g].life.slot].Some?;
    }
  }
}
