/**
 * Safety of the server's threads in every interleaving: one holder of the lock, no use of a freed session or
 * of a closed TUN, and nothing left behind at shutdown.
 */
module Threads {
  import opened Bytes
  import opened Handshake
  import opened SessionTable
  import opened System

  // ---- the invariant ----

  predicate ListenerHolds(l: LPc) { l.LLocked? || l.LUnlock? }
  predicate UdpHolds(u: UPc) { u.UScan? || u.UGetUnlock? || u.UStore? || u.UStoreUnlock? }
  predicate TunHolds(t: TPc) { t.TScan? || t.TSeal? || t.TUnlock? }
  predicate MainHolds(m: MPc) { m.MSweep? || m.MUnlock? }

  /** The lock's owner is the thread that is in a critical section. */
  ghost predicate Locks(s: Sys) {
    && (s.lock.Listener? <==> ListenerHolds(s.l))
    && (s.lock.Udp? <==> UdpHolds(s.u))
    && (s.lock.Tun? <==> TunHolds(s.t))
    && (s.lock.MainThread? <==> MainHolds(s.m))
  }

  /** The main thread gets past each join only when the thread has exited. */
  ghost predicate Phases(s: Sys) {
    && (!s.m.MRun? && !s.m.MJoinListener? ==> s.l.LExit?)
    && (s.m.MJoinTun? || Sweeping(s.m) ==> s.u.UExit?)
    && (Sweeping(s.m) ==> s.t.TExit?)
    && (s.running <==> s.m.MRun?)
    && (s.tunOpen <==> !s.m.MDone?)
    && (s.udpOpen <==> s.m.MRun? || s.m.MJoinListener? || s.m.MCloseUdp?)
  }

  predicate Sweeping(m: MPc) { m.MLock? || m.MSweep? || m.MUnlock? || m.MCloseTun? || m.MDone? }

  function ListenerRef(l: LPc): Option<Handle> {
    match l
    case LHandshake(h) => Some(h) case LSucceeding(h) => Some(h) case LReady(h) => Some(h)
    case LLocked(h) => Some(h) case LFail(h) => Some(h)
    case LUnlock(h, added) => if added then None else Some(h)
    case _ => None
  }

  function UdpRef(u: UPc): Option<Handle> {
    match u
    case UFound(_, _, h) => Some(h) case UStore(_, _, h) => Some(h) case UStoreUnlock(_, h) => Some(h)
    case UDecode(_, h) => Some(h) case UWrite(_, h) => Some(h)
    case UGetUnlock(_, _, found) => found
    case _ => None
  }

  function TunRef(t: TPc): Option<Handle> {
    if t.TSeal? then Some(t.h) else None
  }

  ghost predicate IsPrivate(s: Sys, h: Handle) { h < |s.heap| && s.heap[h].life.Private? }
  ghost predicate IsPublished(s: Sys, h: Handle) { h < |s.heap| && s.heap[h].life.Published? }

  /** A slot holds a session exactly when the session is published there. */
  ghost predicate Slots(table: seq<Option<Handle>>, heap: seq<Cell>) {
    && |table| == MAX_SESSIONS
    && (forall i :: 0 <= i < |table| && table[i].Some? ==>
          table[i].value < |heap| && heap[table[i].value].life == Published(i))
    && (forall h :: 0 <= h < |heap| && heap[h].life.Published? ==>
          heap[h].life.slot < |table| && table[heap[h].life.slot] == Some(h))
  }

  /** References are to live sessions: the listener's to its own private one, the others' to published ones. */
  ghost predicate References(s: Sys) {
    && (ListenerRef(s.l).Some? ==> IsPrivate(s, ListenerRef(s.l).value))
    && (UdpRef(s.u).Some? ==> IsPublished(s, UdpRef(s.u).value))
    && (TunRef(s.t).Some? ==> IsPublished(s, TunRef(s.t).value))
  }

  ghost predicate Memory(s: Sys) {
    Slots(s.table, s.heap) && |s.remotes| == |s.heap| && References(s)
  }

  /** Every private session is the one the listener is working on. */
  ghost predicate NoLeak(s: Sys) {
    forall h :: 0 <= h < |s.heap| && s.heap[h].life.Private? ==> ListenerRef(s.l) == Some(h)
  }

  ghost predicate Swept(s: Sys) {
    && (s.m.MSweep? ==> forall j :: 0 <= j < s.m.i && j < |s.table| ==> s.table[j].None?)
    && (s.m.MUnlock? || s.m.MCloseTun? || s.m.MDone? ==> forall j :: 0 <= j < |s.table| ==> s.table[j].None?)
  }

  /** The datagram and the packet in hand are as long as the code has checked. */
  ghost predicate Shapes(s: Sys) {
    && (s.u.UGot? || s.u.UScan? ==> Tunnel.Peeked(s.u.d).Some?)
    && (s.t.TRead? || s.t.TScan? ==> |s.t.raw| >= 20)
  }

  ghost predicate Control(s: Sys) {
    Locks(s) && Phases(s) && Shapes(s)
  }

  ghost predicate Inv(s: Sys) {
    Control(s) && Memory(s) && NoLeak(s) && Swept(s)
  }

  // ---- it holds of every reachable state ----

  lemma InitInv()
    ensures Inv(Init())
  {
  }

  lemma ListenerKeepsControl(w: World, s: Sys, a: LAct)
    requires Control(s) && CanL(w, s, a)
    ensures Control(DoL(w, s, a))
  {
  }

  lemma ListenerKeepsReferences(w: World, s: Sys, a: LAct)
    requires Control(s) && Memory(s) && CanL(w, s, a)
    ensures References(DoL(w, s, a))
  {
    if a.Accept? {
      AcceptKeepsReferences(w, s, a.k);
    } else if a.AddInsert? {
      InsertKeepsReferences(w, s);
    }
  }

  lemma AcceptKeepsReferences(w: World, s: Sys, k: Connection)
    requires Memory(s) && CanL(w, s, Accept(k))
    ensures References(DoL(w, s, Accept(k)))
  {
  }

  lemma InsertKeepsReferences(w: World, s: Sys)
    requires Memory(s) && CanL(w, s, AddInsert)
    ensures References(DoL(w, s, AddInsert))
  {
    var f := FreeIndex(s);
    if f < |s.table| {
      var c := s.heap[s.l.h];
      PublishKeepsReferences(s, f, c.(data := c.data.(tunnelIpOctet := Octet(f)), life := Published(f)));
    }
  }

  lemma PublishKeepsReferences(s: Sys, f: nat, c: Cell)
    requires References(s) && s.l.LLocked? && s.l.h < |s.heap| && f < |s.table| && c.life == Published(f)
    ensures References(s.(l := LUnlock(s.l.h, true), table := s.table[f := Some(s.l.h)], heap := s.heap[s.l.h := c]))
  {
  }

  lemma ListenerKeepsSlots(w: World, s: Sys, a: LAct)
    requires Control(s) && Memory(s) && CanL(w, s, a)
    ensures var s' := DoL(w, s, a); Slots(s'.table, s'.heap) && |s'.remotes| == |s'.heap|
  {
    match a
    case Accept(_) => SlotsGrow(s.table, s.heap, DoL(w, s, a).heap[|s.heap|]);
    case AddInsert =>
      var f, c := FreeIndex(s), s.heap[s.l.h];
      if f < |s.table| {
        SlotsFill(s.table, s.heap, f, s.l.h, c.(data := c.data.(tunnelIpOctet := Octet(f)), life := Published(f)));
      }
    case SendSuccess => SlotsKeep(s.table, s.heap, s.l.h, DoL(w, s, a).heap[s.l.h]);
    case FinishHandshake => SlotsKeep(s.table, s.heap, s.l.h, DoL(w, s, a).heap[s.l.h]);
    case Drop => SlotsKeep(s.table, s.heap, s.l.h, Destroyed(s.heap[s.l.h]));
    case _ =>
  }

  lemma SlotsGrow(table: seq<Option<Handle>>, heap: seq<Cell>, c: Cell)
    requires Slots(table, heap) && c.life.Private?
    ensures Slots(table, heap + [c])
  {
  }

  lemma SlotsFill(table: seq<Option<Handle>>, heap: seq<Cell>, f: nat, h: Handle, c: Cell)
    requires Slots(table, heap) && f < |table| && table[f].None?
    requires h < |heap| && heap[h].life.Private? && c.life == Published(f)
    ensures Slots(table[f := Some(h)], heap[h := c])
  {
  }

  lemma SlotsKeep(table: seq<Option<Handle>>, heap: seq<Cell>, h: Handle, c: Cell)
    requires Slots(table, heap) && h < |heap| && heap[h].life.Private? && !c.life.Published?
    ensures Slots(table, heap[h := c])
  {
  }

  lemma ListenerKeepsTable(w: World, s: Sys, a: LAct)
    requires Control(s) && Memory(s) && NoLeak(s) && Swept(s) && CanL(w, s, a)
    ensures NoLeak(DoL(w, s, a)) && Swept(DoL(w, s, a))
  {
    ListenerKeepsSwept(w, s, a);
  }

  lemma ListenerKeepsSwept(w: World, s: Sys, a: LAct)
    requires Control(s) && Swept(s) && CanL(w, s, a)
    ensures Swept(DoL(w, s, a))
  {
    assert a.AddInsert? ==> s.lock.Listener? && !MainHolds(s.m);
  }

  lemma UdpKeepsControl(w: World, s: Sys, a: UAct)
    requires Control(s) && CanU(w, s, a)
    ensures Control(DoU(w, s, a))
  {
  }

  lemma HeldIsPublished(s: Sys, f: Option<Handle>)
    requires Slots(s.table, s.heap) && (f.Some? ==> f in s.table)
    ensures f.Some? ==> IsPublished(s, f.value)
  {
  }

  lemma UdpKeepsReferences(w: World, s: Sys, a: UAct)
    requires Control(s) && Memory(s) && CanU(w, s, a)
    ensures References(DoU(w, s, a))
  {
    if a.Decode? {
      DecodeKeepsReferences(w, s);
    } else if a.GetScan? {
      LookupKeepsReferences(w, s);
    } else {
      OthersKeepReferences(w, s, a);
    }
  }

  lemma LookupKeepsReferences(w: World, s: Sys)
    requires Memory(s) && CanU(w, s, GetScan)
    ensures References(DoU(w, s, GetScan))
  {
    HeldIsPublished(s, FindSession(s, Tunnel.Peeked(s.u.d).value));
  }

  lemma OthersKeepReferences(w: World, s: Sys, a: UAct)
    requires References(s) && CanU(w, s, a) && !a.GetScan? && !a.Decode?
    ensures References(DoU(w, s, a))
  {
  }

  lemma DecodeKeepsReferences(w: World, s: Sys)
    requires Memory(s) && CanU(w, s, Decode)
    ensures References(DoU(w, s, Decode))
  {
  }

  lemma UdpKeepsSlots(w: World, s: Sys, a: UAct)
    requires Control(s) && Memory(s) && CanU(w, s, a)
    ensures var s' := DoU(w, s, a); Slots(s'.table, s'.heap) && |s'.remotes| == |s'.heap|
  {
  }

  lemma UdpKeepsTable(w: World, s: Sys, a: UAct)
    requires Control(s) && Memory(s) && NoLeak(s) && Swept(s) && CanU(w, s, a)
    ensures NoLeak(DoU(w, s, a)) && Swept(DoU(w, s, a))
  {
  }

  lemma TunKeepsControl(w: World, s: Sys, a: TAct)
    requires Control(s) && CanT(w, s, a)
    ensures Control(DoT(w, s, a))
  {
  }

  lemma TunKeepsReferences(w: World, s: Sys, a: TAct)
    requires Control(s) && Memory(s) && CanT(w, s, a)
    ensures References(DoT(w, s, a))
  {
    if a.Seal? {
      SealKeepsReferences(w, s);
    } else if a.RouteScan? {
      HeldIsPublished(s, RouteTo(s, s.t.raw[19]));
    }
  }

  lemma SealKeepsReferences(w: World, s: Sys)
    requires Memory(s) && CanT(w, s, Seal)
    ensures References(DoT(w, s, Seal))
  {
    var s' := DoT(w, s, Seal);
    SealKeepsLives(w, s);
    LivesKeepReferences(s, s');
  }

  lemma SealKeepsLives(w: World, s: Sys)
    requires CanT(w, s, Seal)
    ensures var s' := DoT(w, s, Seal); s'.l == s.l && s'.u == s.u && s'.t.TUnlock? && SameLives(s.heap, s'.heap)
  {
  }

  ghost predicate SameLives(heap: seq<Cell>, heap': seq<Cell>) {
    |heap'| == |heap| && forall h :: 0 <= h < |heap| ==> heap'[h].life == heap[h].life
  }

  lemma LivesKeepReferences(s: Sys, s': Sys)
    requires References(s) && s'.l == s.l && s'.u == s.u && s'.t.TUnlock? && SameLives(s.heap, s'.heap)
    ensures References(s')
  {
  }

  lemma TunKeepsSlots(w: World, s: Sys, a: TAct)
    requires Control(s) && Memory(s) && CanT(w, s, a)
    ensures var s' := DoT(w, s, a); Slots(s'.table, s'.heap) && |s'.remotes| == |s'.heap|
  {
  }

  lemma TunKeepsTable(w: World, s: Sys, a: TAct)
    requires Control(s) && Memory(s) && NoLeak(s) && Swept(s) && CanT(w, s, a)
    ensures NoLeak(DoT(w, s, a)) && Swept(DoT(w, s, a))
  {
  }

  lemma MainKeepsControl(s: Sys, a: MAct)
    requires Control(s) && CanM(s, a)
    ensures Control(DoM(s, a))
  {
    MainKeepsLocks(s, a);
    MainKeepsPhases(s, a);
  }

  lemma MainKeepsLocks(s: Sys, a: MAct)
    requires Locks(s) && CanM(s, a)
    ensures Locks(DoM(s, a))
  {
  }

  lemma MainKeepsPhases(s: Sys, a: MAct)
    requires Phases(s) && CanM(s, a)
    ensures Phases(DoM(s, a))
  {
  }

  lemma MainKeepsReferences(s: Sys, a: MAct)
    requires Control(s) && Memory(s) && CanM(s, a)
    ensures References(DoM(s, a))
  {
  }

  lemma MainKeepsSlots(s: Sys, a: MAct)
    requires Control(s) && Memory(s) && CanM(s, a)
    ensures var s' := DoM(s, a); Slots(s'.table, s'.heap) && |s'.remotes| == |s'.heap|
  {
  }

  lemma MainKeepsTable(s: Sys, a: MAct)
    requires Control(s) && Memory(s) && NoLeak(s) && Swept(s) && CanM(s, a)
    ensures NoLeak(DoM(s, a)) && Swept(DoM(s, a))
  {
  }

  lemma ClientKeepsControl(w: World, s: Sys, a: CAct)
    requires Control(s) && CanC(w, s, a)
    ensures Control(DoC(w, s, a))
  {
  }

  lemma ClientKeepsMemory(w: World, s: Sys, a: CAct)
    requires Control(s) && Memory(s) && CanC(w, s, a)
    ensures Memory(DoC(w, s, a))
  {
  }

  lemma ClientKeepsTable(w: World, s: Sys, a: CAct)
    requires Control(s) && Memory(s) && NoLeak(s) && Swept(s) && CanC(w, s, a)
    ensures NoLeak(DoC(w, s, a)) && Swept(DoC(w, s, a))
  {
  }

  lemma StepKeepsInv(w: World, s: Sys, a: Act)
    requires Inv(s) && Can(w, s, a)
    ensures Inv(Do(w, s, a))
  {
    match a
    case L(b) =>
      ListenerKeepsControl(w, s, b);
      ListenerKeepsReferences(w, s, b);
      ListenerKeepsSlots(w, s, b);
      ListenerKeepsTable(w, s, b);
    case U(b) =>
      UdpKeepsControl(w, s, b);
      UdpKeepsReferences(w, s, b);
      UdpKeepsSlots(w, s, b);
      UdpKeepsTable(w, s, b);
    case T(b) =>
      TunKeepsControl(w, s, b);
      TunKeepsReferences(w, s, b);
      TunKeepsSlots(w, s, b);
      TunKeepsTable(w, s, b);
    case M(b) =>
      MainKeepsControl(s, b);
      MainKeepsReferences(s, b);
      MainKeepsSlots(s, b);
      MainKeepsTable(s, b);
    case C(b) =>
      ClientKeepsControl(w, s, b);
      ClientKeepsMemory(w, s, b);
      ClientKeepsTable(w, s, b);
  }

  lemma {:induction false} RunKeepsInv(w: World, s: Sys, acts: seq<Act>)
    requires Inv(s) && Run(w, s, acts).Some?
    ensures Inv(Run(w, s, acts).value)
    decreases |acts|
  {
    if acts != [] {
      StepKeepsInv(w, s, acts[0]);
      RunKeepsInv(w, Do(w, s, acts[0]), acts[1..]);
    }
  }

  lemma Reachable(w: World, acts: seq<Act>)
    requires Run(w, Init(), acts).Some?
    ensures Inv(Run(w, Init(), acts).value)
  {
    InitInv();
    RunKeepsInv(w, Init(), acts);
  }

  // ---- the lock ----

  /** In every interleaving at most one thread is in a critical section, and it is the lock's owner. */
  lemma MutualExclusion(w: World, acts: seq<Act>)
    requires Run(w, Init(), acts).Some?
    ensures var s := Run(w, Init(), acts).value;
            && !(ListenerHolds(s.l) && UdpHolds(s.u)) && !(ListenerHolds(s.l) && TunHolds(s.t))
            && !(ListenerHolds(s.l) && MainHolds(s.m)) && !(UdpHolds(s.u) && TunHolds(s.t))
            && !(UdpHolds(s.u) && MainHolds(s.m)) && !(TunHolds(s.t) && MainHolds(s.m))
            && (s.lock.Nobody? <==> !ListenerHolds(s.l) && !UdpHolds(s.u) && !TunHolds(s.t) && !MainHolds(s.m))
  {
    Reachable(w, acts);
  }

  /** The next step of the lock's owner. */
  ghost function OwnersAct(s: Sys): Act {
    match s.lock
    case Listener => L(if s.l.LLocked? then AddInsert else AddUnlock)
    case Udp => U(if s.u.UScan? then GetScan else if s.u.UGetUnlock? then GetUnlock
                  else if s.u.UStore? then PeerStore else PeerUnlock)
    case Tun => T(if s.t.TScan? then RouteScan else if s.t.TSeal? then Seal else RouteUnlock)
    case _ => M(if s.m.MSweep? then SweepSlot else SweepUnlock)
  }

  /** How many steps the owner is away from releasing the lock. */
  ghost function Hold(s: Sys): nat {
    match s.lock
    case Nobody => 0
    case Listener => if s.l.LLocked? then 2 else 1
    case Udp => if s.u.UScan? || s.u.UStore? then 2 else 1
    case Tun => if s.t.TScan? then 3 else if s.t.TSeal? then 2 else 1
    case MainThread => if s.m.MSweep? then 2 + (if s.m.i < |s.table| then |s.table| - s.m.i else 0) else 1
  }

  ghost predicate ActsFor(a: Act, o: Holder) {
    (a.L? && o.Listener?) || (a.U? && o.Udp?) || (a.T? && o.Tun?) || (a.M? && o.MainThread?)
  }

  /** The owner is never blocked, and each of its steps brings it nearer to the release. */
  lemma OwnerReleases(w: World, s: Sys)
    requires Inv(s) && !s.lock.Nobody?
    ensures Releasing(w, s, OwnersAct(s))
  {
    match s.lock
    case Listener => ListenerReleases(w, s);
    case Udp => UdpReleases(w, s);
    case Tun => TunReleases(w, s);
    case _ => MainReleases(w, s);
  }

  /** The step is the owner's, is possible, and releases the lock or brings the owner nearer to that. */
  ghost predicate Releasing(w: World, s: Sys, a: Act) {
    ActsFor(a, s.lock) && Can(w, s, a) &&
    var s' := Do(w, s, a);
    s'.lock.Nobody? || (s'.lock == s.lock && Hold(s') < Hold(s))
  }

  lemma ListenerReleases(w: World, s: Sys)
    requires Inv(s) && s.lock.Listener?
    ensures Releasing(w, s, OwnersAct(s))
  {
  }

  lemma UdpReleases(w: World, s: Sys)
    requires Inv(s) && s.lock.Udp?
    ensures Releasing(w, s, OwnersAct(s))
  {
  }

  lemma TunReleases(w: World, s: Sys)
    requires Inv(s) && s.lock.Tun?
    ensures Releasing(w, s, OwnersAct(s))
  {
  }

  lemma MainReleases(w: World, s: Sys)
    requires Inv(s) && s.lock.MainThread?
    ensures Releasing(w, s, OwnersAct(s))
  {
  }

  /** Nobody else's step takes the lock away or delays the release. */
  lemma OthersLeaveTheLock(w: World, s: Sys, a: Act)
    requires Inv(s) && !s.lock.Nobody? && Can(w, s, a) && !ActsFor(a, s.lock)
    ensures Do(w, s, a).lock == s.lock && Hold(Do(w, s, a)) == Hold(s)
  {
    match a
    case L(b) => ListenerKeepsControl(w, s, b);
    case U(b) => UdpKeepsControl(w, s, b);
    case T(b) => TunKeepsControl(w, s, b);
    case M(b) => MainKeepsControl(s, b);
    case C(b) => ClientKeepsControl(w, s, b);
  }

  /** The owner has no other step than OwnersAct. */
  lemma OwnerHasOneStep(w: World, s: Sys, a: Act)
    requires Inv(s) && Can(w, s, a) && ActsFor(a, s.lock)
    ensures a == OwnersAct(s)
  {
  }

  // ---- memory ----

  /** The step reads or writes the session object, or the shared fields of the table entry. */
  ghost predicate Touches(s: Sys, a: Act, h: Handle) {
    match a
    case L(b) => !b.Accept? && !b.LQuit? && ListenerRef(s.l) == Some(h)
    case U(GetScan) => Some(h) in s.table
    case U(PeerStore) => UdpRef(s.u) == Some(h)
    case U(Decode) => UdpRef(s.u) == Some(h)
    case T(RouteScan) => Some(h) in s.table
    case T(Seal) => TunRef(s.t) == Some(h)
    case M(SweepSlot) => s.m.MSweep? && s.m.i < |s.table| && s.table[s.m.i] == Some(h)
    case _ => false
  }

  predicate TouchesTun(a: Act) {
    a == U(Write) || (a.T? && a.t.ReadTun?) || a == M(CloseTun)
  }

  /** The step reads or writes the table, a peer address or a transmit counter of a published session. */
  predicate NeedsLock(a: Act) {
    a == L(AddInsert) || a == U(GetScan) || a == U(PeerStore) || a == T(RouteScan) || a == T(Seal) || a == M(SweepSlot)
  }

  /**
   * In every interleaving, including the window between session_manager_get and the second lock, and the decode
   * outside any lock: no step touches a freed session or a closed TUN, and shared fields are touched only by
   * the lock's owner.
   */
  lemma NoUseAfterFree(w: World, acts: seq<Act>, a: Act, h: Handle)
    requires Run(w, Init(), acts).Some? && Can(w, Run(w, Init(), acts).value, a)
    ensures var s := Run(w, Init(), acts).value;
            && (Touches(s, a, h) ==> h < |s.heap| && !s.heap[h].life.Freed?)
            && (TouchesTun(a) ==> s.tunOpen)
            && (NeedsLock(a) ==> ActsFor(a, s.lock))
  {
    Reachable(w, acts);
    var s := Run(w, Init(), acts).value;
    if Touches(s, a, h) {
      TouchedIsLive(s, a, h);
    }
  }

  lemma TouchedIsLive(s: Sys, a: Act, h: Handle)
    requires Inv(s) && Touches(s, a, h)
    ensures h < |s.heap| && !s.heap[h].life.Freed?
  {
  }

  lemma ListenerFrees(w: World, s: Sys, a: LAct, h: Handle)
    requires Memory(s) && CanL(w, s, a) && h < |s.heap| && !s.heap[h].life.Freed?
    ensures h < |DoL(w, s, a).heap|
    ensures DoL(w, s, a).heap[h].life.Freed? ==> a.Drop? && s.heap[h].life.Private?
  {
  }

  lemma MainFrees(s: Sys, a: MAct, h: Handle)
    requires Phases(s) && Memory(s) && CanM(s, a) && h < |s.heap| && !s.heap[h].life.Freed?
    ensures h < |DoM(s, a).heap|
    ensures DoM(s, a).heap[h].life.Freed? ==>
              a.SweepSlot? && s.heap[h].life.Published? && s.l.LExit? && s.u.UExit? && s.t.TExit?
  {
  }

  lemma DataThreadsNeverFree(w: World, s: Sys, a: Act, h: Handle)
    requires Can(w, s, a) && (a.U? || a.T? || a.C?) && h < |s.heap|
    ensures h < |Do(w, s, a).heap| && Do(w, s, a).heap[h].life == s.heap[h].life
  {
  }

  /** Sessions are freed only before publication, by the listener, or by the main thread after every join. */
  lemma FreedOnlyWhenAlone(w: World, s: Sys, a: Act, h: Handle)
    requires Inv(s) && Can(w, s, a) && h < |s.heap| && !s.heap[h].life.Freed?
    ensures h < |Do(w, s, a).heap|
    ensures Do(w, s, a).heap[h].life.Freed? ==>
              || (a == L(Drop) && s.heap[h].life.Private?)
              || (a == M(SweepSlot) && s.heap[h].life.Published? && s.l.LExit? && s.u.UExit? && s.t.TExit?)
  {
    match a
    case L(b) => ListenerFrees(w, s, b, h);
    case M(b) => MainFrees(s, b, h);
    case _ => DataThreadsNeverFree(w, s, a, h);
  }

  /** When the main thread is done, every thread has exited, the table is empty, and every session has been freed. */
  lemma ShutdownIsComplete(w: World, acts: seq<Act>)
    requires Run(w, Init(), acts).Some? && Run(w, Init(), acts).value.m.MDone?
    ensures var s := Run(w, Init(), acts).value;
            && s.l.LExit? && s.u.UExit? && s.t.TExit? && s.lock.Nobody? && !s.running && !s.udpOpen && !s.tunOpen
            && (forall i :: 0 <= i < |s.table| ==> s.table[i].None?)
            && (forall h :: 0 <= h < |s.heap| ==> s.heap[h].life.Freed?)
  {
    Reachable(w, acts);
    var s := Run(w, Init(), acts).value;
    assert ListenerRef(s.l).None?;
  }

  /** A datagram finds a session exactly when one with its id has been published. */
  lemma OnlyPublishedAreFound(w: World, s: Sys)
    requires Inv(s) && CanU(w, s, GetScan)
    ensures var id := Tunnel.Peeked(s.u.d).value;
            var found := DoU(w, s, GetScan).u.found;
            && (found.Some? ==> IsPublished(s, found.value) && s.heap[found.value].data.sessionId == id)
            && (found.None? ==>
                  forall h :: 0 <= h < |s.heap| && s.heap[h].life.Published? ==> s.heap[h].data.sessionId != id)
  {
    var f := FindSession(s, Tunnel.Peeked(s.u.d).value);
    HeldIsPublished(s, f);
    if f.None? {
      forall h | 0 <= h < |s.heap| && s.heap[h].life.Published?
        ensures s.heap[h].data.sessionId != Tunnel.Peeked(s.u.d).value
      {
        assert s.table[s.heap[h].life.slot] == Some(h);
      }
    }
  }

  /** A datagram that finds none leaves everything as it was. */
  lemma EarlyDatagramsChangeNothing(w: World, s: Sys)
    requires Inv(s) && CanU(w, s, GetScan) && DoU(w, s, GetScan).u.found.None?
    ensures CanU(w, DoU(w, s, GetScan), GetUnlock)
    ensures DoU(w, DoU(w, s, GetScan), GetUnlock) == s.(u := UIdle, lock := Nobody)
  {
  }
}
