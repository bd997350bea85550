/**
 * The server can always come to its end: from every state that a run reaches, without any new work, the threads
 * finish what they are at, exit in order, and leave nothing behind.
 */
module Termination {
  import opened SessionTable
  import opened System
  import Tunnel
  import Threads
  import Delivery

  // ---- how far each thread is from its exit ----

  function ListenerRank(l: LPc): nat {
    match l
    case LExit => 0
    case LIdle => 1
    case LFail(_) => 2
    case LUnlock(_, _) => 3
    case LLocked(_) => 4
    case LReady(_) => 5
    case LHandshake(_) => 6
    case LSucceeding(_) => 6
  }

  function UdpRank(u: UPc): nat {
    match u
    case UExit => 0
    case UIdle => 1
    case UWrite(_, _) => 2
    case UDecode(_, _) => 3
    case UStoreUnlock(_, _) => 4
    case UStore(_, _, _) => 5
    case UFound(_, _, _) => 6
    case UGetUnlock(_, _, _) => 7
    case UScan(_, _) => 8
    case UGot(_, _) => 9
  }

  function TunRank(t: TPc): nat {
    match t
    case TExit => 0
    case TIdle => 1
    case TSend(_) => 2
    case TUnlock(_) => 3
    case TSeal(_, _) => 4
    case TScan(_) => 5
    case TRead(_) => 6
  }

  function MainRank(m: MPc): nat {
    match m
    case MDone => 0
    case MCloseTun => 1
    case MUnlock => 2
    case MSweep(i) => if i < MAX_SESSIONS then 3 + MAX_SESSIONS - i else 3
    case MLock => 4 + MAX_SESSIONS
    case MJoinTun => 5 + MAX_SESSIONS
    case MJoinUdp => 6 + MAX_SESSIONS
    case MCloseUdp => 7 + MAX_SESSIONS
    case MJoinListener => 8 + MAX_SESSIONS
    case MRun => 9 + MAX_SESSIONS
  }

  function Rank(s: Sys): nat {
    ListenerRank(s.l) + UdpRank(s.u) + TunRank(s.t) + MainRank(s.m)
  }

  // ---- a step towards it ----

  function ListenerStep(l: LPc): LAct {
    match l
    case LIdle => LQuit
    case LReady(_) => AddLock
    case LFail(_) => Drop
    case _ => FailHandshake
  }

  function UdpStep(u: UPc): UAct {
    match u
    case UGot(_, _) => GetLock
    case UFound(_, _, _) => PeerLock
    case UDecode(_, _) => Decode
    case UWrite(_, _) => Write
    case _ => UQuit
  }

  function TunStep(t: TPc): TAct {
    match t
    case TRead(_) => RouteLock
    case TSend(_) => Send
    case _ => TQuit
  }

  function MainStep(m: MPc): MAct {
    match m
    case MRun => MAct.Shutdown
    case MJoinListener => MAct.JoinListener
    case MCloseUdp => CloseUdp
    case MJoinUdp => JoinUdp
    case MJoinTun => JoinTun
    case MLock => SweepLock
    case _ => CloseTun
  }

  /** The lock's owner goes on; then the listener; then whoever holds a datagram or a packet; then the main thread. */
  ghost function Next(s: Sys): Act {
    if !s.lock.Nobody? then Threads.OwnersAct(s)
    else if !s.l.LExit? then L(ListenerStep(s.l))
    else if !s.u.UIdle? && !s.u.UExit? then U(UdpStep(s.u))
    else if !s.t.TIdle? && !s.t.TExit? then T(TunStep(s.t))
    else if s.m.MJoinUdp? && s.u.UIdle? then U(UQuit)
    else if s.m.MJoinTun? && s.t.TIdle? then T(TQuit)
    else M(MainStep(s.m))
  }

  ghost predicate Falls(w: World, s: Sys, a: Act) {
    Can(w, s, a) && Rank(Do(w, s, a)) < Rank(s)
  }

  /** Every step of the listener's but a new datagram brings it nearer to its exit. */
  lemma UdpRankFalls(w: World, s: Sys, a: UAct)
    requires CanU(w, s, a) && !a.Arrive?
    ensures UdpRank(DoU(w, s, a).u) < UdpRank(s.u)
  {
    if a.GetLock? || a.GetScan? || a.GetUnlock? || a.PeerLock? {
      LookupFalls(w, s, a);
    } else {
      DeliveryFalls(w, s, a);
    }
  }

  lemma LookupFalls(w: World, s: Sys, a: UAct)
    requires CanU(w, s, a) && (a.GetLock? || a.GetScan? || a.GetUnlock? || a.PeerLock?)
    ensures UdpRank(DoU(w, s, a).u) < UdpRank(s.u)
  {
  }

  lemma DeliveryFalls(w: World, s: Sys, a: UAct)
    requires CanU(w, s, a) && (a.PeerStore? || a.PeerUnlock? || a.Decode? || a.Write? || a.UQuit?)
    ensures UdpRank(DoU(w, s, a).u) < UdpRank(s.u)
  {
  }

  lemma OnlyUdpMoves(w: World, s: Sys, a: UAct)
    requires CanU(w, s, a) && UdpRank(DoU(w, s, a).u) < UdpRank(s.u)
    ensures Falls(w, s, U(a))
  {
  }

  lemma OwnerFalls(w: World, s: Sys)
    requires Threads.Inv(s) && !s.lock.Nobody?
    ensures Falls(w, s, Threads.OwnersAct(s))
  {
    Threads.OwnerReleases(w, s);
    match s.lock
    case Listener => ListenerOwnerFalls(w, s);
    case Udp => UdpOwnerFalls(w, s);
    case Tun => TunOwnerFalls(w, s);
    case _ => MainOwnerFalls(w, s);
  }

  lemma ListenerOwnerFalls(w: World, s: Sys)
    requires Threads.Inv(s) && s.lock.Listener? && Can(w, s, Threads.OwnersAct(s))
    ensures Rank(Do(w, s, Threads.OwnersAct(s))) < Rank(s)
  {
  }

  lemma UdpOwnerFalls(w: World, s: Sys)
    requires Threads.Inv(s) && s.lock.Udp? && Can(w, s, Threads.OwnersAct(s))
    ensures Falls(w, s, Threads.OwnersAct(s))
  {
    UdpRankFalls(w, s, Threads.OwnersAct(s).u);
    OnlyUdpMoves(w, s, Threads.OwnersAct(s).u);
  }

  lemma TunOwnerFalls(w: World, s: Sys)
    requires Threads.Inv(s) && s.lock.Tun? && Can(w, s, Threads.OwnersAct(s))
    ensures Rank(Do(w, s, Threads.OwnersAct(s))) < Rank(s)
  {
  }

  lemma MainOwnerFalls(w: World, s: Sys)
    requires Threads.Inv(s) && s.lock.MainThread? && Can(w, s, Threads.OwnersAct(s))
    ensures Rank(Do(w, s, Threads.OwnersAct(s))) < Rank(s)
  {
  }

  lemma ListenerFalls(w: World, s: Sys)
    requires Threads.Inv(s) && s.lock.Nobody? && !s.l.LExit?
    ensures Falls(w, s, L(ListenerStep(s.l)))
  {
  }

  lemma UdpFalls(w: World, s: Sys)
    requires Threads.Inv(s) && s.lock.Nobody? && !s.u.UExit? && (s.u.UIdle? ==> !s.udpOpen)
    ensures Falls(w, s, U(UdpStep(s.u)))
  {
    UdpCanStep(w, s);
    UdpRankFalls(w, s, UdpStep(s.u));
    OnlyUdpMoves(w, s, UdpStep(s.u));
  }

  lemma UdpCanStep(w: World, s: Sys)
    requires Threads.Inv(s) && s.lock.Nobody? && !s.u.UExit? && (s.u.UIdle? ==> !s.udpOpen)
    ensures CanU(w, s, UdpStep(s.u)) && !UdpStep(s.u).Arrive?
  {
  }

  lemma TunFalls(w: World, s: Sys)
    requires Threads.Inv(s) && s.lock.Nobody? && !s.t.TExit? && (s.t.TIdle? ==> !s.udpOpen)
    ensures Falls(w, s, T(TunStep(s.t)))
  {
  }

  lemma MainFalls(w: World, s: Sys)
    requires Threads.Inv(s) && s.lock.Nobody? && s.l.LExit? && !s.m.MDone?
    requires (s.m.MJoinUdp? ==> s.u.UExit?) && (s.m.MJoinTun? ==> s.t.TExit?)
    ensures Falls(w, s, M(MainStep(s.m)))
  {
  }

  /** No state that a run reaches is stuck before the end, and a step towards the end is always possible. */
  lemma NextFalls(w: World, s: Sys)
    requires Threads.Inv(s) && !s.m.MDone?
    ensures Falls(w, s, Next(s))
  {
    if !s.lock.Nobody? {
      OwnerFalls(w, s);
    } else if !s.l.LExit? {
      ListenerFalls(w, s);
    } else if !s.u.UIdle? && !s.u.UExit? {
      UdpFalls(w, s);
    } else if !s.t.TIdle? && !s.t.TExit? {
      TunFalls(w, s);
    } else if s.m.MJoinUdp? && s.u.UIdle? {
      UdpFalls(w, s);
    } else if s.m.MJoinTun? && s.t.TIdle? {
      TunFalls(w, s);
    } else {
      MainFalls(w, s);
    }
  }

  lemma {:induction false} Finishes(w: World, s: Sys) returns (acts: seq<Act>)
    requires Threads.Inv(s)
    ensures System.Run(w, s, acts).Some? && System.Run(w, s, acts).value.m.MDone? && |acts| <= Rank(s)
    decreases Rank(s)
  {
    acts := [];
    if !s.m.MDone? {
      NextFalls(w, s);
      Threads.StepKeepsInv(w, s, Next(s));
      var rest := Finishes(w, Do(w, s, Next(s)));
      Delivery.RunOne(w, s, Next(s), rest);
      acts := [Next(s)] + rest;
    }
  }

  lemma RankIsBounded(s: Sys)
    ensures Rank(s) <= 1054
  {
  }

  /**
   * From every state that any run reaches, whoever the peers are, at most 1054 further steps bring the
   * server to its end, where Threads.ShutdownIsComplete says what is left: nothing.
   */
  lemma ShutdownIsAlwaysPossible(w: World, acts: seq<Act>) returns (more: seq<Act>)
    requires System.Run(w, Init(), acts).Some?
    ensures |more| <= 1054 && System.Run(w, Init(), acts + more).Some?
    ensures var s := System.Run(w, Init(), acts + more).value;
            && s.m.MDone? && s.l.LExit? && s.u.UExit? && s.t.TExit? && s.lock.Nobody?
            && !s.running && !s.tunOpen && !s.udpOpen
            && (forall h :: 0 <= h < |s.heap| ==> s.heap[h].life.Freed?)
  {
    Threads.Reachable(w, acts);
    var s := System.Run(w, Init(), acts).value;
    more := Finishes(w, s);
    RankIsBounded(s);
    Delivery.RunBoth(w, Init(), acts, more);
    Threads.ShutdownIsComplete(w, acts + more);
  }
}
