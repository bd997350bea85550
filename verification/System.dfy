/**
 * The running system: the server's TCP listener, UDP listener, TUN sender and main thread
 * (src/sessions/session_manager.c, src/commands/server_env.c) with their lock, the clients
 * (src/commands/client_env.c), and a network that delivers any bytes to anyone at any time.
 */
module System {
  import opened Bytes
  import opened Crypto
  import opened Handshake
  import opened Protocol
  import opened SessionTable
  import opened Tunnel
  import opened SessionManager

  /** The primitives, and the server's identity. */
  datatype World = World(suite: Suite, codec: Codec, server: Identity) {
    ghost predicate Lawful() {
      suite.Lawful() && codec.Lawful()
    }
  }

  /** Sessions are numbered in the order in which their connections were accepted. */
  type Handle = nat

  /**
   * A connection that the server accepts: what it draws for it, and all the bytes that it is sent on it, by
   * whomever. `client` is the honest client at the other end, if there is one.
   */
  datatype Connection = Connection(draws: Draws, id: u64, stream: seq<byte>, client: Option<Setup>)

  /** What session_server_connect comes to on the connection. */
  ghost function Outcome(w: World, k: Connection): Result {
    ServerRun(w.suite, k.draws, Created(Server, w.server, None, k.id), k.stream)
  }

  /** The connection is between this server and an honest client, and the stream is what that client writes. */
  ghost predicate Honest(w: World, k: Connection) {
    k.client.Some? &&
    var x := k.client.value;
    && x.Honest() && x.suite == w.suite && x.server == w.server
    && x.serverDraws == k.draws && x.serverId == k.id && k.stream == Total(x, Client)
  }

  datatype Life = Private | Published(slot: nat) | Freed

  /**
   * A session object of the server, and the end that its handshake will come to. `ready` once AUTH_SUCCESS has
   * been handed over, `tries` the number of counters drawn from it.
   */
  datatype Cell = Cell(conn: Connection, end: Result, data: SessionData, life: Life, ready: bool, tries: nat)

  datatype Status = NotYet | Up | Down

  /** The session at the other end of the same connection, if an honest client is there. */
  datatype Remote = Remote(data: SessionData, status: Status, tries: nat)

  datatype Holder = Nobody | Listener | Udp | Tun | MainThread

  datatype LPc =
    | LIdle
    | LHandshake(h: Handle)            // in session_server_connect
    | LSucceeding(h: Handle)           // AUTH_SUCCESS handed over, packet_send not returned
    | LReady(h: Handle)                // before session_manager_add
    | LLocked(h: Handle)
    | LUnlock(h: Handle, added: bool)
    | LFail(h: Handle)                 // before session_destroy and free
    | LExit

  datatype UPc =
    | UIdle
    | UGot(d: seq<byte>, from: Address)                                // before the lock of session_manager_get
    | UScan(d: seq<byte>, from: Address)
    | UGetUnlock(d: seq<byte>, from: Address, found: Option<Handle>)
    | UFound(d: seq<byte>, from: Address, h: Handle)                   // the window before the second lock
    | UStore(d: seq<byte>, from: Address, h: Handle)
    | UStoreUnlock(d: seq<byte>, h: Handle)
    | UDecode(d: seq<byte>, h: Handle)                                 // outside the lock
    | UWrite(packet: seq<byte>, h: Handle)
    | UExit

  /** A datagram for a session's client, on its way to an address. */
  datatype Parcel = Parcel(h: Handle, d: seq<byte>, to: Address)

  datatype TPc =
    | TIdle
    | TRead(raw: seq<byte>)
    | TScan(raw: seq<byte>)
    | TSeal(raw: seq<byte>, h: Handle)
    | TUnlock(parcel: Option<Parcel>)
    | TSend(out: Parcel)
    | TExit

  datatype MPc =
    | MRun | MJoinListener | MCloseUdp | MJoinUdp | MJoinTun
    | MLock | MSweep(i: nat) | MUnlock | MCloseTun | MDone

  /** One sealed datagram: who sealed it, with the how-manieth counter, from which packet; and what the AEAD saw. */
  datatype Entry = Entry(h: Handle, fromServer: bool, k: nat, raw: seq<byte>, key: Key, nonce: AeadNonce, ct: seq<byte>)

  datatype Sys = Sys(
    lock: Holder, l: LPc, u: UPc, t: TPc, m: MPc,
    running: bool, udpOpen: bool, tunOpen: bool,
    table: seq<Option<Handle>>,
    heap: seq<Cell>,
    remotes: seq<Remote>,
    log: seq<Entry>,
    routed: set<(Handle, seq<byte>)>,      // packets the server read from its TUN and routed to the session
    clientRead: set<(Handle, seq<byte>)>,  // packets the session's client read from its TUN
    serverWrote: seq<(Handle, seq<byte>)>,
    clientWrote: seq<(Handle, seq<byte>)>,
    serverSent: seq<Parcel>,                // what the server handed to its UDP socket
    clientSent: seq<(Handle, seq<byte>)>)   // what the session's client handed to its own

  ghost function Init(): Sys {
    Sys(Nobody, LIdle, UIdle, TIdle, MRun, true, true, true, seq(MAX_SESSIONS, _ => None),
        [], [], [], {}, {}, [], [], [], [])
  }

  // ---- what the scans of the table find ----

  ghost function Holding(s: Sys, p: SessionData -> bool): (f: Option<Handle>)
    ensures f.Some? ==> f in s.table && f.value < |s.heap| && p(s.heap[f.value].data)
    ensures f.None? ==> forall i :: 0 <= i < |s.table| && s.table[i].Some? && s.table[i].value < |s.heap| ==>
                          !p(s.heap[s.table[i].value].data)
  {
    var flags := seq(|s.table|, i requires 0 <= i < |s.table| =>
      s.table[i].Some? && s.table[i].value < |s.heap| && p(s.heap[s.table[i].value].data));
    assert forall i :: 0 <= i < |s.table| ==>
      flags[i] == (s.table[i].Some? && s.table[i].value < |s.heap| && p(s.heap[s.table[i].value].data));
    if First(flags) < |s.table| then s.table[First(flags)] else None
  }

  ghost function FindSession(s: Sys, id: u64): Option<Handle> {
    Holding(s, (d: SessionData) => d.sessionId == id)
  }

  ghost function RouteTo(s: Sys, octet: byte): Option<Handle> {
    Holding(s, (d: SessionData) => Matches(d, octet))
  }

  ghost function FreeIndex(s: Sys): (f: nat)
    ensures f <= |s.table| && (f < |s.table| ==> s.table[f].None?)
    ensures forall j :: 0 <= j < f ==> s.table[j].Some?
  {
    var flags := seq(|s.table|, i requires 0 <= i < |s.table| => s.table[i].None?);
    assert forall j :: 0 <= j < |s.table| ==> flags[j] == s.table[j].None?;
    First(flags)
  }

  // ---- what the environment may be assumed to do ----

  /** The keys that the server derived for the session, by the side that seals with them. */
  function KeyOf(c: Cell, fromServer: bool): Key {
    if fromServer then c.end.data.crypto.txKey else c.end.data.crypto.rxKey
  }

  ghost predicate HonestAt(w: World, s: Sys, h: Handle) {
    h < |s.heap| && Honest(w, s.heap[h].conn)
  }

  /** The server's ephemeral public key on the connection. */
  function Ephemeral(w: World, k: Connection): Key {
    w.suite.ephPublic(Or(k.draws.ephemeral, Zeros(32)))
  }

  ghost predicate Separate(c: Cell, e: Cell) {
    forall a, b :: KeyOf(c, a) != KeyOf(e, b)
  }

  /** The server never draws the same ephemeral for two completed handshakes. */
  ghost predicate FreshDraws(w: World, s: Sys) {
    forall g, h :: 0 <= g < h < |s.heap| && s.heap[g].end.ok && s.heap[h].end.ok ==>
      Ephemeral(w, s.heap[g].conn) != Ephemeral(w, s.heap[h].conn)
  }

  ghost predicate Apart(w: World, s: Sys, g: nat, h: nat)
    requires g < |s.heap| && h < |s.heap|
  {
    s.heap[g].end.ok && s.heap[h].end.ok && Ephemeral(w, s.heap[g].conn) != Ephemeral(w, s.heap[h].conn)
  }

  ghost predicate HalvesDiffer(w: World, s: Sys) {
    forall h :: 0 <= h < |s.heap| && HonestAt(w, s, h) ==> KeyOf(s.heap[h], true) != KeyOf(s.heap[h], false)
  }

  /**
   * The hash that splits the shared secret does not collide on different server ephemerals, whoever the peers
   * are, nor do its two halves in an honest session.
   */
  ghost predicate NoCollision(w: World, s: Sys) {
    && HalvesDiffer(w, s)
    && (forall g, h :: 0 <= g < |s.heap| && 0 <= h < |s.heap| && g != h && Apart(w, s, g, h) ==>
          Separate(s.heap[g], s.heap[h]))
  }

  /** The same where an honest session is involved. */
  ghost predicate NoHonestCollision(w: World, s: Sys) {
    && HalvesDiffer(w, s)
    && (forall g, h :: 0 <= g < |s.heap| && 0 <= h < |s.heap| && g != h && HonestAt(w, s, h) && Apart(w, s, g, h) ==>
          Separate(s.heap[g], s.heap[h]))
  }

  /** The AEAD opens the datagram under the key only if it was sealed under that key. */
  ghost predicate Authentic(w: World, s: Sys, key: Key, d: seq<byte>) {
    |d| >= TUNNEL_HEADER_SIZE && w.suite.unseal(key, NonceOf(d), d[TUNNEL_HEADER_SIZE..]).Some? ==>
      exists e <- s.log :: e.key == key && e.nonce == NonceOf(d) && e.ct == d[TUNNEL_HEADER_SIZE..]
  }

  /** Nothing is forgotten: sessions keep their connections, counters only rise, and the histories only grow. */
  ghost predicate Grows(s: Sys, s': Sys) {
    && |s.heap| <= |s'.heap| && |s.remotes| <= |s'.remotes|
    && (forall h :: 0 <= h < |s.heap| ==>
          && s'.heap[h].conn == s.heap[h].conn && s'.heap[h].end == s.heap[h].end
          && s.heap[h].tries <= s'.heap[h].tries)
    && (forall h :: 0 <= h < |s.remotes| ==> s.remotes[h].tries <= s'.remotes[h].tries)
    && s.routed <= s'.routed && s.clientRead <= s'.clientRead && s.log <= s'.log
    && s.serverSent <= s'.serverSent && s.clientSent <= s'.clientSent
  }

  ghost predicate SameHistory(s: Sys, s': Sys) {
    && s'.log == s.log && s'.routed == s.routed && s'.clientRead == s.clientRead
    && s'.serverWrote == s.serverWrote && s'.clientWrote == s.clientWrote
    && s'.serverSent == s.serverSent && s'.clientSent == s.clientSent
  }

  // ---- steps ----

  datatype LAct = Accept(k: Connection) | SendSuccess | FinishHandshake | FailHandshake
                | AddLock | AddInsert | AddUnlock | Drop | LQuit
  datatype UAct = Arrive(d: seq<byte>, from: Address) | GetLock | GetScan | GetUnlock
                | PeerLock | PeerStore | PeerUnlock | Decode | Write | UQuit
  datatype TAct = ReadTun(raw: seq<byte>) | RouteLock | RouteScan | Seal | RouteUnlock | Send | TQuit
  datatype MAct = Shutdown | JoinListener | CloseUdp | JoinUdp | JoinTun
                | SweepLock | SweepSlot | SweepUnlock | CloseTun
  datatype CAct = ClientUp(h: Handle) | ClientSend(h: Handle, raw: seq<byte>) | ClientReceive(h: Handle, d: seq<byte>)
                | ClientDown(h: Handle)
  datatype Act = L(l: LAct) | U(u: UAct) | T(t: TAct) | M(m: MAct) | C(c: CAct)

  ghost predicate Sendable(w: World, raw: seq<byte>) {
    |raw| <= MAX_PLAINTEXT && Compressed(w.codec, raw, MAX_PLAINTEXT) != []
  }

  ghost predicate CanL(w: World, s: Sys, a: LAct) {
    match a
    case Accept(_) => s.l.LIdle?
    case SendSuccess => s.l.LHandshake? && s.l.h < |s.heap| && s.heap[s.l.h].end.ok
    case FinishHandshake => s.l.LSucceeding? && s.l.h < |s.heap|
    case FailHandshake => s.l.LHandshake? || s.l.LSucceeding?
    case AddLock => s.l.LReady? && s.lock.Nobody?
    case AddInsert => s.l.LLocked? && s.l.h < |s.heap|
    case AddUnlock => s.l.LUnlock?
    case Drop => s.l.LFail? && s.l.h < |s.heap|
    case LQuit => s.l.LIdle?
  }

  ghost function DoL(w: World, s: Sys, a: LAct): (s': Sys)
    requires CanL(w, s, a)
    ensures s'.u == s.u && s'.t == s.t && s'.m == s.m
    ensures |s'.table| == |s.table|
    ensures !a.Accept? ==> |s'.heap| == |s.heap|
    ensures SameHistory(s, s')
    ensures Grows(s, s')
  {
    match a
    case Accept(k) =>
      s.(l := LHandshake(|s.heap|), heap := s.heap + [Arrived(w, k)],
         remotes := s.remotes + [Remote(Blank(Client), NotYet, 0)])
    case SendSuccess =>
      var c := s.heap[s.l.h];
      s.(l := LSucceeding(s.l.h),
         heap := s.heap[s.l.h := c.(data := c.end.data.(state := WaitAuth), ready := true)])
    case FinishHandshake =>
      var c := s.heap[s.l.h];
      s.(l := LReady(s.l.h), heap := s.heap[s.l.h := c.(data := c.end.data)])
    case FailHandshake => s.(l := LFail(s.l.h))
    case AddLock => s.(l := LLocked(s.l.h), lock := Listener)
    case AddInsert =>
      var f := FreeIndex(s);
      if f < |s.table| then
        var c := s.heap[s.l.h];
        s.(l := LUnlock(s.l.h, true), table := s.table[f := Some(s.l.h)],
           heap := s.heap[s.l.h := c.(data := c.data.(tunnelIpOctet := Octet(f)), life := Published(f))])
      else s.(l := LUnlock(s.l.h, false))
    case AddUnlock => s.(l := if s.l.added then LIdle else LFail(s.l.h), lock := Nobody)
    case Drop => s.(l := LIdle, heap := s.heap[s.l.h := Destroyed(s.heap[s.l.h])])
    case LQuit => s.(l := LExit)
  }

  /** session_create, on a new connection. */
  ghost function Arrived(w: World, k: Connection): (c: Cell)
    ensures c.conn == k && c.end == Outcome(w, k) && c.life.Private? && !c.ready && c.tries == 0
    ensures c.data.crypto.txNonce == 0
  {
    Cell(k, Outcome(w, k), Created(Server, w.server, None, k.id), Private, false, 0)
  }

  /** session_destroy and free. */
  ghost function Destroyed(c: Cell): Cell {
    c.(data := Blank(Server), life := Freed)
  }

  ghost predicate CanU(w: World, s: Sys, a: UAct) {
    match a
    case Arrive(d, from) => s.u.UIdle? && Peeked(d).Some? && |d| <= MAX_DATAGRAM
    case GetLock => s.u.UGot? && s.lock.Nobody?
    case GetScan => s.u.UScan? && Peeked(s.u.d).Some?
    case GetUnlock => s.u.UGetUnlock?
    case PeerLock => s.u.UFound? && s.lock.Nobody?
    case PeerStore => s.u.UStore? && s.u.h < |s.heap|
    case PeerUnlock => s.u.UStoreUnlock?
    case Decode => s.u.UDecode? && s.u.h < |s.heap|
    case Write => s.u.UWrite?
    case UQuit => s.u.UIdle? && !s.udpOpen
  }

  ghost function DoU(w: World, s: Sys, a: UAct): (s': Sys)
    requires CanU(w, s, a)
    ensures s'.l == s.l && s'.t == s.t && s'.m == s.m
    ensures s'.table == s.table
    ensures |s'.heap| == |s.heap| && forall h :: 0 <= h < |s.heap| ==> s'.heap[h].life == s.heap[h].life
    ensures s'.log == s.log
    ensures Grows(s, s')
  {
    match a
    case Arrive(d, from) => s.(u := UGot(d, from))
    case GetLock => s.(u := UScan(s.u.d, s.u.from), lock := Udp)
    case GetScan => s.(u := UGetUnlock(s.u.d, s.u.from, FindSession(s, Peeked(s.u.d).value)))
    case GetUnlock =>
      s.(u := if s.u.found.Some? then UFound(s.u.d, s.u.from, s.u.found.value) else UIdle, lock := Nobody)
    case PeerLock => s.(u := UStore(s.u.d, s.u.from, s.u.h), lock := Udp)
    case PeerStore =>
      var c := s.heap[s.u.h];
      s.(u := UStoreUnlock(s.u.d, s.u.h),
         heap := s.heap[s.u.h := c.(data := c.data.(udp := c.data.udp.(peerAddr := s.u.from, peerKnown := true)))])
    case PeerUnlock => s.(u := UDecode(s.u.d, s.u.h), lock := Nobody)
    case Decode => s.(u := AfterDecode(Inbound(w.suite, w.codec, s.heap[s.u.h].data.crypto.rxKey, s.u.d), s.u.h))
    case Write =>
      s.(u := UIdle, serverWrote := s.serverWrote + if s.tunOpen then [(s.u.h, s.u.packet)] else [])
    case UQuit => s.(u := UExit)
  }

  function AfterDecode(packet: Option<seq<byte>>, h: Handle): UPc {
    if packet.Some? then UWrite(packet.value, h) else UIdle
  }

  ghost predicate CanT(w: World, s: Sys, a: TAct) {
    match a
    case ReadTun(raw) => s.t.TIdle? && |raw| >= 20 && Sendable(w, raw)
    case RouteLock => s.t.TRead? && s.lock.Nobody?
    case RouteScan => s.t.TScan? && |s.t.raw| >= 20
    case Seal => s.t.TSeal? && s.t.h < |s.heap|
    case RouteUnlock => s.t.TUnlock?
    case Send => s.t.TSend?
    case TQuit => s.t.TIdle? && !s.udpOpen
  }

  ghost function DoT(w: World, s: Sys, a: TAct): (s': Sys)
    requires CanT(w, s, a)
    ensures s'.l == s.l && s'.u == s.u && s'.m == s.m
    ensures s'.table == s.table
    ensures |s'.heap| == |s.heap| && forall h :: 0 <= h < |s.heap| ==> s'.heap[h].life == s.heap[h].life
    ensures !a.Seal? ==> s'.log == s.log
    ensures Grows(s, s')
  {
    match a
    case ReadTun(raw) => s.(t := TRead(raw))
    case RouteLock => s.(t := TScan(s.t.raw), lock := Tun)
    case RouteScan =>
      (match RouteTo(s, s.t.raw[19])
       case None => s.(t := TUnlock(None))
       case Some(h) => s.(t := TSeal(s.t.raw, h)))
    case Seal =>
      var c := s.heap[s.t.h];
      var sealed := Outbound(w.suite, w.codec, c.data.crypto.txKey, c.data.sessionId, c.data.crypto.txNonce, s.t.raw);
      s.(t := TUnlock(if sealed.Some? then Some(Parcel(s.t.h, sealed.value, c.data.udp.peerAddr)) else None),
         heap := s.heap[s.t.h := c.(data := Counted(c.data), tries := c.tries + 1)],
         log := s.log + Sealed(s.t.h, true, c.tries, s.t.raw, c.data.crypto, sealed),
         routed := s.routed + {(s.t.h, s.t.raw)})
    case RouteUnlock =>
      s.(t := if s.t.parcel.Some? then TSend(s.t.parcel.value) else TIdle, lock := Nobody)
    case Send => s.(t := TIdle, serverSent := s.serverSent + if s.udpOpen then [s.t.out] else [])
    case TQuit => s.(t := TExit)
  }

  /** tx_nonce++. */
  ghost function Counted(d: SessionData): SessionData {
    d.(crypto := d.crypto.(txNonce := (d.crypto.txNonce + 1) % TWO_TO_THE_64))
  }

  ghost function Sealed(h: Handle, fromServer: bool, k: nat, raw: seq<byte>, ctx: CryptoContext, d: Option<seq<byte>>)
    : seq<Entry>
  {
    if d.Some? && |d.value| >= TUNNEL_HEADER_SIZE
    then [Entry(h, fromServer, k, raw, ctx.txKey, BuildNonce(ctx.txNonce), d.value[TUNNEL_HEADER_SIZE..])] else []
  }

  ghost predicate CanM(s: Sys, a: MAct) {
    match a
    case Shutdown => s.m.MRun?
    case JoinListener => s.m.MJoinListener? && s.l.LExit?
    case CloseUdp => s.m.MCloseUdp?
    case JoinUdp => s.m.MJoinUdp? && s.u.UExit?
    case JoinTun => s.m.MJoinTun? && s.t.TExit?
    case SweepLock => s.m.MLock? && s.lock.Nobody?
    case SweepSlot => s.m.MSweep?
    case SweepUnlock => s.m.MUnlock?
    case CloseTun => s.m.MCloseTun?
  }

  ghost function DoM(s: Sys, a: MAct): (s': Sys)
    requires CanM(s, a)
    ensures s'.l == s.l && s'.u == s.u && s'.t == s.t
    ensures |s'.table| == |s.table|
    ensures |s'.heap| == |s.heap|
    ensures SameHistory(s, s')
    ensures Grows(s, s')
  {
    match a
    case Shutdown => s.(m := MJoinListener, running := false)
    case JoinListener => s.(m := MCloseUdp)
    case CloseUdp => s.(m := MJoinUdp, udpOpen := false)
    case JoinUdp => s.(m := MJoinTun)
    case JoinTun => s.(m := MLock)
    case SweepLock => s.(m := MSweep(0), lock := MainThread)
    case SweepSlot =>
      if s.m.i >= |s.table| then s.(m := MUnlock)
      else if s.table[s.m.i].None? || s.table[s.m.i].value >= |s.heap| then s.(m := MSweep(s.m.i + 1))
      else
        var h := s.table[s.m.i].value;
        s.(m := MSweep(s.m.i + 1), table := s.table[s.m.i := None], heap := s.heap[h := Destroyed(s.heap[h])])
    case SweepUnlock => s.(m := MCloseTun, lock := Nobody)
    case CloseTun => s.(m := MDone, tunOpen := false)
  }

  ghost predicate CanC(w: World, s: Sys, a: CAct) {
    a.h < |s.heap| && a.h < |s.remotes| &&
    match a
    case ClientUp(h) => s.remotes[h].status.NotYet? && s.heap[h].ready && Honest(w, s.heap[h].conn)
    case ClientSend(h, raw) => s.remotes[h].status.Up? && |raw| > 0 && Sendable(w, raw)
    case ClientReceive(h, d) => s.remotes[h].status.Up? && |d| <= MAX_DATAGRAM
    case ClientDown(h) => s.remotes[h].status.Up?
  }

  ghost function DoC(w: World, s: Sys, a: CAct): (s': Sys)
    requires CanC(w, s, a)
    ensures s'.l == s.l && s'.u == s.u && s'.t == s.t && s'.m == s.m
    ensures s'.table == s.table
    ensures s'.heap == s.heap && s'.lock == s.lock
    ensures !a.ClientSend? ==> s'.log == s.log
    ensures Grows(s, s')
  {
    var c := s.remotes[a.h];
    match a
    case ClientUp(h) =>
      var x := s.heap[h].conn.client.value;
      s.(remotes := s.remotes[h := c.(data := ClientFinal(x), status := Up)])
    case ClientSend(h, raw) =>
      var sealed := Outbound(w.suite, w.codec, c.data.crypto.txKey, c.data.sessionId, c.data.crypto.txNonce, raw);
      s.(remotes := s.remotes[h := c.(data := Counted(c.data), tries := c.tries + 1)],
         log := s.log + Sealed(h, false, c.tries, raw, c.data.crypto, sealed),
         clientRead := s.clientRead + {(h, raw)},
         clientSent := s.clientSent + if sealed.Some? then [(h, sealed.value)] else [])
    case ClientReceive(h, d) =>
      (match Inbound(w.suite, w.codec, c.data.crypto.rxKey, d)
       case None => s
       case Some(p) => s.(clientWrote := s.clientWrote + [(h, p)]))
    case ClientDown(h) => s.(remotes := s.remotes[h := c.(data := Blank(Client), status := Down)])
  }

  ghost predicate Can(w: World, s: Sys, a: Act) {
    match a
    case L(b) => CanL(w, s, b)
    case U(b) => CanU(w, s, b)
    case T(b) => CanT(w, s, b)
    case M(b) => CanM(s, b)
    case C(b) => CanC(w, s, b)
  }

  ghost function Do(w: World, s: Sys, a: Act): Sys
    requires Can(w, s, a)
  {
    match a
    case L(b) => DoL(w, s, b)
    case U(b) => DoU(w, s, b)
    case T(b) => DoT(w, s, b)
    case M(b) => DoM(s, b)
    case C(b) => DoC(w, s, b)
  }

  ghost function Run(w: World, s: Sys, acts: seq<Act>): Option<Sys>
    decreases |acts|
  {
    if acts == [] then Some(s)
    else if Can(w, s, acts[0]) then Run(w, Do(w, s, acts[0]), acts[1..])
    else None
  }

  // ---- runs without forgery ----

  /** If the step opens a datagram for an honest session, the datagram is not a forgery under that session's key. */
  ghost predicate Unforged(w: World, s: Sys, a: Act) {
    match a
    case U(Decode) =>
      s.u.UDecode? && HonestAt(w, s, s.u.h) ==> Authentic(w, s, s.heap[s.u.h].data.crypto.rxKey, s.u.d)
    case C(ClientReceive(h, d)) => h < |s.remotes| ==> Authentic(w, s, s.remotes[h].data.crypto.rxKey, d)
    case _ => true
  }

  ghost predicate UnforgedRun(w: World, s: Sys, acts: seq<Act>)
    requires Run(w, s, acts).Some?
    decreases |acts|
  {
    acts == [] || (Unforged(w, s, acts[0]) && UnforgedRun(w, Do(w, s, acts[0]), acts[1..]))
  }
}
