/**
 * The client's threads (src/commands/client_env.c): connecting under the pinned server key, the two halves
 * of its data path, and the receiver that ends the session.
 */
module ClientEnv {
  import opened Bytes
  import opened Crypto
  import opened Packet
  import opened Handshake
  import opened Session
  import opened Tunnel
  import Layout

  /** client_listener, up to the handshake: load the pin, create the session, connect. */
  method Listen(suite: Suite, draws: Draws, socket: Socket, identity: Identity, id: u64,
                store: PinStore, loadIo: bool, saveIo: bool) returns (ok: bool, session: Session)
    modifies socket, store
    ensures fresh(session) && session.socket == socket
    ensures var a := Attempt(draws, id, old(socket.inbox), loadIo, saveIo);
            var r := Attempted(suite, identity, old(store.file), a);
            && session.Follows(r, ok, old(socket.inbox), old(socket.outbox))
            && (ok || socket.reliable ==> store.file == FileAfter(suite, identity, old(store.file), a))
            && (store.file == old(store.file) || store.file == FileAfter(suite, identity, old(store.file), a))
    ensures Loaded(old(store.file), loadIo).Some? ==> store.file == old(store.file)
  {
    var trusted := store.Load(loadIo);
    session := new Session(Client, socket, identity, trusted, id);
    ok := session.ClientConnect(suite, draws, store, saveIo);
  }

  /** One turn of client_tun_sender on a TUN packet of `received` bytes: the datagram sent, if any. */
  method SendPacket(client: Session, suite: Suite, codec: Codec, raw: array<byte>, received: int,
                    compressed: array<byte>, encoded: array<byte>) returns (sent: Option<seq<byte>>)
    requires suite.SealOpens()
    requires raw.Length == MAX_PLAINTEXT && received <= MAX_PLAINTEXT
    requires compressed.Length == MAX_PLAINTEXT + COMPRESS_HEADER_SIZE && encoded.Length == MAX_DATAGRAM
    requires raw != compressed && compressed != encoded && raw != encoded
    modifies compressed, encoded, client`crypto
    ensures received <= 0 || Compressed(codec, raw[..received], MAX_PLAINTEXT) == [] ==>
              sent == None && client.crypto == old(client.crypto)
    ensures received > 0 && Compressed(codec, raw[..received], MAX_PLAINTEXT) != [] ==>
              var c := old(client.crypto);
              && client.crypto == c.(txNonce := (c.txNonce + 1) % TWO_TO_THE_64)
              && sent == Outbound(suite, codec, c.txKey, client.sessionId, c.txNonce, raw[..received])
  {
    if received <= 0 {
      return None;
    }
    var compressedLen := Compress(codec, raw, received, compressed, MAX_PLAINTEXT);
    if compressedLen == 0 {
      return None;
    }
    var counter := client.crypto.txNonce;
    client.crypto := client.crypto.(txNonce := (counter + 1) % TWO_TO_THE_64);
    var n := Encode(suite, client.crypto.txKey, client.sessionId, counter, compressed, compressedLen, encoded);
    if n.None? {
      return None;
    }
    return Some(encoded[..n.value]);
  }

  /** One turn of client_udp_receiver on a datagram of `received` bytes: the packet written to the TUN, if any. */
  method ReceiveDatagram(client: Session, suite: Suite, codec: Codec, tunOpen: bool, buffer: array<byte>, received: int,
                         plaintext: array<byte>, decompressed: array<byte>) returns (written: Option<seq<byte>>)
    requires suite.SealOpens()
    requires buffer.Length == MAX_DATAGRAM && received <= MAX_DATAGRAM
    requires plaintext.Length == MAX_DATAGRAM && decompressed.Length == MAX_PLAINTEXT
    requires buffer != plaintext && plaintext != decompressed && buffer != decompressed
    modifies plaintext, decompressed
    ensures written == if received > 0 && tunOpen
                       then Inbound(suite, codec, client.crypto.rxKey, buffer[..received]) else None
  {
    if received <= 0 {
      return None;
    }
    written := Open(suite, codec, client.crypto.rxKey, buffer, received, plaintext, decompressed);
    if !tunOpen {
      written := None;
    }
  }

  // ---- the end of the session ----

  /** What is left of the stream after its first DISCONNECT frame; None if the stream breaks off before one. */
  function Drained(s: seq<byte>): Option<seq<byte>>
    decreases |s|
  {
    match ParseFrame(s)
    case Parsed(k, n) => if k.typ == DISCONNECT then Some(s[n..]) else Drained(s[n..])
    case _ => None
  }

  /** client_receiver: every way out of its loop leaves the session destroyed. */
  method Receive(client: Session)
    requires client.state == Established
    modifies client, client.socket`inbox
    ensures client.View() == Blank(client.role) && client.state == Disconnected
    ensures client.socket.reliable && Drained(old(client.socket.inbox)).Some? ==>
              Some(client.socket.inbox) == Drained(old(client.socket.inbox))
  {
    var going := true;
    while going && client.state == Established
      invariant client.state == Established
      invariant client.socket.reliable && Drained(old(client.socket.inbox)).Some? ==>
                  if going then Drained(client.socket.inbox) == Drained(old(client.socket.inbox))
                  else Some(client.socket.inbox) == Drained(old(client.socket.inbox))
      decreases going, |client.socket.inbox|
    {
      var ok, packet := PacketReceive(client.socket);
      if !ok || packet.typ == DISCONNECT {
        going := false;
      }
    }
    if client.state == Established {
      client.Destroy();
    }
  }

  /** Any other packets before the DISCONNECT are read and dropped, and nothing behind it is touched. */
  lemma {:induction false} DrainsThrough(packets: seq<Packet>, pads: seq<Padding>, pad: Padding, rest: seq<byte>)
    requires |packets| == |pads| && forall p <- packets :: p.Acceptable() && p.typ != 11
    ensures Drained(Stream(packets, pads) + FrameBytes(Packet(1, 11, []), pad) + rest) == Some(rest)
    decreases |packets|
  {
    var last := FrameBytes(Packet(1, 11, []), pad);
    if packets == [] {
      assert Stream(packets, pads) + last + rest == last + rest;
      DrainsOne(Packet(1, 11, []), pad, rest);
    } else {
      var tail := Stream(packets[1..], pads[1..]) + last + rest;
      assert packets[0] in packets;
      DrainsOne(packets[0], pads[0], tail);
      DrainsThrough(packets[1..], pads[1..], pad, rest);
      Regroup(FrameBytes(packets[0], pads[0]), Stream(packets[1..], pads[1..]), last, rest);
    }
  }

  lemma Regroup(a: seq<byte>, b: seq<byte>, c: seq<byte>, d: seq<byte>)
    ensures (a + b) + c + d == a + (b + c + d)
  {
  }

  lemma DrainsOne(k: Packet, pad: Padding, rest: seq<byte>)
    requires k.Acceptable()
    ensures Drained(FrameBytes(k, pad) + rest) == if k.typ == 11 then Some(rest) else Drained(rest)
  {
    var f := FrameBytes(k, pad);
    FrameReadsBack(k, pad, rest);
    assert (f + rest)[|f|..] == rest;
  }

  /** A stream that holds no DISCONNECT, or not the whole of one, is never drained. */
  lemma {:induction false} DrainedHasNotice(s: seq<byte>)
    requires Drained(s).Some?
    ensures exists p <- ReceiveAll(s) :: p.typ == 11
    decreases |s|
  {
    var r := ParseFrame(s);
    assert r.packet in ReceiveAll(s);
    if r.packet.typ != 11 {
      DrainedHasNotice(s[r.size..]);
      var p :| p in ReceiveAll(s[r.size..]) && p.typ == 11;
      assert p in ReceiveAll(s);
    }
  }

  // ---- the pinned server key over many attempts ----

  /** One connection attempt: its draws, the bytes it is sent, and whether the pin file can be read and written. */
  datatype Attempt = Attempt(draws: Draws, id: u64, stream: seq<byte>, loadIo: bool, saveIo: bool)

  function Attempted(suite: Suite, identity: Identity, file: Option<seq<byte>>, a: Attempt): Result {
    ClientRun(suite, a.draws, Created(Client, identity, Loaded(file, a.loadIo), a.id), a.stream)
  }

  function FileAfter(suite: Suite, identity: Identity, file: Option<seq<byte>>, a: Attempt): Option<seq<byte>> {
    Saved(file, Attempted(suite, identity, file, a).pin, a.saveIo)
  }

  /** The key on disk, if the file holds a full one. */
  function Pin(file: Option<seq<byte>>): Option<Key> {
    Loaded(file, true)
  }

  /** A key is saved exactly when none was loaded and a challenge of the right size arrives. */
  lemma SavesExactly(suite: Suite, identity: Identity, file: Option<seq<byte>>, a: Attempt)
    ensures var r := Attempted(suite, identity, file, a);
            r.pin == if Loaded(file, a.loadIo).Some? then None else Offered(a.stream)
  {
    var p1 := ParseFrame(a.stream);
    if p1.Parsed? {
      var d := Created(Client, identity, Loaded(file, a.loadIo), a.id);
      AuthenticateSaves(suite, a.draws, d, a.stream[p1.size..]);
    }
  }

  lemma AuthenticateSaves(suite: Suite, draws: Draws, d: SessionData, s: seq<byte>)
    ensures var p := ParseFrame(s);
            ClientAuthenticate(suite, draws, d, s).pin ==
              if d.hasTrustedPeerKey || !p.Parsed? || p.packet.typ != AUTH_REQUEST then None
              else if |p.packet.payload| != CHALLENGE_SIZE then None
              else Some(ReadChallenge(p.packet.payload).publicKey)
  {
  }

  /** The server key in the challenge of a stream. */
  function Offered(s: seq<byte>): Option<Key> {
    var p1 := ParseFrame(s);
    if !p1.Parsed? || p1.packet.typ != SERVER_HELLO then None
    else
      var p2 := ParseFrame(s[p1.size..]);
      if !p2.Parsed? || p2.packet.typ != AUTH_REQUEST || |p2.packet.payload| != CHALLENGE_SIZE then None
      else Some(ReadChallenge(p2.packet.payload).publicKey)
  }

  /** The offered key is at byte 64 of the challenge's payload, behind a SERVER_HELLO of whatever size. */
  lemma OfferedExactly(s: seq<byte>, key: Key)
    ensures Offered(s) == Some(key) <==>
              |s| >= 4 &&
              var n := Layout.Length(s);
              && n <= 0x100_0000 && Layout.FrameAt(s, 0, 1, n) && Layout.FrameAt(s, 8 + n, 2, 144)
              && s[8 + n..][72..104] == key
  {
    Layout.ParsesExactly(s);
    if ParseFrame(s).Parsed? {
      var n := Layout.Length(s);
      ChallengeAtStart(s[8 + n..]);
      Layout.FrameInRest(s, 8 + n, 2, 144);
    }
  }

  lemma ChallengeAtStart(s: seq<byte>)
    ensures var p := ParseFrame(s);
            p.Parsed? && p.packet.typ == AUTH_REQUEST && |p.packet.payload| == CHALLENGE_SIZE
            <==> Layout.FrameAt(s, 0, 2, 144)
    ensures Layout.FrameAt(s, 0, 2, 144) ==> ReadChallenge(ParseFrame(s).packet.payload).publicKey == s[72..104]
  {
    Layout.ParsesExactly(s);
    if |s| >= 8 {
      assert s[0..4][0] == s[0] && s[0..4][1] == s[1] && s[0..4][2] == s[2] && s[0..4][3] == s[3];
    }
  }

  /** A session that was created with the pinned key and reaches ESTABLISHED has the pinned key as its peer's. */
  lemma EstablishedUnderPin(suite: Suite, identity: Identity, file: Option<seq<byte>>, a: Attempt)
    requires a.loadIo && Pin(file).Some?
    ensures var r := Attempted(suite, identity, file, a);
            r.ok ==> r.data.state == Established && Some(r.data.crypto.peerPublic) == Pin(file)
  {
  }

  /** A challenge under the given key, from anyone. */
  function ForeignStream(key: Key): seq<byte> {
    FrameBytes(Packet(CURRENT_VERSION, SERVER_HELLO, []), [0, 0]) +
    FrameBytes(Packet(CURRENT_VERSION, AUTH_REQUEST,
                      ChallengeBytes(Challenge(Zeros(64), key, Zeros(32), Zeros(16)))), [0, 0])
  }

  lemma ForeignIsOffered(key: Key)
    ensures Offered(ForeignStream(key)) == Some(key)
  {
    var k1 := Packet(CURRENT_VERSION, SERVER_HELLO, []);
    var c := Challenge(Zeros(64), key, Zeros(32), Zeros(16));
    var k2 := Packet(CURRENT_VERSION, AUTH_REQUEST, ChallengeBytes(c));
    var f1, f2 := FrameBytes(k1, [0, 0]), FrameBytes(k2, [0, 0]);
    FrameReadsBack(k1, [0, 0], f2);
    assert (f1 + f2)[|f1|..] == f2 == f2 + [];
    FrameReadsBack(k2, [0, 0], []);
    StructsReadBack(c, Response(Zeros(64), Zeros(32), Zeros(32)), Success(Zeros(32), 0));
  }

  /**
   * A stored key survives an attempt whatever the peer sends exactly when the attempt could read the file or
   * cannot write it. If the read fails and the write does not, any challenge replaces the key, because a pin
   * that could not be loaded is taken for one that was never stored.
   */
  lemma PinSurvivesExactly(suite: Suite, identity: Identity, file: Option<seq<byte>>, draws: Draws, id: u64,
                           loadIo: bool, saveIo: bool)
    requires Pin(file).Some?
    ensures (forall s :: Pin(FileAfter(suite, identity, file, Attempt(draws, id, s, loadIo, saveIo))) == Pin(file))
            <==> loadIo || !saveIo
  {
    if loadIo || !saveIo {
      forall s ensures FileAfter(suite, identity, file, Attempt(draws, id, s, loadIo, saveIo)) == file {
        SavesExactly(suite, identity, file, Attempt(draws, id, s, loadIo, saveIo));
      }
    } else {
      var other: Key := if Pin(file).value == Zeros(32) then [1] + Zeros(31) else Zeros(32);
      assert ([1] + Zeros(31))[0] != Zeros(32)[0];
      OfferedIsPinned(suite, identity, file, Attempt(draws, id, ForeignStream(other), loadIo, saveIo), other);
    }
  }

  /** Any key replaces a pin that could not be read. */
  lemma OfferedIsPinned(suite: Suite, identity: Identity, file: Option<seq<byte>>, a: Attempt, key: Key)
    requires !a.loadIo && a.saveIo && a.stream == ForeignStream(key)
    ensures Pin(FileAfter(suite, identity, file, a)) == Some(key)
  {
    ForeignIsOffered(key);
    SavesExactly(suite, identity, file, a);
    assert key[..32] == key;
  }

  function FileAfterAll(suite: Suite, identity: Identity, file: Option<seq<byte>>, attempts: seq<Attempt>)
    : Option<seq<byte>>
    decreases |attempts|
  {
    if attempts == [] then file
    else FileAfterAll(suite, identity, FileAfter(suite, identity, file, attempts[0]), attempts[1..])
  }

  /**
   * Over any attempts, successful or not, none of which fails to read a file that it can write: a stored key
   * never changes, and whoever reads it and reaches ESTABLISHED has it as the peer's key.
   */
  lemma {:induction false} PinIsStable(suite: Suite, identity: Identity, file: Option<seq<byte>>,
                                       attempts: seq<Attempt>, k: nat)
    requires Pin(file).Some? && k <= |attempts|
    requires forall a <- attempts :: a.loadIo || !a.saveIo
    ensures var now := FileAfterAll(suite, identity, file, attempts[..k]);
            && Pin(now) == Pin(file)
            && (k < |attempts| && attempts[k].loadIo ==>
                  var r := Attempted(suite, identity, now, attempts[k]);
                  r.ok ==> Some(r.data.crypto.peerPublic) == Pin(file))
    decreases k
  {
    if k == 0 {
      if attempts != [] && attempts[0].loadIo {
        EstablishedUnderPin(suite, identity, file, attempts[0]);
      }
    } else {
      var a := attempts[0];
      PinSurvivesExactly(suite, identity, file, a.draws, a.id, a.loadIo, a.saveIo);
      var next := FileAfter(suite, identity, file, Attempt(a.draws, a.id, a.stream, a.loadIo, a.saveIo));
      assert Pin(next) == Pin(file);
      PinIsStable(suite, identity, next, attempts[1..], k - 1);
      assert attempts[..k][1..] == attempts[1..][..k - 1];
    }
  }
}
