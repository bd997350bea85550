/** The control connection from end to end: the two whole-stream functions against each other, and its orderly end. */
module Shutdown {
  import opened Bytes
  import opened Crypto
  import opened Packet
  import opened Handshake
  import opened Protocol
  import opened Session
  import opened SessionManager
  import SessionTable
  import ClientEnv
  import Layout

  lemma NextFrame(k: Packet, pad: Padding, rest: seq<byte>, s: seq<byte>)
    requires k.Acceptable() && s == FrameBytes(k, pad) + rest
    ensures var r := ParseFrame(s); r.Parsed? && r.packet == k && s[r.size..] == rest
  {
    FrameReadsBack(k, pad, rest);
  }

  /** On what an honest client writes, session_server_connect succeeds and writes what the client reads. */
  lemma ServerOnClientStream(x: Setup, more: seq<byte>)
    requires x.Honest()
    ensures ServerRun(x.suite, x.serverDraws, ServerFresh(x), Total(x, Client) + more)
            == Result(true, ServerFinal(x), Total(x, Server), more, None)
  {
    var s := Total(x, Client) + more;
    assert s == F1(x) + (F4(x) + more);
    NextFrame(HelloPacket(Client), x.clientDraws.pad1, F4(x) + more, s);
    NextFrame(ResponsePacket(x), x.clientDraws.pad2, more, F4(x) + more);
    ServerAnswers(x, F4(x) + more, more);
    assert F2(x) + (F3(x) + F5(x)) == Total(x, Server);
  }

  lemma ServerAnswers(x: Setup, s: seq<byte>, rest: seq<byte>)
    requires x.Honest()
    requires var r := ParseFrame(s); r.Parsed? && r.packet == ResponsePacket(x) && s[r.size..] == rest
    ensures ServerAuthenticate(x.suite, x.serverDraws, ServerFresh(x).(state := WaitAuth), s)
            == Result(true, ServerFinal(x), F3(x) + F5(x), rest, None)
  {
    ResponseVerifies(x);
    var (d, request) := PrepareChallenge(x.suite, x.serverDraws, ServerFresh(x).(state := WaitAuth));
    assert d == ServerAsked(x) && request == Some(RequestPacket(x));
    assert ServerAsked(x).(state := WaitAuth) == ServerAsked(x);
    assert SuccessPacket(ServerKeyed(x)) == FinalPacket(x);
  }

  /** On what an honest server writes, session_client_connect succeeds, and leaves whatever follows unread. */
  lemma ClientOnServerStream(x: Setup, more: seq<byte>)
    requires x.Honest()
    ensures ClientRun(x.suite, x.clientDraws, ClientFresh(x), Total(x, Server) + more)
            == Result(true, ClientFinal(x), Total(x, Client), more,
                      if x.trusted.None? then Some(x.server.public) else None)
  {
    var s := Total(x, Server) + more;
    var s2, s3 := F3(x) + (F5(x) + more), F5(x) + more;
    assert s == F2(x) + s2;
    NextFrame(HelloPacket(Server), x.serverDraws.pad1, s2, s);
    NextFrame(RequestPacket(x), x.serverDraws.pad2, s3, s2);
    ClientReplies(x, s3, more);
  }

  lemma ClientReplies(x: Setup, s: seq<byte>, rest: seq<byte>)
    requires x.Honest() && s == F5(x) + rest
    ensures ClientReply(x.suite, x.clientDraws, ClientFresh(x), RequestPacket(x), s)
            == Result(true, ClientFinal(x), F4(x), rest, if x.trusted.None? then Some(x.server.public) else None)
  {
    RequestIsAnswered(x);
    ClientFinishes(x, s, rest);
  }

  lemma ClientFinishes(x: Setup, s: seq<byte>, rest: seq<byte>)
    requires s == F5(x) + rest
    ensures ClientFinish(ClientKeyed(x).(state := WaitAuth), s) == Result(true, ClientFinal(x), [], rest, None)
  {
    NextFrame(FinalPacket(x), x.serverDraws.pad3, rest, s);
    SuccessIsAccepted(x);
  }

  /** The frame that session_manager_disconnect_all sends on an established session. */
  function Notice(x: Setup, pad: Padding): seq<byte> {
    FrameBytes(Packet(ServerFinal(x).protocolVersion, DISCONNECT, []), pad)
  }

  /** Eight bytes, of type 11. */
  lemma NoticeLayout(x: Setup, pad: Padding)
    ensures Notice(x, pad) == [0, 0, 0, 0, 1, 11, pad[0], pad[1]]
  {
    Layout.NoticeBytes(1, pad);
  }

  /**
   * When the server's stream ends with the one DISCONNECT frame that shutdown appends after AUTH_SUCCESS, the
   * client that reads it establishes, then drains the stream to its last byte and is left disconnected.
   */
  lemma OrderlyShutdown(x: Setup, pad: Padding)
    requires x.Honest()
    ensures var r := ClientRun(x.suite, x.clientDraws, ClientFresh(x), Total(x, Server) + Notice(x, pad));
            r.ok && r.data.state == Established && ClientEnv.Drained(r.rest) == Some([])
  {
    ClientOnServerStream(x, Notice(x, pad));
    NoticeDrains(x, pad);
  }

  lemma NoticeDrains(x: Setup, pad: Padding)
    ensures ClientEnv.Drained(Notice(x, pad)) == Some([])
  {
    var k := Packet(ServerFinal(x).protocolVersion, DISCONNECT, []);
    assert Notice(x, pad) == FrameBytes(k, pad) + [];
    NextFrame(k, pad, [], Notice(x, pad));
  }

  /** The server accepts an honest client on a socket of its own. */
  method Serve(x: Setup, manager: SessionManager, socket: Socket) returns (session: Session)
    requires x.Honest() && x.server == manager.identity
    requires manager.Valid() && manager.OwnSockets() && manager.sessionCount < SessionTable.MAX_SESSIONS
    requires socket !in manager.Sockets() && socket.reliable && socket.inbox == Total(x, Client) && socket.outbox == []
    modifies manager`sessionCount, manager.sessions, socket
    ensures manager.Valid() && manager.OwnSockets() && session in manager.Entries() && session.socket == socket
    ensures manager.Sockets() == old(manager.Sockets()) + {socket} && fresh(session)
    ensures manager.Entries() == old(manager.Entries()) + {session}
    ensures session.protocolVersion == ServerFinal(x).protocolVersion
    ensures socket.inbox == [] && socket.outbox == Total(x, Server)
  {
    Accepted(x, manager.identity, socket.inbox);
    session := manager.Connect(x.suite, x.serverDraws, socket, x.serverId);
  }

  lemma Accepted(x: Setup, identity: Identity, s: seq<byte>)
    requires x.Honest() && x.server == identity && s == Total(x, Client)
    ensures ServerRun(x.suite, x.serverDraws, Created(Server, identity, None, x.serverId), s)
            == Result(true, ServerFinal(x), Total(x, Server), [], None)
  {
    ServerOnClientStream(x, []);
    assert Total(x, Client) + [] == s;
  }

  /** At shutdown the client of a live session is sent one DISCONNECT frame. */
  method ShutDown(manager: SessionManager, session: Session, pads: seq<Padding>) returns (ghost pad: Padding)
    requires manager.Valid() && manager.OwnSockets() && |pads| == SessionTable.MAX_SESSIONS
    requires session in manager.Entries() && session.socket.reliable
    modifies manager`sessionCount, manager`tunOpen, manager.sessions, manager.Entries(), manager.Sockets()
    ensures manager.sessions.Length == SessionTable.MAX_SESSIONS && !manager.tunOpen
    ensures forall i :: 0 <= i < SessionTable.MAX_SESSIONS ==> manager.sessions[i] == null
    ensures session.socket.outbox == old(session.socket.outbox)
              + [0, 0, 0, 0, old(session.protocolVersion), 11, pad[0], pad[1]]
  {
    ghost var f :| 0 <= f < manager.sessions.Length && manager.sessions[f] == session;
    pad := pads[f];
    Layout.NoticeBytes(session.protocolVersion, pad);
    manager.DisconnectAll(pads);
  }

  /** The client's part: it establishes its session and drains its stream. */
  method ConnectAndDrain(x: Setup, ghost pad: Padding, socket: Socket, store: PinStore, saveIo: bool)
    returns (client: Session)
    requires x.Honest() && Loaded(store.file, true) == x.trusted
    requires socket.reliable && socket.inbox == Total(x, Server) + Notice(x, pad)
    modifies socket, store
    ensures client.state == Disconnected && client.View() == Blank(Client) && client.socket == socket
    ensures socket.inbox == [] && socket.outbox == old(socket.outbox) + Total(x, Client)
  {
    ClientSees(x, store.file, pad);
    var ok;
    ok, client := ClientEnv.Listen(x.suite, x.clientDraws, socket, x.client, x.clientId, store, true, saveIo);
    assert ok && client.role == Client;
    Drain(client);
  }

  /** A client whose stream holds one last DISCONNECT frame. */
  method Drain(client: Session)
    requires client.state == Established && client.socket.reliable
    requires ClientEnv.Drained(client.socket.inbox) == Some([])
    modifies client, client.socket`inbox
    ensures client.View() == Blank(client.role) && client.state == Disconnected && client.socket.inbox == []
  {
    ClientEnv.Receive(client);
  }

  lemma ClientSees(x: Setup, file: Option<seq<byte>>, pad: Padding)
    requires x.Honest() && Loaded(file, true) == x.trusted
    ensures ClientRun(x.suite, x.clientDraws, Created(Client, x.client, Loaded(file, true), x.clientId),
                      Total(x, Server) + Notice(x, pad))
            == Result(true, ClientFinal(x), Total(x, Client), Notice(x, pad),
                      if x.trusted.None? then Some(x.server.public) else None)
    ensures ClientEnv.Drained(Notice(x, pad)) == Some([])
  {
    OrderlyShutdown(x, pad);
    ClientOnServerStream(x, Notice(x, pad));
  }

  /**
   * A connection from end to end: an honest client's session is accepted, the server shuts down, and the client,
   * on exactly the bytes that the server wrote, has been established and ends DISCONNECTED with nothing unread.
   */
  method Lifecycle(x: Setup, manager: SessionManager, pads: seq<Padding>, store: PinStore, saveIo: bool)
    returns (client: Session)
    requires x.Honest() && x.server == manager.identity && Loaded(store.file, true) == x.trusted
    requires manager.Valid() && manager.OwnSockets() && |pads| == SessionTable.MAX_SESSIONS
    requires manager.sessionCount < SessionTable.MAX_SESSIONS
    modifies manager`sessionCount, manager`tunOpen, manager.sessions, manager.Entries(), manager.Sockets(), store
    ensures manager.sessions.Length == SessionTable.MAX_SESSIONS && !manager.tunOpen
    ensures forall i :: 0 <= i < SessionTable.MAX_SESSIONS ==> manager.sessions[i] == null
    ensures client.state == Disconnected && client.socket.inbox == [] && client.socket.outbox == Total(x, Client)
  {
    var serverEnd := new Socket(Total(x, Client), true);
    var session := Serve(x, manager, serverEnd);
    ghost var pad := ShutDown(manager, session, pads);
    NoticeLayout(x, pad);
    var clientEnd := new Socket(serverEnd.outbox, true);
    client := ConnectAndDrain(x, pad, clientEnd, store, saveIo);
  }
}
