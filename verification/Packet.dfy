/** Stream frames (src/shared/packet.c): the wire format, and its loops over partial send and recv. */
module Packet {
  import opened Bytes

  const CURRENT_VERSION: byte := 1
  const MAX_PACKET_SIZE: nat := 0x100_0000
  const HEADER_SIZE: nat := 8

  const CLIENT_HELLO: byte := 0
  const SERVER_HELLO: byte := 1
  const AUTH_REQUEST: byte := 2
  const AUTH_RESPONSE: byte := 3
  const AUTH_SUCCESS: byte := 4
  const DISCONNECT: byte := 11
  const PACKET_ERROR: byte := 12

  /** The two bytes the compiler adds to PACKET_HEADER: whatever is there is sent, and never read. */
  type Padding = s: seq<byte> | |s| == 2 witness [0, 0]

  datatype Packet = Packet(version: byte, typ: byte, payload: seq<byte>) {
    /** What a receiver accepts. */
    predicate Acceptable() {
      version == CURRENT_VERSION && typ <= PACKET_ERROR && |payload| <= MAX_PACKET_SIZE
    }
  }

  // ---- the wire format ----

  function HeaderBytes(p: Packet, pad: Padding): (h: seq<byte>)
    ensures |h| == HEADER_SIZE
  {
    BigEndian(|p.payload|, 4) + [p.version, p.typ] + pad
  }

  function FrameBytes(p: Packet, pad: Padding): seq<byte> {
    HeaderBytes(p, pad) + p.payload
  }

  datatype Parse =
    | Truncated
    | Rejected
    | Parsed(packet: Packet, size: nat)

  function DeclaredLength(s: seq<byte>): nat
    requires |s| >= HEADER_SIZE
  {
    FromBigEndian(s[..4])
  }

  predicate HeaderAcceptable(s: seq<byte>)
    requires |s| >= HEADER_SIZE
  {
    s[4] == CURRENT_VERSION && s[5] <= PACKET_ERROR && DeclaredLength(s) <= MAX_PACKET_SIZE
  }

  /** The first frame of a stream. */
  function ParseFrame(s: seq<byte>): (r: Parse)
    ensures r.Parsed? ==> r.packet.Acceptable() && HEADER_SIZE <= r.size <= |s|
  {
    if |s| < HEADER_SIZE then Truncated
    else if !HeaderAcceptable(s) then Rejected
    else if |s| < HEADER_SIZE + DeclaredLength(s) then Truncated
    else
      var size := HEADER_SIZE + DeclaredLength(s);
      Parsed(Packet(s[4], s[5], s[HEADER_SIZE..size]), size)
  }

  /** The bytes that recv_all still asks for when `s` is an incomplete frame. */
  function Missing(s: seq<byte>): nat {
    if |s| < HEADER_SIZE then HEADER_SIZE - |s|
    else if |s| < HEADER_SIZE + DeclaredLength(s) then HEADER_SIZE + DeclaredLength(s) - |s|
    else 0
  }

  /** What packet_receive leaves of a stream that has no first frame: it stops after a header that it rejects. */
  function Refused(s: seq<byte>): seq<byte> {
    if |s| >= HEADER_SIZE && !HeaderAcceptable(s) then s[HEADER_SIZE..] else []
  }

  lemma HeaderReadsBack(p: Packet, pad: Padding, rest: seq<byte>)
    requires p.Acceptable()
    ensures var s := HeaderBytes(p, pad) + rest;
            DeclaredLength(s) == |p.payload| && s[4] == p.version && s[5] == p.typ && HeaderAcceptable(s)
  {
    var s := HeaderBytes(p, pad) + rest;
    assert s[..4] == BigEndian(|p.payload|, 4);
    ReadBack32(|p.payload|);
  }

  /** A frame at the head of any stream reads back as the packet it was made from. */
  lemma FrameReadsBack(p: Packet, pad: Padding, rest: seq<byte>)
    requires p.Acceptable()
    ensures ParseFrame(FrameBytes(p, pad) + rest) == Parsed(p, |FrameBytes(p, pad)|)
  {
    var s := FrameBytes(p, pad) + rest;
    assert s == HeaderBytes(p, pad) + (p.payload + rest);
    HeaderReadsBack(p, pad, p.payload + rest);
    assert s[HEADER_SIZE..HEADER_SIZE + |p.payload|] == p.payload;
  }

  /** Every accepted frame is the image of its packet under some padding: nothing else is accepted. */
  lemma AcceptedIsFrame(s: seq<byte>) returns (pad: Padding)
    requires ParseFrame(s).Parsed?
    ensures var r := ParseFrame(s); FrameBytes(r.packet, pad) == s[..r.size]
  {
    pad := s[6..8];
    WriteBack(s[..4]);
    var r := ParseFrame(s);
    assert HeaderBytes(r.packet, pad) == s[..HEADER_SIZE];
  }

  /** A proper prefix of a frame is never taken for a frame, and asks for no byte beyond it. */
  lemma PrefixIsTruncated(p: Packet, pad: Padding, b: seq<byte>)
    requires p.Acceptable() && b <= FrameBytes(p, pad) && |b| < |FrameBytes(p, pad)|
    ensures ParseFrame(b) == Truncated
    ensures Missing(b) == (if |b| < 8 then 8 else |FrameBytes(p, pad)|) - |b|
  {
    if |b| >= HEADER_SIZE {
      var h := HeaderBytes(p, pad);
      assert b[..HEADER_SIZE] == h;
      assert b == h + b[HEADER_SIZE..];
      HeaderReadsBack(p, pad, b[HEADER_SIZE..]);
    }
  }

  /** The answer to an incomplete frame does not depend on where the stream was cut. */
  lemma MoreBytes(b: seq<byte>, rest: seq<byte>)
    ensures ParseFrame(b).Parsed? ==> ParseFrame(b + rest) == ParseFrame(b)
    ensures ParseFrame(b).Rejected? ==> ParseFrame(b + rest).Rejected?
  {
    if |b| >= HEADER_SIZE {
      assert (b + rest)[..4] == b[..4];
      if ParseFrame(b).Parsed? {
        var n := HEADER_SIZE + DeclaredLength(b);
        assert (b + rest)[HEADER_SIZE..n] == b[HEADER_SIZE..n];
      }
    }
  }

  // ---- whole streams ----

  function Stream(packets: seq<Packet>, pads: seq<Padding>): seq<byte>
    requires |packets| == |pads|
  {
    if packets == [] then [] else FrameBytes(packets[0], pads[0]) + Stream(packets[1..], pads[1..])
  }

  /** What repeated reception delivers, up to the first failure. */
  function ReceiveAll(s: seq<byte>): (packets: seq<Packet>)
    decreases |s|
  {
    match ParseFrame(s)
    case Parsed(p, n) => [p] + ReceiveAll(s[n..])
    case _ => []
  }

  /** Reception gives back the list that was sent, and then fails only for want of bytes. */
  lemma {:induction false} StreamRoundTrip(packets: seq<Packet>, pads: seq<Padding>)
    requires |packets| == |pads| && forall p <- packets :: p.Acceptable()
    ensures ReceiveAll(Stream(packets, pads)) == packets
  {
    if packets != [] {
      var rest := Stream(packets[1..], pads[1..]);
      FrameReadsBack(packets[0], pads[0], rest);
      StreamRoundTrip(packets[1..], pads[1..]);
      var f := FrameBytes(packets[0], pads[0]);
      assert (f + rest)[|f|..] == rest;
    }
  }

  /** The first k frames of a stream. */
  function Boundary(packets: seq<Packet>, pads: seq<Padding>, k: nat): nat
    requires |packets| == |pads| && k <= |packets|
  {
    |Stream(packets[..k], pads[..k])|
  }

  /** The first k frames are complete and the next one, if any, is not. */
  ghost predicate CutAt(packets: seq<Packet>, pads: seq<Padding>, cut: nat, k: nat)
    requires |packets| == |pads|
  {
    && cut <= |Stream(packets, pads)| && k <= |packets|
    && ReceiveAll(Stream(packets, pads)[..cut]) == packets[..k]
    && Boundary(packets, pads, k) <= cut
    && (k < |packets| ==> cut < Boundary(packets, pads, k + 1))
  }

  /**
   * A stream cut anywhere yields exactly the packets whose frames are complete, in order: never a
   * partial packet, never two merged.
   */
  lemma {:induction false} CutStream(packets: seq<Packet>, pads: seq<Padding>, cut: nat) returns (k: nat)
    requires |packets| == |pads| && forall p <- packets :: p.Acceptable()
    requires cut <= |Stream(packets, pads)|
    ensures CutAt(packets, pads, cut, k)
  {
    k := 0;
    if packets != [] {
      var size := |FrameBytes(packets[0], pads[0])|;
      if cut < size {
        CutInFirst(packets, pads, cut);
      } else {
        var j := CutStream(packets[1..], pads[1..], cut - size);
        k := j + 1;
        CutInRest(packets, pads, cut, j);
      }
    }
  }

  lemma CutInFirst(packets: seq<Packet>, pads: seq<Padding>, cut: nat)
    requires |packets| == |pads| && packets != [] && packets[0].Acceptable()
    requires cut < |FrameBytes(packets[0], pads[0])|
    ensures CutAt(packets, pads, cut, 0)
  {
    var f := FrameBytes(packets[0], pads[0]);
    var tail := Stream(packets[1..], pads[1..]);
    assert (f + tail)[..cut] == f[..cut];
    PrefixIsTruncated(packets[0], pads[0], f[..cut]);
    BoundaryShift(packets, pads, 0);
  }

  lemma CutInRest(packets: seq<Packet>, pads: seq<Padding>, cut: nat, j: nat)
    requires |packets| == |pads| && packets != [] && packets[0].Acceptable()
    requires |FrameBytes(packets[0], pads[0])| <= cut <= |Stream(packets, pads)|
    requires CutAt(packets[1..], pads[1..], cut - |FrameBytes(packets[0], pads[0])|, j)
    ensures CutAt(packets, pads, cut, j + 1)
  {
    ReceiveOneMore(packets[0], pads[0], Stream(packets[1..], pads[1..]), cut);
    OneMore(packets, j);
    BoundaryShift(packets, pads, j);
    if j + 1 < |packets| {
      BoundaryShift(packets, pads, j + 1);
    }
  }

  lemma OneMore(packets: seq<Packet>, j: nat)
    requires j < |packets|
    ensures packets[..j + 1] == [packets[0]] + packets[1..][..j]
  {
  }

  lemma ReceiveOneMore(p: Packet, pad: Padding, tail: seq<byte>, cut: nat)
    requires p.Acceptable() && |FrameBytes(p, pad)| <= cut <= |FrameBytes(p, pad) + tail|
    ensures var f := FrameBytes(p, pad);
            ReceiveAll((f + tail)[..cut]) == [p] + ReceiveAll(tail[..cut - |f|])
  {
    var f := FrameBytes(p, pad);
    var rest := tail[..cut - |f|];
    assert (f + tail)[..cut] == f + rest;
    FrameReadsBack(p, pad, rest);
    assert (f + rest)[|f|..] == rest;
  }

  lemma BoundaryShift(packets: seq<Packet>, pads: seq<Padding>, j: nat)
    requires |packets| == |pads| && j < |packets|
    ensures Boundary(packets, pads, j + 1) == |FrameBytes(packets[0], pads[0])| + Boundary(packets[1..], pads[1..], j)
  {
    assert packets[..j + 1][1..] == packets[1..][..j];
    assert pads[..j + 1][1..] == pads[1..][..j];
  }

  // ---- sockets ----

  ghost predicate IsSuffix(a: seq<byte>, b: seq<byte>) {
    |a| <= |b| && a == b[|b| - |a|..]
  }

  /**
   * One end of a connected stream socket. `inbox` is what the peer's stream still holds for us,
   * `outbox` what we have handed over so far. Each call moves an arbitrary number of bytes, or fails;
   * a reliable socket fails only at the end of the stream.
   */
  class Socket {
    var inbox: seq<byte>
    var outbox: seq<byte>
    const reliable: bool

    constructor (inbox: seq<byte>, reliable: bool)
      ensures this.inbox == inbox && outbox == [] && this.reliable == reliable
    {
      this.inbox, outbox, this.reliable := inbox, [], reliable;
    }

    method Send(buffer: array<byte>, from: nat, length: nat) returns (sent: int)
      requires 0 < length && from + length <= buffer.Length
      modifies this`outbox
      ensures sent <= 0 ==> !reliable && outbox == old(outbox)
      ensures sent > 0 ==> sent <= length && outbox == old(outbox) + buffer[from..from + sent]
    {
      var fail: bool := *;
      if fail && !reliable {
        return -1;
      }
      var n: nat :| 1 <= n <= length;
      outbox := outbox + buffer[from..from + n];
      sent := n;
    }

    method Recv(buffer: array<byte>, from: nat, length: nat) returns (received: int)
      requires 0 < length && from + length <= buffer.Length
      modifies this`inbox, buffer
      ensures received <= 0 ==> (!reliable || inbox == []) && inbox == old(inbox) && buffer[..] == old(buffer[..])
      ensures received > 0 ==> received <= length && received <= |old(inbox)| && inbox == old(inbox)[received..]
      ensures received > 0 ==> buffer[..from] == old(buffer[..from])
      ensures received > 0 ==> buffer[from..from + received] == old(inbox)[..received]
    {
      var fail: bool := *;
      if inbox == [] || (fail && !reliable) {
        return 0;
      }
      var n: nat :| 1 <= n <= length && n <= |inbox|;
      ghost var before := buffer[..];
      forall i | 0 <= i < n {
        buffer[from + i] := inbox[i];
      }
      inbox := inbox[n..];
      received := n;
    }
  }

  /** send_all: the whole buffer is handed over in order, or some prefix of it and then failure. */
  method SendAll(socket: Socket, buffer: array<byte>, length: nat) returns (ok: bool)
    requires length <= buffer.Length
    modifies socket`outbox
    ensures ok ==> socket.outbox == old(socket.outbox) + buffer[..length]
    ensures !ok ==> old(socket.outbox) <= socket.outbox < old(socket.outbox) + buffer[..length]
    ensures socket.reliable ==> ok
  {
    var total := 0;
    while total < length
      invariant total <= length
      invariant socket.outbox == old(socket.outbox) + buffer[..total]
    {
      var sent := socket.Send(buffer, total, length - total);
      if sent <= 0 {
        return false;
      }
      assert buffer[..total] + buffer[total..total + sent] == buffer[..total + sent];
      total := total + sent;
    }
    return true;
  }

  /** recv_all: exactly the next `length` bytes of the stream, however they arrive, or failure. */
  method RecvAll(socket: Socket, buffer: array<byte>, length: nat) returns (ok: bool)
    requires length <= buffer.Length
    modifies socket`inbox, buffer
    ensures ok ==> length <= |old(socket.inbox)| && buffer[..length] == old(socket.inbox)[..length]
    ensures ok ==> socket.inbox == old(socket.inbox)[length..]
    ensures IsSuffix(socket.inbox, old(socket.inbox))
    ensures socket.reliable ==> (ok <==> length <= |old(socket.inbox)|) && (!ok ==> socket.inbox == [])
  {
    var total := 0;
    while total < length
      invariant total <= length && total <= |old(socket.inbox)|
      invariant buffer[..total] == old(socket.inbox)[..total]
      invariant socket.inbox == old(socket.inbox)[total..]
    {
      var received := socket.Recv(buffer, total, length - total);
      if received <= 0 {
        return false;
      }
      assert buffer[..total + received] == buffer[..total] + buffer[total..total + received];
      total := total + received;
    }
    return true;
  }

  /** packet_send: one whole frame, or a proper prefix of one; an oversized packet sends nothing. */
  method PacketSend(socket: Socket, packet: Packet, pad: Padding) returns (ok: bool)
    modifies socket`outbox
    ensures ok ==> |packet.payload| <= MAX_PACKET_SIZE && socket.outbox == old(socket.outbox) + FrameBytes(packet, pad)
    ensures !ok ==> old(socket.outbox) <= socket.outbox < old(socket.outbox) + FrameBytes(packet, pad)
    ensures |packet.payload| > MAX_PACKET_SIZE ==> socket.outbox == old(socket.outbox)
    ensures socket.reliable ==> (ok <==> |packet.payload| <= MAX_PACKET_SIZE)
  {
    var header := HeaderBytes(packet, pad);
    if |packet.payload| > MAX_PACKET_SIZE {
      return false;
    }
    var buffer := new byte[HEADER_SIZE](i requires 0 <= i < HEADER_SIZE => header[i]);
    assert buffer[..HEADER_SIZE] == header;
    ok := SendAll(socket, buffer, HEADER_SIZE);
    if ok && |packet.payload| > 0 {
      var payload := new byte[|packet.payload|](i requires 0 <= i < |packet.payload| => packet.payload[i]);
      assert payload[..|packet.payload|] == packet.payload;
      ok := SendAll(socket, payload, |packet.payload|);
    }
    assert old(socket.outbox) + (header + packet.payload) == old(socket.outbox) + header + packet.payload;
  }

  /** packet_receive: the first frame of the stream and nothing after it, or failure. */
  method PacketReceive(socket: Socket) returns (ok: bool, packet: Packet)
    modifies socket`inbox
    ensures var r := ParseFrame(old(socket.inbox));
            && (ok ==> r.Parsed? && packet == r.packet && socket.inbox == old(socket.inbox)[r.size..])
            && (socket.reliable ==> (ok <==> r.Parsed?))
            && (socket.reliable && !ok ==> socket.inbox == Refused(old(socket.inbox)))
    ensures IsSuffix(socket.inbox, old(socket.inbox))
  {
    ghost var stream := socket.inbox;
    packet := Packet(0, 0, []);
    var header := new byte[HEADER_SIZE];
    ok := RecvAll(socket, header, HEADER_SIZE);
    if !ok {
      return;
    }
    var h := header[..HEADER_SIZE];
    assert h[..4] == stream[..4];
    assert socket.inbox == stream[HEADER_SIZE..];
    packet := Packet(h[4], h[5], []);
    if packet.version != CURRENT_VERSION || packet.typ > PACKET_ERROR {
      return false, Packet(0, 0, []);
    }
    var length := FromBigEndian(h[..4]);
    if length > MAX_PACKET_SIZE {
      return false, packet;
    }
    if length > 0 {
      var payload := new byte[length];
      ok := RecvAll(socket, payload, length);
      if !ok {
        return false, Packet(0, 0, []);
      }
      packet := packet.(payload := payload[..length]);
      assert stream[HEADER_SIZE..][..length] == stream[HEADER_SIZE..HEADER_SIZE + length];
      assert socket.inbox == stream[HEADER_SIZE + length..];
    } else {
      assert stream[HEADER_SIZE..HEADER_SIZE] == [];
    }
  }

  // ---- lists of packets over sockets ----

  lemma {:induction false} StreamOfParts(p: seq<Packet>, q: seq<Packet>, pads: seq<Padding>, more: seq<Padding>)
    requires |p| == |pads| && |q| == |more|
    ensures Stream(p + q, pads + more) == Stream(p, pads) + Stream(q, more)
    decreases |p|
  {
    if p == [] {
      assert p + q == q && pads + more == more;
    } else {
      assert (p + q)[1..] == p[1..] + q && (pads + more)[1..] == pads[1..] + more;
      StreamOfParts(p[1..], q, pads[1..], more);
    }
  }

  lemma StreamOfOne(p: Packet, pad: Padding)
    ensures Stream([p], [pad]) == FrameBytes(p, pad)
  {
    assert [p][1..] == [] && [pad][1..] == [];
    assert Stream([p][1..], [pad][1..]) == [];
  }

  lemma StreamPrefix(packets: seq<Packet>, pads: seq<Padding>, i: nat)
    requires |packets| == |pads| && i <= |packets|
    ensures Stream(packets[..i], pads[..i]) <= Stream(packets, pads)
  {
    StreamOfParts(packets[..i], packets[i..], pads[..i], pads[i..]);
    Rejoin(packets, i);
    Rejoin(pads, i);
  }

  lemma Rejoin<T>(s: seq<T>, i: nat)
    requires i <= |s|
    ensures s[..i] + s[i..] == s
  {
  }

  lemma StreamUpTo(packets: seq<Packet>, pads: seq<Padding>, i: nat)
    requires |packets| == |pads| && i < |packets|
    ensures Stream(packets[..i + 1], pads[..i + 1]) == Stream(packets[..i], pads[..i]) + FrameBytes(packets[i], pads[i])
  {
    StreamOfParts(packets[..i], [packets[i]], pads[..i], [pads[i]]);
    StreamOfOne(packets[i], pads[i]);
    assert packets[..i] + [packets[i]] == packets[..i + 1] && pads[..i] + [pads[i]] == pads[..i + 1];
  }

  /** packet_send for each packet until one fails. */
  method SendPackets(socket: Socket, packets: seq<Packet>, pads: seq<Padding>) returns (ok: bool)
    requires |packets| == |pads| && forall p <- packets :: p.Acceptable()
    modifies socket`outbox
    ensures old(socket.outbox) <= socket.outbox <= old(socket.outbox) + Stream(packets, pads)
    ensures ok ==> socket.outbox == old(socket.outbox) + Stream(packets, pads)
    ensures socket.reliable ==> ok
  {
    for i := 0 to |packets|
      invariant socket.outbox == old(socket.outbox) + Stream(packets[..i], pads[..i])
    {
      StreamUpTo(packets, pads, i);
      StreamPrefix(packets, pads, i);
      StreamPrefix(packets, pads, i + 1);
      assert packets[i] in packets;
      ghost var before := socket.outbox;
      ok := PacketSend(socket, packets[i], pads[i]);
      assert before + FrameBytes(packets[i], pads[i]) == old(socket.outbox) + Stream(packets[..i + 1], pads[..i + 1]);
      if !ok {
        return;
      }
    }
    assert packets[..|packets|] == packets && pads[..|packets|] == pads;
    ok := true;
  }

  /** packet_receive until it fails. */
  method ReceivePackets(socket: Socket) returns (packets: seq<Packet>)
    modifies socket`inbox
    ensures packets <= ReceiveAll(old(socket.inbox))
    ensures socket.reliable ==> packets == ReceiveAll(old(socket.inbox))
  {
    packets := [];
    var going := true;
    while going
      invariant going ==> packets + ReceiveAll(socket.inbox) == ReceiveAll(old(socket.inbox))
      invariant packets <= ReceiveAll(old(socket.inbox))
      invariant !going && socket.reliable ==> packets == ReceiveAll(old(socket.inbox))
      decreases going, |socket.inbox|
    {
      ghost var before := socket.inbox;
      var ok, packet := PacketReceive(socket);
      if ok {
        assert ReceiveAll(before) == [packet] + ReceiveAll(socket.inbox);
        assert packets + ([packet] + ReceiveAll(socket.inbox)) == packets + [packet] + ReceiveAll(socket.inbox);
        packets := packets + [packet];
      } else {
        assert socket.reliable ==> ReceiveAll(before) == [];
        going := false;
      }
    }
  }

  /**
   * A list of packets from one socket to another, each of which divides the stream as it likes and may fail at
   * any point: what arrives is a prefix of the list, on a receiver that reads on to the end exactly the packets
   * that were sent whole, and all of it if nothing fails.
   */
  method Transfer(packets: seq<Packet>, pads: seq<Padding>, sendsAll: bool, readsAll: bool)
    returns (received: seq<Packet>, ghost cut: nat)
    requires |packets| == |pads| && forall p <- packets :: p.Acceptable()
    ensures received <= packets && cut <= |Stream(packets, pads)|
    ensures readsAll ==> CutAt(packets, pads, cut, |received|)
    ensures sendsAll && readsAll ==> received == packets
  {
    var sender := new Socket([], sendsAll);
    var ok := SendPackets(sender, packets, pads);
    assert [] + Stream(packets, pads) == Stream(packets, pads);
    cut := |sender.outbox|;
    assert sender.outbox == Stream(packets, pads)[..cut];
    var receiver := new Socket(sender.outbox, readsAll);
    received := ReceivePackets(receiver);
    ghost var k := CutStream(packets, pads, cut);
    if ok {
      assert Stream(packets, pads)[..cut] == Stream(packets, pads);
      StreamRoundTrip(packets, pads);
    }
  }
}
