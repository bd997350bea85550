/**
 * The wire formats in numbers: what is at which offset of a frame, of the handshake's structs, of a datagram, of
 * the nonce and of a compressed packet, and exactly which bytes are accepted.
 */
module Layout {
  import opened Bytes
  import opened Crypto
  import opened Packet
  import opened Handshake
  import opened Tunnel

  // ---- frames ----

  /** The header: length, version, type, and two bytes that nobody reads. */
  lemma FrameLayout(p: Packet, pad: Padding)
    ensures var n := |p.payload|;
            FrameBytes(p, pad) == [Digit(n, 0x100_0000), Digit(n, 0x1_0000), Digit(n, 0x100), Digit(n, 1),
                                   p.version, p.typ, pad[0], pad[1]] + p.payload
  {
    FourBytes(|p.payload|);
    assert pad == [pad[0], pad[1]];
  }

  /** The length that a header declares. */
  function Length(s: seq<byte>): nat
    requires |s| >= 4
  {
    (s[0] as int) * 0x100_0000 + (s[1] as int) * 0x1_0000 + (s[2] as int) * 0x100 + s[3]
  }

  /** At offset i there is a frame of version 1 with the type and the payload size. */
  predicate FrameAt(b: seq<byte>, i: nat, typ: byte, size: nat) {
    |b| >= i + 8 + size && b[i + 4] == 1 && b[i + 5] == typ && Length(b[i..i + 4]) == size
  }

  lemma FrameInRest(s: seq<byte>, i: nat, typ: byte, size: nat)
    requires i <= |s|
    ensures FrameAt(s, i, typ, size) <==> FrameAt(s[i..], 0, typ, size)
  {
    if |s| >= i + 8 {
      assert s[i..][0..4] == s[i..i + 4];
    }
  }

  /** A DISCONNECT frame. */
  lemma NoticeBytes(version: byte, pad: Padding)
    ensures FrameBytes(Packet(version, DISCONNECT, []), pad) == [0, 0, 0, 0, version, 11, pad[0], pad[1]]
  {
    FrameLayout(Packet(version, DISCONNECT, []), pad);
  }

  lemma FrameIsAt(p: Packet, pad: Padding, before: seq<byte>, after: seq<byte>)
    requires p.Acceptable()
    ensures FrameAt(before + FrameBytes(p, pad) + after, |before|, p.typ, |p.payload|)
  {
    var (f, i) := (FrameBytes(p, pad), |before|);
    var b := before + f + after;
    FrameLayout(p, pad);
    FourBytes(|p.payload|);
    FourByteValue(BigEndian(|p.payload|, 4));
    ReadBack32(|p.payload|);
    assert b[i..i + 4] == f[..4] == BigEndian(|p.payload|, 4);
    assert b[i + 4] == f[4] && b[i + 5] == f[5];
  }

  /** Exactly which streams start with a frame, which are refused at their header, and what is read. */
  lemma ParsesExactly(s: seq<byte>)
    ensures ParseFrame(s).Parsed? <==>
              |s| >= 8 && s[4] == 1 && s[5] <= 12 && Length(s) <= 0x100_0000 && |s| >= 8 + Length(s)
    ensures ParseFrame(s).Rejected? <==> |s| >= 8 && !(s[4] == 1 && s[5] <= 12 && Length(s) <= 0x100_0000)
    ensures ParseFrame(s).Parsed? ==> ParseFrame(s) == Parsed(Packet(1, s[5], s[8..8 + Length(s)]), 8 + Length(s))
  {
    if |s| >= 8 {
      FourByteValue(s[..4]);
    }
  }

  // ---- the handshake's structs ----

  lemma StructLayout(c: Challenge, r: Response, s: Success)
    ensures var b := ChallengeBytes(c);
            && |b| == 144 && b[..64] == c.signature && b[64..96] == c.publicKey
            && b[96..128] == c.ephPublic && b[128..] == c.nonce
    ensures var b := ResponseBytes(r);
            |b| == 128 && b[..64] == r.signature && b[64..96] == r.publicKey && b[96..] == r.ephPublic
    ensures var (b, n) := (SuccessBytes(s), s.sessionId);
            && |b| == 40 && b[..32] == s.sessionNonce
            && b[32..] == [Digit(n, 1), Digit(n, 0x100), Digit(n, 0x1_0000), Digit(n, 0x100_0000),
                           Digit(n, 0x1_0000_0000), Digit(n, 0x100_0000_0000),
                           Digit(n, 0x1_0000_0000_0000), Digit(n, 0x100_0000_0000_0000)]
  {
    EightHostBytes(s.sessionId);
  }

  // ---- datagrams ----

  /** A zero fixed field and the counter. */
  lemma NonceLayout(counter: nat)
    ensures BuildNonce(counter) == [0, 0, 0, 0,
                                    Digit(counter, 0x100_0000_0000_0000), Digit(counter, 0x1_0000_0000_0000),
                                    Digit(counter, 0x100_0000_0000), Digit(counter, 0x1_0000_0000),
                                    Digit(counter, 0x100_0000), Digit(counter, 0x1_0000), Digit(counter, 0x100),
                                    Digit(counter, 1)]
  {
    EightBytes(counter);
    assert Zeros(4) == [0, 0, 0, 0];
  }

  /** The nonce that a receiver uses is the datagram's counter field behind four zeros. */
  lemma NonceIsField(b: seq<byte>)
    requires |b| >= 16
    ensures NonceOf(b) == [0, 0, 0, 0] + b[8..16]
  {
    WriteBack(b[8..16]);
    assert Zeros(4) == [0, 0, 0, 0];
  }

  /** Exactly when encode succeeds, and then the id, the counter, and the plaintext sealed under that nonce. */
  lemma DatagramLayout(suite: Suite, key: Key, id: u64, counter: u64, plaintext: seq<byte>)
    ensures var e := Encoded(suite, key, id, counter, plaintext);
            var ct := suite.seal(key, BuildNonce(counter), plaintext);
            && (e.Some? <==> |plaintext| <= 65504 && ct.Some?)
            && (e.Some? ==> |e.value| >= 16 && IdField(e.value, id) && CounterField(e.value, counter)
                            && BuildNonce(counter) == [0, 0, 0, 0] + e.value[8..16] && e.value[16..] == ct.value)
  {
    EightBytes(id);
    EightBytes(counter);
    NonceLayout(counter);
    if Encoded(suite, key, id, counter, plaintext).Some? {
      ThreeParts(BigEndian(id, 8), BigEndian(counter, 8), suite.seal(key, BuildNonce(counter), plaintext).value);
    }
  }

  predicate IdField(b: seq<byte>, id: nat)
    requires |b| >= 16
  {
    b[..8] == [Digit(id, 0x100_0000_0000_0000), Digit(id, 0x1_0000_0000_0000), Digit(id, 0x100_0000_0000),
               Digit(id, 0x1_0000_0000), Digit(id, 0x100_0000), Digit(id, 0x1_0000), Digit(id, 0x100), Digit(id, 1)]
  }

  predicate CounterField(b: seq<byte>, counter: nat)
    requires |b| >= 16
  {
    b[8..16] == [Digit(counter, 0x100_0000_0000_0000), Digit(counter, 0x1_0000_0000_0000),
                 Digit(counter, 0x100_0000_0000), Digit(counter, 0x1_0000_0000), Digit(counter, 0x100_0000),
                 Digit(counter, 0x1_0000), Digit(counter, 0x100), Digit(counter, 1)]
  }

  /** Any datagram: its id is in its first eight bytes, and it has one exactly from 16 bytes on. */
  lemma PeekedExactly(b: seq<byte>)
    ensures Peeked(b).Some? <==> |b| >= 16
    ensures |b| >= 16 ==> IdField(b, Peeked(b).value)
  {
    if |b| >= 16 {
      WriteBack(b[..8]);
      EightBytes(Peeked(b).value);
    }
  }

  /** Exactly what is handed to the AEAD on receipt, and for which lengths. */
  lemma DecodedExactly(suite: Suite, key: Key, b: seq<byte>)
    ensures 32 <= |b| <= 65536 ==> Decoded(suite, key, b) == suite.unseal(key, [0, 0, 0, 0] + b[8..16], b[16..])
    ensures !(32 <= |b| <= 65536) ==> Decoded(suite, key, b) == None
  {
    if |b| >= 16 {
      NonceIsField(b);
    }
  }

  // ---- compressed packets ----

  /** The packet is sent compressed: zstd has room, succeeds, and gains at least a byte. */
  predicate Gains(codec: Codec, raw: seq<byte>, room: nat) {
    var z := codec.compress(raw);
    codec.bound(|raw|) <= room && z.Some? && 0 < |z.value| <= room && |z.value| < |raw|
  }

  lemma CompressedExactly(codec: Codec, raw: seq<byte>, capacity: nat)
    requires capacity >= 5
    ensures var (c, n) := (Compressed(codec, raw, capacity), |raw|);
            if Gains(codec, raw, capacity - 5) then
              c == [1, Digit(n, 0x100_0000), Digit(n, 0x1_0000), Digit(n, 0x100), Digit(n, 1)]
                   + codec.compress(raw).value
            else
              c == if n <= capacity - 5 then [0, 0, 0, 0, 0] + raw else []
  {
    FourBytes(|raw|);
    assert Zeros(4) == [0, 0, 0, 0];
  }

  /** Exactly which inputs decompress to something, and to what: any other flag, length or content gives nothing. */
  lemma DecompressedExactly(codec: Codec, b: seq<byte>, capacity: nat, d: seq<byte>)
    requires d != []
    ensures Decompressed(codec, b, capacity) == d <==>
              |b| >= 5 && |d| <= capacity &&
              ((b[0] == 0 && d == b[5..])
               || (b[0] == 1 && codec.decompress(b[5..]) == Some(d) && |d| == Length(b[1..5])))
  {
    if |b| >= 5 {
      FourByteValue(b[1..5]);
    }
  }

  /** Exactly what a receiver writes to its TUN. */
  lemma InboundExactly(suite: Suite, codec: Codec, key: Key, b: seq<byte>, packet: seq<byte>)
    ensures Inbound(suite, codec, key, b) == Some(packet) <==>
              && 32 <= |b| <= 65536 && packet != []
              && var p := suite.unseal(key, [0, 0, 0, 0] + b[8..16], b[16..]);
                 p.Some? && Decompressed(codec, p.value, 65504) == packet
  {
    DecodedExactly(suite, key, b);
  }
}
