/**
 * The data path: compress-or-store (src/tunnel/tunnel_compress.c), the datagram layout
 * (src/tunnel/tunnel_packet.c) and its encryption (src/shared/security/crypto.c), on byte buffers.
 */
module Tunnel {
  import opened Bytes
  import opened Crypto
  import opened Handshake

  const COMPRESS_HEADER_SIZE: nat := 5
  const FLAG_NONE: byte := 0
  const FLAG_ZSTD: byte := 1
  const TUNNEL_HEADER_SIZE: nat := 16
  const MAX_DATAGRAM: nat := 65536
  const MAX_PLAINTEXT: nat := MAX_DATAGRAM - TUNNEL_HEADER_SIZE - TAG_SIZE

  /** zstd, as arbitrary functions; None is an error. */
  datatype Codec = Codec(
    bound: nat -> nat,
    compress: seq<byte> -> Option<seq<byte>>,
    decompress: seq<byte> -> Option<seq<byte>>)
  {
    ghost predicate Lawful() {
      && (forall n {:trigger bound(n)} :: bound(n) >= n)
      && (forall x {:trigger compress(x)} :: compress(x).Some? ==>
            |compress(x).value| <= bound(|x|) && decompress(compress(x).value) == Some(x))
    }
  }

  /** A run of zeros is worth compressing, anything else is not. */
  const TOY_CODEC: Codec := Codec(
    n => n + 4,
    (x: seq<byte>) => if |x| < TWO_TO_THE_32 && x == Zeros(|x|) then Some(BigEndian(|x|, 4)) else None,
    (c: seq<byte>) => if |c| == 4 then Some(Zeros(FromBigEndian(c))) else None)

  lemma ToyCodecIsLawful()
    ensures TOY_CODEC.Lawful()
    ensures Shrinks(TOY_CODEC, Zeros(10), MAX_PLAINTEXT) && !Shrinks(TOY_CODEC, [1], MAX_PLAINTEXT)
  {
    forall x: seq<byte> | TOY_CODEC.compress(x).Some?
      ensures TOY_CODEC.decompress(TOY_CODEC.compress(x).value) == Some(x)
    {
      ReadBack32(|x|);
    }
  }

  // ---- what the functions compute ----

  /** An output of zstd that fits the destination. */
  function Fitting(z: Option<seq<byte>>, capacity: nat): Option<seq<byte>> {
    if z.Some? && |z.value| <= capacity then z else None
  }

  predicate Shrinks(codec: Codec, raw: seq<byte>, capacity: nat)
    requires capacity >= COMPRESS_HEADER_SIZE
  {
    var room := capacity - COMPRESS_HEADER_SIZE;
    var z := Fitting(codec.compress(raw), room);
    codec.bound(|raw|) <= room && z.Some? && 0 < |z.value| < |raw|
  }

  /** tunnel_pipeline_compress; the empty sequence is its return value 0. */
  function Compressed(codec: Codec, raw: seq<byte>, capacity: nat): (c: seq<byte>)
    ensures |c| <= capacity && |c| <= |raw| + COMPRESS_HEADER_SIZE
  {
    if capacity < COMPRESS_HEADER_SIZE then []
    else if Shrinks(codec, raw, capacity) then [FLAG_ZSTD] + BigEndian(|raw|, 4) + codec.compress(raw).value
    else if |raw| > capacity - COMPRESS_HEADER_SIZE then []
    else [FLAG_NONE] + Zeros(4) + raw
  }

  /** tunnel_pipeline_decompress; the empty sequence is its return value 0. */
  function Decompressed(codec: Codec, b: seq<byte>, capacity: nat): (d: seq<byte>)
    ensures |d| <= capacity
  {
    if |b| < COMPRESS_HEADER_SIZE then []
    else
      var payload := b[COMPRESS_HEADER_SIZE..];
      if b[0] == FLAG_NONE then
        if |payload| > capacity then [] else payload
      else if b[0] == FLAG_ZSTD then
        var original := FromBigEndian(b[1..5]);
        if original > capacity then []
        else
          var d := Fitting(codec.decompress(payload), capacity);
          if d.None? || |d.value| != original then [] else d.value
      else []
  }

  /** tunnel_packet_encode. */
  function Encoded(suite: Suite, key: Key, id: u64, counter: u64, plaintext: seq<byte>): Option<seq<byte>> {
    if |plaintext| > MAX_PLAINTEXT then None
    else match suite.seal(key, BuildNonce(counter), plaintext)
         case None => None
         case Some(c) => Some(BigEndian(id, 8) + BigEndian(counter, 8) + c)
  }

  function ReadU64(b: seq<byte>): u64
    requires |b| == 8
  {
    Widths();
    FromBigEndian(b)
  }

  /** tunnel_packet_peek_session_id. */
  function Peeked(b: seq<byte>): Option<u64> {
    if |b| < TUNNEL_HEADER_SIZE then None else Some(ReadU64(b[..8]))
  }

  /** The nonce and the ciphertext that tunnel_packet_decode hands to the AEAD. */
  function NonceOf(b: seq<byte>): AeadNonce
    requires |b| >= TUNNEL_HEADER_SIZE
  {
    BuildNonce(ReadU64(b[8..16]))
  }

  /** tunnel_packet_decode. */
  function Decoded(suite: Suite, key: Key, b: seq<byte>): Option<seq<byte>> {
    if |b| < TUNNEL_HEADER_SIZE + TAG_SIZE || |b| > MAX_DATAGRAM then None
    else suite.unseal(key, NonceOf(b), b[TUNNEL_HEADER_SIZE..])
  }

  /** From a TUN packet to a datagram, as both senders do. */
  function Outbound(suite: Suite, codec: Codec, key: Key, id: u64, counter: u64, raw: seq<byte>): Option<seq<byte>> {
    var c := Compressed(codec, raw, MAX_PLAINTEXT);
    if c == [] then None else Encoded(suite, key, id, counter, c)
  }

  /** From a datagram to a TUN packet, as both receivers do. */
  function Inbound(suite: Suite, codec: Codec, key: Key, b: seq<byte>): Option<seq<byte>> {
    match Decoded(suite, key, b)
    case None => None
    case Some(p) =>
      var d := Decompressed(codec, p, MAX_PLAINTEXT);
      if d == [] then None else Some(d)
  }

  // ---- properties ----

  /**
   * What was compressed decompresses to itself exactly when it fits the receiver's buffer and, on the zstd
   * branch, its length survives the cast to 32 bits.
   */
  lemma CompressRoundTrip(codec: Codec, raw: seq<byte>, capacity: nat, outCapacity: nat)
    requires codec.Lawful() && raw != [] && Compressed(codec, raw, capacity) != []
    ensures Decompressed(codec, Compressed(codec, raw, capacity), outCapacity) == raw
            <==> |raw| <= outCapacity && (Shrinks(codec, raw, capacity) ==> |raw| < TWO_TO_THE_32)
  {
    var c := Compressed(codec, raw, capacity);
    if Shrinks(codec, raw, capacity) {
      assert c[1..5] == BigEndian(|raw|, 4) && c[5..] == codec.compress(raw).value;
      ReadBack32(|raw|);
    } else {
      assert c[5..] == raw;
    }
  }

  /** The senders drop a packet exactly when it is longer than 65499 bytes. */
  lemma DroppedExactly(codec: Codec, raw: seq<byte>)
    requires codec.Lawful()
    ensures Compressed(codec, raw, MAX_PLAINTEXT) == [] <==> |raw| > 65499
  {
    assert codec.bound(|raw|) >= |raw|;
  }

  /** Reading a header gives back what encode wrote, and both sides build the same nonce. */
  lemma HeaderRoundTrip(suite: Suite, key: Key, id: u64, counter: u64, plaintext: seq<byte>)
    requires suite.SealOpens() && Encoded(suite, key, id, counter, plaintext).Some?
    ensures var b := Encoded(suite, key, id, counter, plaintext).value;
            && |b| == |plaintext| + 32 <= MAX_DATAGRAM
            && Peeked(b) == Some(id) && ReadU64(b[8..16]) == counter && NonceOf(b) == BuildNonce(counter)
            && Some(b[TUNNEL_HEADER_SIZE..]) == suite.seal(key, BuildNonce(counter), plaintext)
  {
    HeaderFields(BigEndian(id, 8), BigEndian(counter, 8), suite.seal(key, BuildNonce(counter), plaintext).value);
    U64ReadsBack(id);
    U64ReadsBack(counter);
  }

  lemma U64ReadsBack(v: u64)
    ensures ReadU64(BigEndian(v, 8)) == v
  {
    ReadBack64(v);
  }

  lemma HeaderFields(a: seq<byte>, b: seq<byte>, c: seq<byte>)
    requires |a| == 8 && |b| == 8
    ensures var s := a + b + c; Peeked(s) == Some(ReadU64(a)) && ReadU64(s[8..16]) == ReadU64(b) && s[16..] == c
  {
    ThreeParts(a, b, c);
  }

  lemma ThreeParts(a: seq<byte>, b: seq<byte>, c: seq<byte>)
    requires |a| == 8 && |b| == 8
    ensures var s := a + b + c; s[..8] == a && s[8..16] == b && s[16..] == c
  {
  }

  lemma DatagramRoundTrip(suite: Suite, key: Key, id: u64, counter: u64, plaintext: seq<byte>)
    requires suite.SealOpens() && Encoded(suite, key, id, counter, plaintext).Some?
    ensures Decoded(suite, key, Encoded(suite, key, id, counter, plaintext).value) == Some(plaintext)
  {
    HeaderRoundTrip(suite, key, id, counter, plaintext);
  }

  /**
   * The whole pipeline under paired keys: a packet of 1 to 65499 bytes that the AEAD could seal comes out
   * byte for byte, with its session id readable on the way; longer ones are reported as dropped.
   */
  lemma PipelineRoundTrip(suite: Suite, codec: Codec, key: Key, id: u64, counter: u64, raw: seq<byte>)
    requires suite.SealOpens() && codec.Lawful() && raw != []
    ensures |raw| > 65499 ==> Outbound(suite, codec, key, id, counter, raw) == None
    ensures Outbound(suite, codec, key, id, counter, raw).Some? ==>
              var b := Outbound(suite, codec, key, id, counter, raw).value;
              && Peeked(b) == Some(id) && Inbound(suite, codec, key, b) == Some(raw)
              && |b| <= |raw| + 37 && |b| <= MAX_DATAGRAM
    ensures |raw| <= 65499 ==>
              (Outbound(suite, codec, key, id, counter, raw).Some?
               <==> suite.seal(key, BuildNonce(counter), Compressed(codec, raw, MAX_PLAINTEXT)).Some?)
  {
    DroppedExactly(codec, raw);
    if Outbound(suite, codec, key, id, counter, raw).Some? {
      var c := Compressed(codec, raw, MAX_PLAINTEXT);
      HeaderRoundTrip(suite, key, id, counter, c);
      DatagramRoundTrip(suite, key, id, counter, c);
      CompressRoundTrip(codec, raw, MAX_PLAINTEXT, MAX_PLAINTEXT);
    }
  }

  /** Whatever arrives, what is written to the TUN has between 1 and 65504 bytes. */
  lemma InboundBounds(suite: Suite, codec: Codec, key: Key, b: seq<byte>)
    ensures Inbound(suite, codec, key, b).Some? ==>
              1 <= |Inbound(suite, codec, key, b).value| <= MAX_PLAINTEXT && 32 <= |b| <= MAX_DATAGRAM
  {
  }

  // ---- the same on buffers ----

  /** memcpy(dst + at, s, |s|). */
  method Copy(dst: array<byte>, at: nat, s: seq<byte>)
    requires at + |s| <= dst.Length
    modifies dst
    ensures dst[..at] == old(dst[..at]) && dst[at..at + |s|] == s
    ensures forall i :: at + |s| <= i < dst.Length ==> dst[i] == old(dst[i])
  {
    forall i | 0 <= i < |s| {
      dst[at + i] := s[i];
    }
  }

  /** ZSTD_compress and ZSTD_decompress into dst + at with the given capacity: the bytes written, or an error. */
  method IntoBuffer(dst: array<byte>, at: nat, capacity: nat, z: Option<seq<byte>>) returns (n: Option<nat>)
    requires at + capacity <= dst.Length
    modifies dst
    ensures Fitting(z, capacity).None? ==> n == None && dst[..] == old(dst[..])
    ensures Fitting(z, capacity).Some? ==> n == Some(|z.value|) && dst[at..at + |z.value|] == z.value
    ensures dst[..at] == old(dst[..at]) && forall i :: at + capacity <= i < dst.Length ==> dst[i] == old(dst[i])
  {
    if z.None? || |z.value| > capacity {
      return None;
    }
    Copy(dst, at, z.value);
    n := Some(|z.value|);
  }

  method Compress(codec: Codec, raw: array<byte>, rawLen: nat, out: array<byte>, capacity: nat) returns (n: nat)
    requires rawLen <= raw.Length && capacity <= out.Length && raw != out
    modifies out
    ensures n == |Compressed(codec, raw[..rawLen], capacity)| && out[..n] == Compressed(codec, raw[..rawLen], capacity)
    ensures out[capacity..] == old(out[capacity..])
  {
    if capacity < COMPRESS_HEADER_SIZE {
      return 0;
    }
    var room := capacity - COMPRESS_HEADER_SIZE;
    var compressedLen := 0;
    if codec.bound(rawLen) <= room {
      var r := IntoBuffer(out, COMPRESS_HEADER_SIZE, room, codec.compress(raw[..rawLen]));
      if r.Some? {
        compressedLen := r.value;
      }
    }
    if 0 < compressedLen < rawLen {
      ghost var z := codec.compress(raw[..rawLen]).value;
      assert out[COMPRESS_HEADER_SIZE..COMPRESS_HEADER_SIZE + compressedLen] == z;
      assert forall i :: 0 <= i < |z| ==> out[COMPRESS_HEADER_SIZE + i] == z[i];
      Copy(out, 0, [FLAG_ZSTD] + BigEndian(rawLen, 4));
      assert out[COMPRESS_HEADER_SIZE..COMPRESS_HEADER_SIZE + compressedLen] == z;
      n := COMPRESS_HEADER_SIZE + compressedLen;
      assert out[..n] == out[..COMPRESS_HEADER_SIZE] + out[COMPRESS_HEADER_SIZE..n];
      return;
    }
    if rawLen > room {
      return 0;
    }
    Copy(out, 0, [FLAG_NONE] + Zeros(4));
    Copy(out, COMPRESS_HEADER_SIZE, raw[..rawLen]);
    n := COMPRESS_HEADER_SIZE + rawLen;
  }

  method Decompress(codec: Codec, input: array<byte>, inLen: nat, out: array<byte>, capacity: nat) returns (n: nat)
    requires inLen <= input.Length && capacity <= out.Length && input != out
    modifies out
    ensures var d := Decompressed(codec, input[..inLen], capacity); n == |d| && out[..n] == d
    ensures out[capacity..] == old(out[capacity..])
  {
    if inLen < COMPRESS_HEADER_SIZE {
      return 0;
    }
    ghost var b := input[..inLen];
    var payload := input[COMPRESS_HEADER_SIZE..inLen];
    assert payload == b[COMPRESS_HEADER_SIZE..];
    if input[0] == FLAG_NONE {
      if |payload| > capacity {
        return 0;
      }
      Copy(out, 0, payload);
      return |payload|;
    }
    if input[0] == FLAG_ZSTD {
      assert input[1..5] == b[1..5];
      var original := FromBigEndian(input[1..5]);
      if original > capacity {
        return 0;
      }
      var r := IntoBuffer(out, 0, capacity, codec.decompress(payload));
      if r.None? || r.value != original {
        return 0;
      }
      return r.value;
    }
    return 0;
  }

  /** tunnel_packet_encode, with crypto_encrypt_packet: `out` needs 32 bytes more than the plaintext. */
  method Encode(suite: Suite, key: Key, id: u64, counter: u64, plaintext: array<byte>, len: nat, out: array<byte>)
    returns (n: Option<nat>)
    requires suite.SealOpens()
    requires len <= plaintext.Length && plaintext != out
    requires len <= MAX_PLAINTEXT ==> len + 32 <= out.Length
    modifies out
    ensures var e := Encoded(suite, key, id, counter, plaintext[..len]);
            match e
            case None => n == None
            case Some(b) => n == Some(|b|) && |b| == len + 32 && out[..|b|] == b && out[|b|..] == old(out[|b|..])
  {
    if len > MAX_PLAINTEXT {
      return None;
    }
    Copy(out, 0, BigEndian(id, 8));
    Copy(out, 8, BigEndian(counter, 8));
    assert out[..16] == BigEndian(id, 8) + BigEndian(counter, 8);
    var sealed := suite.seal(key, BuildNonce(counter), plaintext[..len]);
    if sealed.None? {
      return None;
    }
    assert |sealed.value| == len + TAG_SIZE;
    Copy(out, TUNNEL_HEADER_SIZE, sealed.value);
    n := Some(TUNNEL_HEADER_SIZE + |sealed.value|);
    assert out[..TUNNEL_HEADER_SIZE + |sealed.value|] == out[..16] + sealed.value;
  }

  method PeekSessionId(buffer: array<byte>, len: nat) returns (id: Option<u64>)
    requires len <= buffer.Length
    ensures id == Peeked(buffer[..len])
  {
    if len < TUNNEL_HEADER_SIZE {
      return None;
    }
    assert buffer[..len][..8] == buffer[..8];
    id := Some(ReadU64(buffer[..8]));
  }

  /** tunnel_packet_decode, with crypto_decrypt_packet: the plaintext takes 32 bytes less than the datagram. */
  method Decode(suite: Suite, key: Key, buffer: array<byte>, len: nat, out: array<byte>) returns (n: Option<nat>)
    requires suite.SealOpens()
    requires len <= buffer.Length && buffer != out
    requires 32 <= len <= MAX_DATAGRAM ==> len - 32 <= out.Length
    modifies out
    ensures match Decoded(suite, key, buffer[..len])
            case None => n == None
            case Some(p) => n == Some(|p|) && |p| + 32 == len && out[..|p|] == p && out[|p|..] == old(out[|p|..])
  {
    if len < TUNNEL_HEADER_SIZE + TAG_SIZE || len > MAX_DATAGRAM {
      return None;
    }
    ghost var b := buffer[..len];
    assert b[8..16] == buffer[8..16] && b[TUNNEL_HEADER_SIZE..] == buffer[TUNNEL_HEADER_SIZE..len];
    var plain := suite.unseal(key, BuildNonce(ReadU64(buffer[8..16])), buffer[TUNNEL_HEADER_SIZE..len]);
    if plain.None? {
      return None;
    }
    assert len - TUNNEL_HEADER_SIZE == |plain.value| + TAG_SIZE;
    Copy(out, 0, plain.value);
    n := Some(|plain.value|);
  }

  /** What both receive loops do with a datagram: the packet for the TUN, if any. */
  method Open(suite: Suite, codec: Codec, key: Key, buffer: array<byte>, len: nat,
              plaintext: array<byte>, decompressed: array<byte>) returns (packet: Option<seq<byte>>)
    requires suite.SealOpens()
    requires len <= buffer.Length && plaintext.Length == MAX_DATAGRAM && decompressed.Length == MAX_PLAINTEXT
    requires buffer != plaintext && plaintext != decompressed && buffer != decompressed
    modifies plaintext, decompressed
    ensures packet == Inbound(suite, codec, key, buffer[..len])
  {
    var n := Decode(suite, key, buffer, len, plaintext);
    if n.None? {
      return None;
    }
    var m := Decompress(codec, plaintext, n.value, decompressed, MAX_PLAINTEXT);
    if m == 0 {
      return None;
    }
    packet := Some(decompressed[..m]);
  }
}
