/** Bytes, the fixed-width integer encodings of the wire formats, and Option. */
module Bytes {

  datatype Option<+T> = None | Some(value: T)

  type byte = n: int | 0 <= n < 256

  const TWO_TO_THE_32: nat := 0x1_0000_0000
  const TWO_TO_THE_64: nat := 0x1_0000_0000_0000_0000

  type u64 = n: int | 0 <= n < TWO_TO_THE_64

  function Zeros(n: nat): (s: seq<byte>)
    ensures |s| == n && forall i :: 0 <= i < n ==> s[i] == 0
  {
    seq(n, _ => 0)
  }

  function Pow256(width: nat): (p: nat)
    ensures p > 0
  {
    if width == 0 then 1 else 256 * Pow256(width - 1)
  }

  /** The low `width` bytes of n, most significant first (htonl, htobe32, htobe64). */
  function BigEndian(n: nat, width: nat): (s: seq<byte>)
    ensures |s| == width
  {
    if width == 0 then [] else BigEndian(n / 256, width - 1) + [n % 256]
  }

  /** The reader for BigEndian (ntohl, be32toh, be64toh). */
  function FromBigEndian(s: seq<byte>): (n: nat)
    ensures n < Pow256(|s|)
  {
    if s == [] then 0 else FromBigEndian(s[..|s| - 1]) * 256 + s[|s| - 1]
  }

  /** A host-order integer image: the peers are assumed little-endian. */
  function HostOrder(n: nat, width: nat): (s: seq<byte>)
    ensures |s| == width
  {
    var b := BigEndian(n, width);
    seq(width, i requires 0 <= i < width => b[width - 1 - i])
  }

  function FromHostOrder(s: seq<byte>): nat {
    FromBigEndian(seq(|s|, i requires 0 <= i < |s| => s[|s| - 1 - i]))
  }

  lemma {:induction false} ReadBack(n: nat, width: nat)
    ensures FromBigEndian(BigEndian(n, width)) == n % Pow256(width)
  {
    if width > 0 {
      ReadBack(n / 256, width - 1);
      var s := BigEndian(n, width);
      assert s[..width - 1] == BigEndian(n / 256, width - 1);
      SplitModulus(n, Pow256(width - 1));
    }
  }

  lemma SplitModulus(n: nat, m: nat)
    requires m > 0
    ensures n % (256 * m) == (n / 256) % m * 256 + n % 256
  {
    var q, r := n / 256, n % 256;
    var k, t := q / m, q % m;
    assert n == k * (256 * m) + (t * 256 + r) by {
      assert q == k * m + t;
      assert (k * m + t) * 256 == k * (256 * m) + t * 256;
    }
    assert t * 256 + r < 256 * m;
    UniqueRemainder(n, 256 * m, k, t * 256 + r);
  }

  lemma UniqueRemainder(n: nat, d: nat, q: nat, r: nat)
    requires d > 0 && r < d && n == q * d + r
    ensures n % d == r
  {
    var e := n / d - q;
    assert e * d == r - n % d by {
      assert n == (n / d) * d + n % d;
    }
    SmallMultiple(e, d);
  }

  lemma SmallMultiple(e: int, d: nat)
    ensures e >= 1 ==> e * d >= d
    ensures e <= -1 ==> e * d + d <= 0
  {
    if e >= 1 {
      assert (e - 1) * d >= 0;
    } else if e <= -1 {
      assert (-1 - e) * d >= 0;
    }
  }

  lemma {:induction false} WriteBack(s: seq<byte>)
    ensures BigEndian(FromBigEndian(s), |s|) == s
  {
    if s != [] {
      WriteBack(s[..|s| - 1]);
      LastByte(FromBigEndian(s[..|s| - 1]), s[|s| - 1]);
      assert s == s[..|s| - 1] + [s[|s| - 1]];
    }
  }

  lemma LastByte(n: nat, b: byte)
    ensures (n * 256 + b) / 256 == n && (n * 256 + b) % 256 == b
  {
  }

  lemma Widths()
    ensures Pow256(4) == TWO_TO_THE_32 && Pow256(8) == TWO_TO_THE_64
  {
    assert Pow256(2) == 256 * 256;
    assert Pow256(4) == 256 * (256 * Pow256(2));
    assert Pow256(6) == 256 * (256 * Pow256(4));
    assert Pow256(8) == 256 * (256 * Pow256(6));
  }

  /** What a 32-bit or 64-bit field reads back as. */
  lemma ReadBack32(n: nat)
    ensures FromBigEndian(BigEndian(n, 4)) == n % TWO_TO_THE_32
  {
    ReadBack(n, 4);
    Widths();
  }

  lemma ReadBack64(n: nat)
    ensures FromBigEndian(BigEndian(n, 8)) == n % TWO_TO_THE_64
  {
    ReadBack(n, 8);
    Widths();
  }

  lemma ReadBackHost64(n: nat)
    ensures FromHostOrder(HostOrder(n, 8)) == n % TWO_TO_THE_64
  {
    var b, h := BigEndian(n, 8), HostOrder(n, 8);
    assert seq(8, i requires 0 <= i < 8 => h[7 - i]) == b;
    ReadBack64(n);
  }

  // ---- the bytes by arithmetic ----

  /** The byte of weight w in n. */
  function Digit(n: nat, w: nat): byte
    requires w > 0
  {
    n / w % 256
  }

  lemma NextDigit(n: nat, w: nat)
    requires w > 0
    ensures Digit(n / 256, w) == Digit(n, 256 * w)
  {
    var m, k := n / 256, n / 256 / w;
    var r := (m % w) * 256 + n % 256;
    assert n == (k * w + m % w) * 256 + n % 256;
    assert n == k * (256 * w) + r && r < 256 * w;
    UniqueQuotient(n, 256 * w, k, r);
  }

  lemma UniqueQuotient(n: nat, d: nat, q: nat, r: nat)
    requires d > 0 && n == q * d + r && r < d
    ensures n / d == q
  {
    UniqueRemainder(n, d, q, r);
    assert n == (n / d) * d + r;
    assert (n / d - q) * d == 0;
    SmallMultiple(n / d - q, d);
  }

  /** BigEndian writes the digits in order of weight. */
  lemma {:induction false} DigitAt(n: nat, width: nat, i: nat)
    requires i < width
    ensures BigEndian(n, width)[i] == Digit(n, Pow256(width - 1 - i))
  {
    if i < width - 1 {
      DigitAt(n / 256, width - 1, i);
      NextDigit(n, Pow256(width - 2 - i));
    }
  }

  lemma Weights()
    ensures Pow256(0) == 1 && Pow256(1) == 0x100 && Pow256(2) == 0x1_0000 && Pow256(3) == 0x100_0000
    ensures Pow256(4) == 0x1_0000_0000 && Pow256(5) == 0x100_0000_0000
    ensures Pow256(6) == 0x1_0000_0000_0000 && Pow256(7) == 0x100_0000_0000_0000
  {
    assert Pow256(4) == 256 * Pow256(3);
    assert Pow256(7) == 256 * Pow256(6);
  }

  /** htonl and htobe32: the most significant byte first. */
  lemma FourBytes(n: nat)
    ensures BigEndian(n, 4) == [Digit(n, 0x100_0000), Digit(n, 0x1_0000), Digit(n, 0x100), Digit(n, 1)]
  {
    Weights();
    DigitAt(n, 4, 0);
    DigitAt(n, 4, 1);
    DigitAt(n, 4, 2);
    DigitAt(n, 4, 3);
  }

  /** htobe64. */
  lemma EightBytes(n: nat)
    ensures BigEndian(n, 8) == [Digit(n, 0x100_0000_0000_0000), Digit(n, 0x1_0000_0000_0000),
                                Digit(n, 0x100_0000_0000), Digit(n, 0x1_0000_0000),
                                Digit(n, 0x100_0000), Digit(n, 0x1_0000), Digit(n, 0x100), Digit(n, 1)]
  {
    Weights();
    forall i: nat | i < 8 ensures BigEndian(n, 8)[i] == Digit(n, Pow256(7 - i)) {
      DigitAt(n, 8, i);
    }
  }

  /** An integer in a struct: the least significant byte first. */
  lemma EightHostBytes(n: nat)
    ensures HostOrder(n, 8) == [Digit(n, 1), Digit(n, 0x100), Digit(n, 0x1_0000), Digit(n, 0x100_0000),
                                Digit(n, 0x1_0000_0000), Digit(n, 0x100_0000_0000),
                                Digit(n, 0x1_0000_0000_0000), Digit(n, 0x100_0000_0000_0000)]
  {
    EightBytes(n);
  }

  /** ntohl and be32toh. */
  lemma FourByteValue(s: seq<byte>)
    requires |s| == 4
    ensures FromBigEndian(s) == (s[0] as int) * 0x100_0000 + (s[1] as int) * 0x1_0000 + (s[2] as int) * 0x100 + s[3]
  {
    Append(s, 1);
    Append(s, 2);
    Append(s, 3);
    Append(s, 4);
    assert s[..4] == s && s[..0] == [];
  }

  lemma Append(s: seq<byte>, k: nat)
    requires 1 <= k <= |s|
    ensures FromBigEndian(s[..k]) == FromBigEndian(s[..k - 1]) * 256 + s[k - 1]
  {
    assert s[..k][..k - 1] == s[..k - 1];
  }
}
