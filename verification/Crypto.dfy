/** Keys, the primitives taken from libsodium as a suite of functions, and the crypto context. */
module Crypto {
  import opened Bytes

  type Key = s: seq<byte> | |s| == 32 witness seq(32, _ => 0)
  type Secret = s: seq<byte> | |s| == 64 witness seq(64, _ => 0)
  type Signature = s: seq<byte> | |s| == 64 witness seq(64, _ => 0)
  type AeadNonce = s: seq<byte> | |s| == 12 witness seq(12, _ => 0)

  const TAG_SIZE: nat := 16

  /**
   * The primitives, as arbitrary functions. `exchange` and `seal` may fail, as the library calls may.
   * `split` is the hash of (shared secret, client public, server public), cut in two halves.
   */
  datatype Suite = Suite(
    identityPublic: Secret -> Key,
    sign: (Secret, seq<byte>) -> Option<Signature>,
    verify: (Key, seq<byte>, Signature) -> bool,
    ephPublic: Key -> Key,
    exchange: (Key, Key) -> Option<Key>,
    split: (Key, Key, Key) -> (Key, Key),
    seal: (Key, AeadNonce, seq<byte>) -> Option<seq<byte>>,
    unseal: (Key, AeadNonce, seq<byte>) -> Option<seq<byte>>)
  {
    /** Section 5.1 of RFC 8032: a signature made with the secret verifies under its public key. */
    ghost predicate SignaturesVerify() {
      forall sk, m {:trigger sign(sk, m)} ::
        sign(sk, m).Some? && verify(identityPublic(sk), m, sign(sk, m).value)
    }

    /** Section 6.1 of RFC 7748: both sides of an honest exchange compute the same secret. */
    ghost predicate ExchangeCommutes() {
      forall a, b {:trigger exchange(a, ephPublic(b))} ::
        exchange(a, ephPublic(b)).Some? && exchange(a, ephPublic(b)) == exchange(b, ephPublic(a))
    }

    /** Section 2.8 of RFC 8439: the tag adds 16 bytes, and what was sealed opens again. */
    ghost predicate SealOpens() {
      && (forall k, n, p {:trigger seal(k, n, p)} :: seal(k, n, p).Some? ==>
            |seal(k, n, p).value| == |p| + TAG_SIZE && unseal(k, n, seal(k, n, p).value) == Some(p))
      && (forall k, n, c {:trigger unseal(k, n, c)} :: unseal(k, n, c).Some? ==>
            |c| == |unseal(k, n, c).value| + TAG_SIZE)
    }

    ghost predicate Lawful() {
      SignaturesVerify() && ExchangeCommutes() && SealOpens()
    }
  }

  /** CRYPTO_CONTEXT_T. */
  datatype CryptoContext = CryptoContext(
    privateKey: Secret,
    ephPrivate: Key,
    publicKey: Key,
    peerPublic: Key,
    txKey: Key,
    rxKey: Key,
    ephPublic: Key,
    txNonce: u64,
    rxNonce: u64,
    verified: bool)

  const EMPTY_CONTEXT: CryptoContext :=
    CryptoContext(Zeros(64), Zeros(32), Zeros(32), Zeros(32), Zeros(32), Zeros(32), Zeros(32), 0, 0, false)

  /** crypto_derive_client_keys: the first half of the split is received with, the second sent with. */
  function DeriveClientKeys(suite: Suite, ctx: CryptoContext, serverEph: Key): Option<CryptoContext> {
    match suite.exchange(ctx.ephPrivate, serverEph)
    case None => None
    case Some(shared) =>
      var halves := suite.split(shared, ctx.ephPublic, serverEph);
      Some(ctx.(rxKey := halves.0, txKey := halves.1))
  }

  /** crypto_derive_server_keys: the same halves, the other way round. */
  function DeriveServerKeys(suite: Suite, ctx: CryptoContext, clientEph: Key): Option<CryptoContext> {
    match suite.exchange(ctx.ephPrivate, clientEph)
    case None => None
    case Some(shared) =>
      var halves := suite.split(shared, clientEph, ctx.ephPublic);
      Some(ctx.(rxKey := halves.1, txKey := halves.0))
  }

  /** crypto_build_nonce: a zero fixed field and the counter, section 3.2 of RFC 5116. */
  function BuildNonce(counter: nat): AeadNonce {
    Zeros(4) + BigEndian(counter, 8)
  }

  /** Two counters share a nonce exactly when they agree modulo 2^64. */
  lemma NonceCollision(a: nat, b: nat)
    ensures BuildNonce(a) == BuildNonce(b) <==> a % TWO_TO_THE_64 == b % TWO_TO_THE_64
  {
    ReadBack64(a);
    ReadBack64(b);
    WriteBack(BigEndian(a, 8));
    WriteBack(BigEndian(b, 8));
    assert BuildNonce(a)[4..] == BigEndian(a, 8);
    assert BuildNonce(b)[4..] == BigEndian(b, 8);
  }

  // ---- a suite that obeys the laws, so that they are not vacuous ----

  function Fit(s: seq<byte>, n: nat): (r: seq<byte>)
    ensures |r| == n
    ensures |s| == n ==> r == s
  {
    if |s| >= n then s[..n] else s + Zeros(n - |s|)
  }

  function AddBytes(a: Key, b: Key): Key {
    seq(32, i requires 0 <= i < 32 => (a[i] as int + b[i] as int) % 256)
  }

  function ToySeal(k: Key, n: AeadNonce, p: seq<byte>): Option<seq<byte>> {
    Some(p + k[..4] + n)
  }

  function ToyUnseal(k: Key, n: AeadNonce, c: seq<byte>): Option<seq<byte>> {
    if |c| >= TAG_SIZE && c[|c| - TAG_SIZE..] == k[..4] + n then Some(c[..|c| - TAG_SIZE]) else None
  }

  const TOY_SUITE: Suite := Suite(
    (sk: Secret) => sk[..32],
    (sk: Secret, m: seq<byte>) => Some(sk[..32] + Fit(m, 32)),
    (pk: Key, m: seq<byte>, sig: Signature) => sig == pk + Fit(m, 32),
    (a: Key) => a,
    (a: Key, b: Key) => Some(AddBytes(a, b)),
    (shared: Key, c: Key, s: Key) => (c, s),
    (k: Key, n: AeadNonce, p: seq<byte>) => ToySeal(k, n, p),
    (k: Key, n: AeadNonce, c: seq<byte>) => ToyUnseal(k, n, c))

  lemma ToySuiteIsLawful()
    ensures TOY_SUITE.Lawful()
  {
    forall a: Key, b: Key ensures AddBytes(a, b) == AddBytes(b, a) {}
    forall k: Key, n: AeadNonce, p: seq<byte>
      ensures ToyUnseal(k, n, ToySeal(k, n, p).value) == Some(p)
    {
      var c := ToySeal(k, n, p).value;
      assert c == p + (k[..4] + n);
      assert c[|c| - TAG_SIZE..] == k[..4] + n && c[..|c| - TAG_SIZE] == p;
    }
  }
}
