/** Symbolic cryptography.  Keys are terms, so two keys are equal exactly when they were
    derived in the same way, and the all-zero key is different from every derived key. */
module Crypto {

  const TWO_32: int := 0x1_0000_0000

  type uint32 = n: int | 0 <= n < TWO_32

  type Bytes = seq<bv8>

  datatype Option<+T> = None | Some(value: T)

  datatype Result<+T, +E> = Ok(value: T) | Err(error: E)

  datatype Error =
    | ErrInvalidPrekeySignature
    | ErrMissingOneTimeKey
    | ErrInvalidRemoteKey
    | ErrDuplicateMessage
    | ErrDecryptionFailed
    | ErrLowOrderPoint

  /** A 32-byte public value: the public key of a scalar, or one of the points that
      X25519 refuses.  The all-zero array is among the latter. */
  datatype Point = LowOrder(tag: nat) | Pub(scalar: nat)

  const ZERO_POINT: Point := LowOrder(0)

  datatype KeyPair = KeyPair(priv: nat, pub: Point)

  /** The key pair drawn from a random seed. */
  function GenerateX25519KeyPair(seed: nat): KeyPair {
    KeyPair(seed, Pub(seed))
  }

  /** A Diffie-Hellman output: an unordered pair of scalars. */
  datatype Shared = Shared(lo: nat, hi: nat)

  function Dh(a: nat, b: nat): Shared {
    if a <= b then Shared(a, b) else Shared(b, a)
  }

  function X25519(scalar: nat, p: Point): Result<Shared, Error> {
    match p
    case LowOrder(_) => Err(ErrLowOrderPoint)
    case Pub(s) => Ok(Dh(scalar, s))
  }

  // Ed25519.  A verification key of the wrong length is kept apart.

  datatype VerifyKey = VerifyKey(signer: nat) | WrongLength(bytes: Bytes)

  datatype Signature = Signature(signer: nat, signed: Point) | Forged(bytes: Bytes)

  predicate Verifies(key: VerifyKey, point: Point, sig: Signature) {
    key.VerifyKey? && sig == Signature(key.signer, point)
  }

  datatype Key =
    | Zero
    | X3Root(secret: seq<Shared>)
    | X3Chain(secret: seq<Shared>)
    | RootOut(root: Key, dh: Shared)
    | ChainOut(root: Key, dh: Shared)
    | Next(chain: Key)
    | Msg(chain: Key)

  /** The n-fold chain step. */
  function Iter(k: Key, n: nat): Key {
    if n == 0 then k else Next(Iter(k, n - 1))
  }

  lemma {:induction false} IterInjective(k1: Key, k2: Key, n: nat)
    requires Iter(k1, n) == Iter(k2, n)
    ensures k1 == k2
  {
    if n > 0 {
      IterInjective(k1, k2, n - 1);
    }
  }

  lemma {:induction false} IterSum(k: Key, m: nat, n: nat)
    ensures Iter(Iter(k, m), n) == Iter(k, m + n)
  {
    if n > 0 {
      IterSum(k, m, n - 1);
    }
  }

  /** uint32 increment, with wrap-around. */
  function Inc(i: uint32): uint32 {
    (i + 1) % TWO_32
  }

  // AEAD.  The cipher key and the nonce are both derived from the message key.

  datatype CipherKey = CipherKey(mk: Key)

  datatype Nonce = NonceOf(mk: Key) | OtherNonce(tag: nat)

  datatype Header = Header(dhPublic: Point, pn: uint32, n: uint32, nonce: Nonce)

  /** The associated data: a fixed-width coding of the three fields, hence injective. */
  datatype AssociatedData = AssociatedData(dhPublic: Point, pn: uint32, n: uint32)

  function AssociatedDataOf(h: Header): AssociatedData {
    AssociatedData(h.dhPublic, h.pn, h.n)
  }

  datatype Ciphertext =
    | Sealed(key: CipherKey, nonce: Nonce, ad: AssociatedData, plaintext: Bytes)
    | Garbage(bytes: Bytes)

  function Seal(mk: Key, ad: AssociatedData, plaintext: Bytes): Ciphertext {
    Sealed(CipherKey(mk), NonceOf(mk), ad, plaintext)
  }

  /** Opening succeeds only under the key, nonce and associated data used to seal. */
  function Open(mk: Key, ad: AssociatedData, ct: Ciphertext): Result<Bytes, Error> {
    if ct.Sealed? && ct.key == CipherKey(mk) && ct.nonce == NonceOf(mk) && ct.ad == ad
    then Ok(ct.plaintext)
    else Err(ErrDecryptionFailed)
  }
}
