/**
 The primitives of app/crypto/e2ee.py as terms: two terms are equal exactly when the
 program would compute the same bytes from the same inputs by the same calls.
 */
module SymbolicCrypto {
  import opened Wrappers

  type Bytes = seq<bv8>

  datatype PrivateKey = PrivateKey(id: nat)

  datatype PublicKey = PublicKey(id: nat)

  /** A 32-byte value used as keying material. */
  datatype Key =
    | Secret(id: nat)                                                  // given from outside
    | Repeated(byte: bv8)                                              // one byte value, 32 times
    | DhOutput(low: nat, high: nat)                                    // X25519, in canonical order
    | HkdfBlock(ikm: seq<Key>, salt: Key, info: string, index: nat)    // 32-byte output block, RFC 5869
    | HmacOutput(key: Key, data: bv8)                                  // HMAC-SHA256 of one byte

  function PublicOf(sk: PrivateKey): PublicKey {
    PublicKey(sk.id)
  }

  function X25519(sk: PrivateKey, peer: PublicKey): Key {
    if sk.id <= peer.id then DhOutput(sk.id, peer.id) else DhOutput(peer.id, sk.id)
  }

  lemma DhCommutes(a: PrivateKey, b: PrivateKey)
    ensures X25519(a, PublicOf(b)) == X25519(b, PublicOf(a))
  {
  }

  /** AES-GCM authenticates a missing `associated_data` exactly as an empty one. */
  function AuthenticatedBytes(ad: Option<Bytes>): Bytes {
    match ad
    case None => []
    case Some(bytes) => bytes
  }

  datatype EncryptedPayload = Sealed(key: Key, ad: Bytes, plaintext: Bytes)

  datatype Error =
    | InvalidTag
    | NoSendingChain
    | NoReceivingChain
    | NoSkippedStore
    | CounterBehindChain
    | TooManySkipped
    | NegativeCounter
    | BadMaxSkip
    | BadTtl
    | DeviceFault

  function AesGcmEncrypt(key: Key, plaintext: Bytes, ad: Option<Bytes>): EncryptedPayload {
    Sealed(key, AuthenticatedBytes(ad), plaintext)
  }

  function AesGcmDecrypt(key: Key, payload: EncryptedPayload, ad: Option<Bytes>): Result<Bytes, Error> {
    if payload.key == key && payload.ad == AuthenticatedBytes(ad) then Ok(payload.plaintext) else Err(InvalidTag)
  }
}
