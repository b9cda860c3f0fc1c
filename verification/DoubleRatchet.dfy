/** The symmetric-key ratchet of app/crypto/double_ratchet.py. */
module DoubleRatchet {
  import opened Wrappers
  import opened SymbolicCrypto

  const MESSAGE_KEY_SEED: bv8 := 0x01
  const CHAIN_KEY_SEED: bv8 := 0x02

  datatype ChainKey = ChainKey(key: Key, counter: nat)

  /** A plaintext together with the associated data both sides pass for it. */
  datatype Message = Message(plaintext: Bytes, ad: Option<Bytes>)

  function DeriveMessageKey(chain: ChainKey): Key {
    HmacOutput(chain.key, MESSAGE_KEY_SEED)
  }

  function AdvanceChainKey(chain: ChainKey): ChainKey {
    ChainKey(HmacOutput(chain.key, CHAIN_KEY_SEED), chain.counter + 1)
  }

  function RatchetChain(chain: ChainKey): (Key, ChainKey) {
    (DeriveMessageKey(chain), AdvanceChainKey(chain))
  }

  function EncryptMessage(chain: ChainKey, m: Message): (EncryptedPayload, ChainKey) {
    var (mk, next) := RatchetChain(chain);
    (AesGcmEncrypt(mk, m.plaintext, m.ad), next)
  }

  function DecryptMessage(chain: ChainKey, payload: EncryptedPayload, ad: Option<Bytes>)
    : Result<(Bytes, ChainKey), Error>
  {
    var (mk, next) := RatchetChain(chain);
    match AesGcmDecrypt(mk, payload, ad)
    case Ok(plaintext) => Ok((plaintext, next))
    case Err(e) => Err(e)
  }

  /** The chain after `n` more steps. */
  function Steps(chain: ChainKey, n: nat): ChainKey {
    if n == 0 then chain else AdvanceChainKey(Steps(chain, n - 1))
  }

  function EncryptAll(chain: ChainKey, ms: seq<Message>): (seq<EncryptedPayload>, ChainKey)
    decreases |ms|
  {
    if ms == [] then ([], chain)
    else
      var (first, next) := EncryptMessage(chain, ms[0]);
      var (rest, last) := EncryptAll(next, ms[1..]);
      ([first] + rest, last)
  }

  lemma {:induction false} StepsCompose(chain: ChainKey, a: nat, b: nat)
    ensures Steps(Steps(chain, a), b) == Steps(chain, a + b)
  {
    if b > 0 {
      StepsCompose(chain, a, b - 1);
    }
  }

  lemma {:induction false} StepsCount(chain: ChainKey, n: nat)
    ensures Steps(chain, n).counter == chain.counter + n
  {
    if n > 0 {
      StepsCount(chain, n - 1);
    }
  }

  /** How many times a key was fed through HMAC; it grows by one at each chain step. */
  function HmacDepth(key: Key): nat {
    match key
    case HmacOutput(inner, _) => 1 + HmacDepth(inner)
    case _ => 0
  }

  lemma {:induction false} StepsDepth(chain: ChainKey, n: nat)
    ensures HmacDepth(Steps(chain, n).key) == HmacDepth(chain.key) + n
  {
    if n > 0 {
      StepsDepth(chain, n - 1);
    }
  }

  /** No two positions of a chain ever share a message key. */
  lemma MessageKeysDistinct(chain: ChainKey, i: nat, j: nat)
    ensures DeriveMessageKey(Steps(chain, i)) == DeriveMessageKey(Steps(chain, j)) <==> i == j
  {
    StepsDepth(chain, i);
    StepsDepth(chain, j);
  }

  /** A message key is never a key of the chain, so it does not give later keys away. */
  lemma MessageKeyIsNoChainKey(chain: ChainKey, i: nat, j: nat)
    ensures DeriveMessageKey(Steps(chain, i)) != Steps(chain, j).key
  {
    StepsDepth(chain, i);
    StepsDepth(chain, j);
    if j > 0 {
      assert Steps(chain, j).key == HmacOutput(Steps(chain, j - 1).key, CHAIN_KEY_SEED);
    }
  }

  function Plaintexts(ms: seq<Message>): seq<Bytes> {
    if ms == [] then [] else [ms[0].plaintext] + Plaintexts(ms[1..])
  }

  lemma StepsTail(chain: ChainKey, n: nat)
    ensures Steps(AdvanceChainKey(chain), n) == Steps(chain, n + 1)
  {
    StepsCompose(chain, 1, n);
    assert Steps(chain, 1) == AdvanceChainKey(chain);
  }

  /** Payload `n` is message `n` sealed under the message key `n` steps along the chain. */
  predicate SealedAlong(chain: ChainKey, payloads: seq<EncryptedPayload>, ms: seq<Message>) {
    && |payloads| == |ms|
    && forall n :: 0 <= n < |ms| ==>
         payloads[n] == AesGcmEncrypt(DeriveMessageKey(Steps(chain, n)), ms[n].plaintext, ms[n].ad)
  }

  lemma SealedSuffix(chain: ChainKey, payloads: seq<EncryptedPayload>, ms: seq<Message>, k: nat)
    requires SealedAlong(chain, payloads, ms) && k <= |ms|
    ensures SealedAlong(Steps(chain, k), payloads[k..], ms[k..])
  {
    forall n | 0 <= n < |ms| - k
      ensures Steps(Steps(chain, k), n) == Steps(chain, k + n)
    {
      StepsCompose(chain, k, n);
    }
  }

  lemma SealedExtends(chain: ChainKey, m: Message, payloads: seq<EncryptedPayload>, ms: seq<Message>)
    requires SealedAlong(AdvanceChainKey(chain), payloads, ms)
    ensures SealedAlong(chain, [EncryptMessage(chain, m).0] + payloads, [m] + ms)
  {
    var allPayloads, all := [EncryptMessage(chain, m).0] + payloads, [m] + ms;
    forall n | 0 <= n < |all|
      ensures allPayloads[n] == AesGcmEncrypt(DeriveMessageKey(Steps(chain, n)), all[n].plaintext, all[n].ad)
    {
      if n > 0 {
        StepsTail(chain, n - 1);
        assert allPayloads[n] == payloads[n - 1] && all[n] == ms[n - 1];
      }
    }
  }

  lemma {:induction false} EncryptAllSeals(chain: ChainKey, ms: seq<Message>)
    ensures SealedAlong(chain, EncryptAll(chain, ms).0, ms)
    ensures EncryptAll(chain, ms).1 == Steps(chain, |ms|)
    decreases |ms|
  {
    if ms != [] {
      var next := AdvanceChainKey(chain);
      EncryptAllSeals(next, ms[1..]);
      SealedExtends(chain, ms[0], EncryptAll(next, ms[1..]).0, ms[1..]);
      assert [ms[0]] + ms[1..] == ms;
      StepsTail(chain, |ms| - 1);
    }
  }
}
