/**
 The session of app/crypto/session.py: root key, Diffie-Hellman key pair, one sending and
 one receiving chain, and the attached store of skipped keys. Freshly generated key pairs
 and clock readings are parameters.
 */
module Session {
  import opened Wrappers
  import opened SymbolicCrypto
  import opened DoubleRatchet
  import opened SkippedKeys

  const MAX_SKIP_PER_CHAIN := 100
  const ROOT_KEY_INFO := "tootalk-ratchet-root-v1"

  datatype SessionState = SessionState(
    rootKey: Key,
    myDhPrivate: PrivateKey,
    myDhPublic: PublicKey,
    sendingChain: Option<ChainKey>,
    receivingChain: Option<ChainKey>,
    peerDhPublic: Option<PublicKey>,
    skippedStore: SkippedKeyStore?)

  /** 64 bytes of HKDF output: the first block is the next root, the second a chain key. */
  function DeriveRootAndChain(dhOutput: Key, currentRoot: Key): (Key, Key) {
    (HkdfBlock([dhOutput], currentRoot, ROOT_KEY_INFO, 0), HkdfBlock([dhOutput], currentRoot, ROOT_KEY_INFO, 1))
  }

  function InitializeInitiator(sharedSecret: Key, peer: PublicKey, mySk: PrivateKey): SessionState {
    var (root, chain) := DeriveRootAndChain(X25519(mySk, peer), sharedSecret);
    SessionState(root, mySk, PublicOf(mySk), Some(ChainKey(chain, 0)), None, Some(peer), null)
  }

  function InitializeResponder(sharedSecret: Key, mySk: PrivateKey): SessionState {
    SessionState(sharedSecret, mySk, PublicOf(mySk), None, None, None, null)
  }

  function AdvanceDhRatchet(state: SessionState, newPeer: PublicKey, newSk: PrivateKey): SessionState {
    var (rootAfterReceive, receiveKey) := DeriveRootAndChain(X25519(state.myDhPrivate, newPeer), state.rootKey);
    var (rootFinal, sendKey) := DeriveRootAndChain(X25519(newSk, newPeer), rootAfterReceive);
    SessionState(rootFinal, newSk, PublicOf(newSk), Some(ChainKey(sendKey, 0)), Some(ChainKey(receiveKey, 0)),
                 Some(newPeer), null)
  }

  /** The returned state is built without the store: whoever sends has to attach it again. */
  function EncryptWithSession(state: SessionState, m: Message): Result<(EncryptedPayload, SessionState), Error> {
    match state.sendingChain
    case None => Err(NoSendingChain)
    case Some(chain) =>
      var (payload, next) := EncryptMessage(chain, m);
      Ok((payload, state.(sendingChain := Some(next), skippedStore := null)))
  }

  function DecryptWithSession(state: SessionState, payload: EncryptedPayload, ad: Option<Bytes>)
    : Result<(Bytes, SessionState), Error>
  {
    match state.receivingChain
    case None => Err(NoReceivingChain)
    case Some(chain) =>
      match DecryptMessage(chain, payload, ad)
      case Err(e) => Err(e)
      case Ok((plaintext, next)) => Ok((plaintext, state.(receivingChain := Some(next))))
  }

  // ---------- out-of-order receipt ----------

  /** What a receiving side remembers of the chains it follows, as values. */
  datatype Receiver = Receiver(chain: ChainKey, entries: seq<Entry>)

  datatype Limits = Limits(maxSkip: nat, ttl: real)

  /** Where and when an arrival claims to belong. */
  datatype Header = Header(senderDh: PublicKey, counter: int, ad: Option<Bytes>, now: real)

  /** The store after filing the message keys from `chain` up to, not including, `target`. */
  function FileSkipped(entries: seq<Entry>, limits: Limits, chain: ChainKey, target: int, dh: PublicKey, now: real)
    : seq<Entry>
    decreases target - chain.counter
  {
    if chain.counter >= target then entries
    else
      var e := Entry(dh, chain.counter, DeriveMessageKey(chain), now + limits.ttl);
      FileSkipped(Put(entries, limits.maxSkip, e), limits, AdvanceChainKey(chain), target, dh, now)
  }

  /** One arrival: the receiver it leaves behind and the plaintext or the reason for refusal. */
  function Receive(r: Receiver, limits: Limits, h: Header, payload: EncryptedPayload)
    : (Receiver, Result<Bytes, Error>)
  {
    var looked := r.(entries := Without(r.entries, h.senderDh, h.counter));
    match Readable(r.entries, h.senderDh, h.counter, h.now)
    case Some(mk) => (looked, AesGcmDecrypt(mk, payload, h.ad))
    case None =>
      if h.counter < r.chain.counter then (looked, Err(CounterBehindChain))
      else if h.counter - r.chain.counter > MAX_SKIP_PER_CHAIN then (looked, Err(TooManySkipped))
      else
        var filed := looked.(entries := FileSkipped(looked.entries, limits, r.chain, h.counter, h.senderDh, h.now));
        var (mk, next) := RatchetChain(Steps(r.chain, h.counter - r.chain.counter));
        match AesGcmDecrypt(mk, payload, h.ad)
        case Err(e) => (filed, Err(e))
        case Ok(plaintext) => (filed.(chain := next), Ok(plaintext))
  }

  method SkipForwardChainKeys(chain: ChainKey, target: int, dh: PublicKey, store: SkippedKeyStore, now: real)
    returns (r: Result<ChainKey, Error>)
    requires store.Valid()
    modifies store
    ensures store.Valid()
    ensures target < chain.counter ==> r == Err(CounterBehindChain) && store.entries == old(store.entries)
    ensures target - chain.counter > MAX_SKIP_PER_CHAIN ==>
              r == Err(TooManySkipped) && store.entries == old(store.entries)
    ensures 0 <= target - chain.counter <= MAX_SKIP_PER_CHAIN ==>
              && r == Ok(Steps(chain, target - chain.counter))
              && r.value.counter == target
              && store.entries == FileSkipped(old(store.entries), Limits(store.maxSkip, store.ttlSeconds),
                                              chain, target, dh, now)
  {
    if target < chain.counter {
      return Err(CounterBehindChain);
    }
    if target - chain.counter > MAX_SKIP_PER_CHAIN {
      return Err(TooManySkipped);
    }
    var current := chain;
    ghost var limits := Limits(store.maxSkip, store.ttlSeconds);
    ghost var filed := FileSkipped(store.entries, limits, chain, target, dh, now);
    while current.counter < target
      invariant store.Valid()
      invariant chain.counter <= current.counter <= target
      invariant current == Steps(chain, current.counter - chain.counter)
      invariant FileSkipped(store.entries, limits, current, target, dh, now) == filed
    {
      var (mk, next) := RatchetChain(current);
      current := next;
      var _ := store.PutKey(dh, current.counter - 1, mk, now);
    }
    return Ok(current);
  }

  method DecryptWithSessionOoo(state: SessionState, payload: EncryptedPayload, h: Header)
    returns (r: Result<(Bytes, SessionState), Error>)
    requires state.skippedStore != null ==> state.skippedStore.Valid()
    modifies state.skippedStore
    ensures state.receivingChain.None? ==> r == Err(NoReceivingChain)
    ensures state.receivingChain.Some? && state.skippedStore == null ==> r == Err(NoSkippedStore)
    ensures state.receivingChain.None? && state.skippedStore != null ==> unchanged(state.skippedStore)
    ensures state.receivingChain.Some? && state.skippedStore != null ==>
              var store := state.skippedStore;
              var (after, outcome) := Receive(Receiver(state.receivingChain.value, old(store.entries)),
                                              Limits(store.maxSkip, store.ttlSeconds), h, payload);
              && store.Valid()
              && store.entries == after.entries
              && match outcome {
                   case Err(e) => r == Err(e)
                   case Ok(plaintext) => r == Ok((plaintext, state.(receivingChain := Some(after.chain))))
                 }
  {
    if state.receivingChain.None? {
      return Err(NoReceivingChain);
    }
    if state.skippedStore == null {
      return Err(NoSkippedStore);
    }
    var chain, store := state.receivingChain.value, state.skippedStore;
    var cached := store.GetKey(h.senderDh, h.counter, h.now);
    if cached.Some? {
      match AesGcmDecrypt(cached.value, payload, h.ad)
      case Err(e) => return Err(e);
      case Ok(plaintext) => return Ok((plaintext, state));
    }
    if h.counter < chain.counter {
      return Err(CounterBehindChain);
    }
    var advanced := SkipForwardChainKeys(chain, h.counter, h.senderDh, store, h.now);
    if advanced.Err? {
      return Err(advanced.error);
    }
    var (mk, next) := RatchetChain(advanced.value);
    match AesGcmDecrypt(mk, payload, h.ad)
    case Err(e) => return Err(e);
    case Ok(plaintext) => return Ok((plaintext, state.(receivingChain := Some(next))));
  }
}
