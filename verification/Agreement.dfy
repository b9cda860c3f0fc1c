/**
 Two sessions in conversation: who holds the floor sends on its chain, the other side turns
 the Diffie-Hellman ratchet when the first message of the turn arrives, reads, and answers.
 */
module Agreement {
  import opened Wrappers
  import opened SymbolicCrypto
  import opened DoubleRatchet
  import opened SkippedKeys
  import opened Session
  import opened X3dh
  import OutOfOrder
  import AnyPayload

  /** One turn: the messages read before answering, later ones lost, and the answerer's new key. */
  datatype Turn = Turn(read: seq<Message>, unread: seq<Message>, answerKey: PrivateKey)

  function SendAll(state: SessionState, ms: seq<Message>): (r: Result<(seq<EncryptedPayload>, SessionState), Error>)
    ensures r.Ok? ==> |r.value.0| == |ms|
    decreases |ms|
  {
    if ms == [] then Ok(([], state))
    else
      match EncryptWithSession(state, ms[0])
      case Err(e) => Err(e)
      case Ok((payload, next)) =>
        match SendAll(next, ms[1..])
        case Err(e) => Err(e)
        case Ok((rest, last)) => Ok(([payload] + rest, last))
  }

  /** Reads payloads in order; `ms` supplies the associated data agreed for each. */
  function ReadAll(state: SessionState, payloads: seq<EncryptedPayload>, ms: seq<Message>)
    : Result<(seq<Bytes>, SessionState), Error>
    requires |payloads| == |ms|
    decreases |ms|
  {
    if ms == [] then Ok(([], state))
    else
      match DecryptWithSession(state, payloads[0], ms[0].ad)
      case Err(e) => Err(e)
      case Ok((plaintext, next)) =>
        match ReadAll(next, payloads[1..], ms[1..])
        case Err(e) => Err(e)
        case Ok((rest, last)) => Ok(([plaintext] + rest, last))
  }

  // ---------- what one side alone does ----------

  lemma {:induction false} SendAllSeals(state: SessionState, ms: seq<Message>)
    requires state.sendingChain.Some?
    ensures SendAll(state, ms).Ok?
    ensures SendAll(state, ms).value.0 == EncryptAll(state.sendingChain.value, ms).0
    ensures SendAll(state, ms).value.1
         == state.(sendingChain := Some(EncryptAll(state.sendingChain.value, ms).1),
                   skippedStore := if ms == [] then state.skippedStore else null)
    decreases |ms|
  {
    if ms != [] {
      SendAllSeals(EncryptWithSession(state, ms[0]).value.1, ms[1..]);
    }
  }

  lemma ReadOneOpens(state: SessionState, chain: ChainKey, payloads: seq<EncryptedPayload>, ms: seq<Message>)
    requires state.receivingChain == Some(chain) && SealedAlong(chain, payloads, ms) && ms != []
    ensures DecryptWithSession(state, payloads[0], ms[0].ad)
         == Ok((ms[0].plaintext, state.(receivingChain := Some(AdvanceChainKey(chain)))))
    ensures SealedAlong(AdvanceChainKey(chain), payloads[1..], ms[1..])
  {
    SealedSuffix(chain, payloads, ms, 1);
    assert Steps(chain, 1) == AdvanceChainKey(chain) && Steps(chain, 0) == chain;
  }

  /** A receiving chain at the sender's position reads back everything sealed along it. */
  lemma {:induction false} ReadAllOpens(state: SessionState, chain: ChainKey, payloads: seq<EncryptedPayload>,
                                        ms: seq<Message>)
    requires state.receivingChain == Some(chain) && SealedAlong(chain, payloads, ms)
    ensures ReadAll(state, payloads, ms)
         == Ok((Plaintexts(ms), state.(receivingChain := Some(Steps(chain, |ms|)))))
    decreases |ms|
  {
    if ms != [] {
      var next := state.(receivingChain := Some(AdvanceChainKey(chain)));
      ReadOneOpens(state, chain, payloads, ms);
      ReadAllOpens(next, AdvanceChainKey(chain), payloads[1..], ms[1..]);
      ReadAllCons(state, next, payloads, ms);
      StepsTail(chain, |ms| - 1);
    }
  }

  lemma ReadAllCons(state: SessionState, next: SessionState, payloads: seq<EncryptedPayload>, ms: seq<Message>)
    requires |payloads| == |ms| && ms != []
    requires DecryptWithSession(state, payloads[0], ms[0].ad) == Ok((ms[0].plaintext, next))
    requires ReadAll(next, payloads[1..], ms[1..]).Ok?
    ensures ReadAll(state, payloads, ms).Ok?
    ensures ReadAll(state, payloads, ms).value.0 == [ms[0].plaintext] + ReadAll(next, payloads[1..], ms[1..]).value.0
    ensures ReadAll(state, payloads, ms).value.1 == ReadAll(next, payloads[1..], ms[1..]).value.1
  {
  }

  // ---------- the two sides together ----------

  /** The speaker's root is one derivation ahead, by a secret the listener can compute too. */
  ghost predicate Paired(speaker: SessionState, listener: SessionState) {
    && speaker.myDhPublic == PublicOf(speaker.myDhPrivate)
    && listener.myDhPublic == PublicOf(listener.myDhPrivate)
    && var (root, chain) := DeriveRootAndChain(X25519(listener.myDhPrivate, speaker.myDhPublic), listener.rootKey);
       speaker.rootKey == root && speaker.sendingChain == Some(ChainKey(chain, 0))
  }

  /** A finished turn: the new speaker, the new listener, and what was read. */
  datatype TurnEnd = TurnEnd(speaker: SessionState, listener: SessionState, read: seq<Bytes>)

  function TakeTurn(speaker: SessionState, listener: SessionState, t: Turn): Result<TurnEnd, Error>
  {
    match SendAll(speaker, t.read + t.unread)
    case Err(e) => Err(e)
    case Ok((payloads, spoken)) =>
      var turned := AdvanceDhRatchet(listener, speaker.myDhPublic, t.answerKey);
      match ReadAll(turned, payloads[..|t.read|], t.read)
      case Err(e) => Err(e)
      case Ok((read, answering)) => Ok(TurnEnd(answering, spoken, read))
  }

  function Converse(speaker: SessionState, listener: SessionState, turns: seq<Turn>): Result<seq<TurnEnd>, Error>
    decreases |turns|
  {
    if turns == [] then Ok([])
    else
      match TakeTurn(speaker, listener, turns[0])
      case Err(e) => Err(e)
      case Ok(end) =>
        match Converse(end.speaker, end.listener, turns[1..])
        case Err(e) => Err(e)
        case Ok(rest) => Ok([end] + rest)
  }

  /** Turning the ratchet meets the speaker's chain and hands the lead to the listener. */
  lemma RatchetMeets(speaker: SessionState, listener: SessionState, answerKey: PrivateKey)
    requires Paired(speaker, listener)
    ensures AdvanceDhRatchet(listener, speaker.myDhPublic, answerKey).receivingChain == speaker.sendingChain
    ensures Paired(AdvanceDhRatchet(listener, speaker.myDhPublic, answerKey), speaker)
  {
    DhCommutes(answerKey, speaker.myDhPrivate);
  }

  /** The turn read what was sent and left the sides paired the other way round. */
  ghost predicate EndsWell(t: Turn, end: TurnEnd) {
    end.read == Plaintexts(t.read) && Paired(end.speaker, end.listener)
  }

  lemma TurnSucceeds(speaker: SessionState, listener: SessionState, t: Turn)
    requires Paired(speaker, listener)
    ensures TakeTurn(speaker, listener, t).Ok?
    ensures EndsWell(t, TakeTurn(speaker, listener, t).value)
  {
    var ms, chain := t.read + t.unread, speaker.sendingChain.value;
    var payloads := EncryptAll(chain, ms).0;
    RatchetMeets(speaker, listener, t.answerKey);
    SendAllSeals(speaker, ms);
    EncryptAllSeals(chain, ms);
    assert SealedAlong(chain, payloads[..|t.read|], t.read);
    ReadAllOpens(AdvanceDhRatchet(listener, speaker.myDhPublic, t.answerKey), chain, payloads[..|t.read|], t.read);
  }

  lemma ConverseCons(speaker: SessionState, listener: SessionState, turns: seq<Turn>, end: TurnEnd)
    requires turns != [] && TakeTurn(speaker, listener, turns[0]) == Ok(end)
    requires Converse(end.speaker, end.listener, turns[1..]).Ok?
    ensures Converse(speaker, listener, turns) == Ok([end] + Converse(end.speaker, end.listener, turns[1..]).value)
  {
  }

  /** However many turns: every message read is the message sent, and the lead keeps alternating. */
  lemma {:induction false} ConversationAgrees(speaker: SessionState, listener: SessionState, turns: seq<Turn>)
    requires Paired(speaker, listener)
    ensures Converse(speaker, listener, turns).Ok?
    ensures var ends := Converse(speaker, listener, turns).value;
      |ends| == |turns| && forall k :: 0 <= k < |turns| ==> EndsWell(turns[k], ends[k])
    decreases |turns|
  {
    if turns != [] {
      TurnSucceeds(speaker, listener, turns[0]);
      var end := TakeTurn(speaker, listener, turns[0]).value;
      ConversationAgrees(end.speaker, end.listener, turns[1..]);
      ConverseCons(speaker, listener, turns, end);
    }
  }

  /** Sessions set up from one key agreement are paired, whatever keys they generate. */
  lemma AgreementPairs(alice: PrivateKey, ephemeral: PrivateKey, bob: PreKeySecrets,
                       aliceSession: PrivateKey, bobSession: PrivateKey)
    ensures var secretA := X3dhInitiator(alice, Publish(bob), ephemeral).2;
      var secretB := X3dhResponder(bob, PublicOf(alice), PublicOf(ephemeral));
      Paired(InitializeInitiator(secretA, PublicOf(bobSession), aliceSession),
             InitializeResponder(secretB, bobSession))
  {
    AgreementIffSamePrekey(alice, ephemeral, bob, bob.oneTimePrekey);
    DhCommutes(aliceSession, bobSession);
  }

  /** End to end: from the prekey bundle through any number of turns. */
  lemma WholeConversation(alice: PrivateKey, ephemeral: PrivateKey, bob: PreKeySecrets,
                          aliceSession: PrivateKey, bobSession: PrivateKey, turns: seq<Turn>)
    ensures var a := InitializeInitiator(X3dhInitiator(alice, Publish(bob), ephemeral).2, PublicOf(bobSession),
                                         aliceSession);
      var b := InitializeResponder(X3dhResponder(bob, PublicOf(alice), PublicOf(ephemeral)), bobSession);
      && Converse(a, b, turns).Ok?
      && |Converse(a, b, turns).value| == |turns|
      && forall k :: 0 <= k < |turns| ==> EndsWell(turns[k], Converse(a, b, turns).value[k])
  {
    AgreementPairs(alice, ephemeral, bob, aliceSession, bobSession);
    ConversationAgrees(
      InitializeInitiator(X3dhInitiator(alice, Publish(bob), ephemeral).2, PublicOf(bobSession), aliceSession),
      InitializeResponder(X3dhResponder(bob, PublicOf(alice), PublicOf(ephemeral)), bobSession), turns);
  }

  // ---------- out-of-order receipt inside a turn ----------

  /** The chain a turn is sent on, as the out-of-order receiver sees it. */
  function TurnConfig(speaker: SessionState, limits: Limits, ms: seq<Message>): OutOfOrder.Config
    requires speaker.sendingChain.Some?
  {
    OutOfOrder.Config(speaker.sendingChain.value.key, speaker.myDhPublic, limits, ms)
  }

  /**
   In any turn the listener may read out of order instead, with an emptied store or one that
   serves other chains: whatever arrives when, an accepted arrival is the message sent there.
   */
  lemma TurnOutOfOrder(speaker: SessionState, listener: SessionState, answerKey: PrivateKey, ms: seq<Message>,
                       limits: Limits, entries: seq<Entry>, events: seq<OutOfOrder.Event>, i: nat)
    requires Paired(speaker, listener) && limits.maxSkip >= 1 && limits.ttl > 0.0
    requires Distinct(entries) && |entries| <= limits.maxSkip
    requires forall e :: e in entries ==> e.dh != speaker.myDhPublic
    requires OutOfOrder.AllAdmissible(TurnConfig(speaker, limits, ms), events) && i < |events|
    ensures var cfg := TurnConfig(speaker, limits, ms);
      var chain := AdvanceDhRatchet(listener, speaker.myDhPublic, answerKey).receivingChain.value;
      && SendAll(speaker, ms).Ok?
      && (forall n :: 0 <= n < |ms| ==> n < |SendAll(speaker, ms).value.0|
                                        && SendAll(speaker, ms).value.0[n] == cfg.PayloadAt(n))
      && (OutOfOrder.AcceptedAt(cfg, Receiver(chain, entries), events, i) ==>
            OutOfOrder.OutcomeAt(cfg, Receiver(chain, entries), events, i) == Ok(ms[events[i].counter].plaintext))
  {
    var cfg := TurnConfig(speaker, limits, ms);
    RatchetMeets(speaker, listener, answerKey);
    SendAllSeals(speaker, ms);
    EncryptAllSeals(cfg.Start(), ms);
    var start := Receiver(cfg.Start(), entries);
    assert OutOfOrder.InStep(cfg, start, {});
    if OutOfOrder.AcceptedAt(cfg, start, events, i) {
      OutOfOrder.AcceptedIsGenuine(cfg, start, events, i);
    }
  }

  // ---------- keys over the whole conversation ----------

  /** How many root derivations stand behind a key; a chain step adds none. */
  function RootDepth(key: Key): nat {
    match key
    case HkdfBlock(_, salt, _, _) => 1 + RootDepth(salt)
    case HmacOutput(inner, _) => RootDepth(inner)
    case _ => 0
  }

  lemma {:induction false} StepsKeepRootDepth(chain: ChainKey, n: nat)
    ensures RootDepth(Steps(chain, n).key) == RootDepth(chain.key)
  {
    if n > 0 {
      StepsKeepRootDepth(chain, n - 1);
    }
  }

  /** The sending chain of turn `k`. */
  function TurnChain(speaker: SessionState, ends: seq<TurnEnd>, k: nat): Option<ChainKey>
    requires k <= |ends|
  {
    if k == 0 then speaker.sendingChain else ends[k - 1].speaker.sendingChain
  }

  lemma PairDepth(speaker: SessionState, listener: SessionState)
    requires Paired(speaker, listener)
    ensures RootDepth(speaker.rootKey) == RootDepth(listener.rootKey) + 1
    ensures RootDepth(speaker.sendingChain.value.key) == RootDepth(listener.rootKey) + 1
  {
  }

  /** Who spoke listens next, with the root it spoke under. */
  lemma SpeakerListens(speaker: SessionState, listener: SessionState, t: Turn)
    requires Paired(speaker, listener)
    ensures TakeTurn(speaker, listener, t).Ok?
    ensures var end := TakeTurn(speaker, listener, t).value;
      Paired(end.speaker, end.listener) && end.listener.rootKey == speaker.rootKey
  {
    TurnSucceeds(speaker, listener, t);
    SendAllSeals(speaker, t.read + t.unread);
  }

  lemma LaterTurn(speaker: SessionState, end: TurnEnd, rest: seq<TurnEnd>, k: nat)
    requires 1 <= k <= |rest| + 1
    ensures TurnChain(speaker, [end] + rest, k) == TurnChain(end.speaker, rest, k - 1)
  {
  }

  lemma {:induction false} TurnDepth(speaker: SessionState, listener: SessionState, turns: seq<Turn>, k: nat)
    requires Paired(speaker, listener) && k < |turns|
    ensures Converse(speaker, listener, turns).Ok? && |Converse(speaker, listener, turns).value| == |turns|
    ensures var chain := TurnChain(speaker, Converse(speaker, listener, turns).value, k);
      chain.Some? && RootDepth(chain.value.key) == RootDepth(listener.rootKey) + 1 + k
    decreases k
  {
    ConversationAgrees(speaker, listener, turns);
    PairDepth(speaker, listener);
    if k > 0 {
      var end, before: nat := TakeTurn(speaker, listener, turns[0]).value, k - 1;
      SpeakerListens(speaker, listener, turns[0]);
      TurnDepth(end.speaker, end.listener, turns[1..], before);
      ConverseCons(speaker, listener, turns, end);
      LaterTurn(speaker, end, Converse(end.speaker, end.listener, turns[1..]).value, k);
    }
  }

  /** No two messages of a conversation share a key, within a turn or across turns. */
  lemma ConversationKeysDistinct(speaker: SessionState, listener: SessionState, turns: seq<Turn>,
                                 j: nat, n: nat, k: nat, m: nat)
    requires Paired(speaker, listener) && j < |turns| && k < |turns|
    ensures Converse(speaker, listener, turns).Ok? && |Converse(speaker, listener, turns).value| == |turns|
    ensures var ends := Converse(speaker, listener, turns).value;
      var a, b := TurnChain(speaker, ends, j), TurnChain(speaker, ends, k);
      && a.Some? && b.Some?
      && (DeriveMessageKey(Steps(a.value, n)) == DeriveMessageKey(Steps(b.value, m)) <==> j == k && n == m)
  {
    TurnDepth(speaker, listener, turns, j);
    TurnDepth(speaker, listener, turns, k);
    var ends := Converse(speaker, listener, turns).value;
    var a, b := TurnChain(speaker, ends, j).value, TurnChain(speaker, ends, k).value;
    StepsKeepRootDepth(a, n);
    StepsKeepRootDepth(b, m);
    MessageKeysDistinct(a, n, m);
  }

  /** So a payload opens at one place of the conversation only: its own, and there with its own data. */
  lemma OpensOnlyInPlace(speaker: SessionState, listener: SessionState, turns: seq<Turn>,
                         j: nat, n: nat, k: nat, m: nat, message: Message, ad: Option<Bytes>)
    requires Paired(speaker, listener) && j < |turns| && k < |turns|
    ensures Converse(speaker, listener, turns).Ok? && |Converse(speaker, listener, turns).value| == |turns|
    ensures var ends := Converse(speaker, listener, turns).value;
      var a, b := TurnChain(speaker, ends, j), TurnChain(speaker, ends, k);
      && a.Some? && b.Some?
      && var payload := EncryptMessage(Steps(a.value, n), message).0;
         DecryptMessage(Steps(b.value, m), payload, ad).Ok?
         <==> j == k && n == m && AuthenticatedBytes(ad) == AuthenticatedBytes(message.ad)
  {
    ConversationKeysDistinct(speaker, listener, turns, j, n, k, m);
  }

  /** In particular, what other turns leave in a shared store is foreign to this turn's chain. */
  lemma OtherTurnsAreForeign(speaker: SessionState, listener: SessionState, turns: seq<Turn>,
                             j: nat, k: nat, m: nat, dh: PublicKey, limits: Limits, sent: seq<Message>)
    requires Paired(speaker, listener) && j < |turns| && k < |turns| && j != k
    ensures Converse(speaker, listener, turns).Ok? && |Converse(speaker, listener, turns).value| == |turns|
    ensures var ends := Converse(speaker, listener, turns).value;
      var a, b := TurnChain(speaker, ends, j), TurnChain(speaker, ends, k);
      && a.Some? && b.Some?
      && AnyPayload.ForeignKey(OutOfOrder.Config(a.value.key, dh, limits, sent), DeriveMessageKey(Steps(b.value, m)))
  {
    TurnDepth(speaker, listener, turns, j);
    TurnDepth(speaker, listener, turns, k);
    var ends := Converse(speaker, listener, turns).value;
    var a, b := TurnChain(speaker, ends, j).value, TurnChain(speaker, ends, k).value;
    var cfg := OutOfOrder.Config(a.key, dh, limits, sent);
    StepsKeepRootDepth(b, m);
    forall n: nat
      ensures DeriveMessageKey(Steps(b, m)) != cfg.KeyAt(n)
    {
      StepsKeepRootDepth(cfg.Start(), n);
    }
  }

  // ---------- what a ratchet step depends on ----------

  lemma SharedByPair(a: PrivateKey, p: PublicKey, b: PrivateKey, q: PublicKey)
    ensures X25519(a, p) == X25519(b, q) <==> (a.id == b.id && p == q) || (a.id == q.id && p.id == b.id)
  {
  }

  /** The receiving chain depends on the root, the session's key pair and the peer's key, and on nothing
      else; the new root and the sending chain depend on the new key pair besides. */
  lemma RatchetEqualIff(s: SessionState, p: PublicKey, k: PrivateKey, t: SessionState, q: PublicKey, l: PrivateKey)
    ensures var a, b := AdvanceDhRatchet(s, p, k), AdvanceDhRatchet(t, q, l);
      var same := s.rootKey == t.rootKey && X25519(s.myDhPrivate, p) == X25519(t.myDhPrivate, q);
      && (a.receivingChain == b.receivingChain <==> same)
      && (a.sendingChain == b.sendingChain <==> same && X25519(k, p) == X25519(l, q))
      && (a.rootKey == b.rootKey <==> same && X25519(k, p) == X25519(l, q))
  {
    var a, b := AdvanceDhRatchet(s, p, k), AdvanceDhRatchet(t, q, l);
    assert a.receivingChain == b.receivingChain ==>
             a.receivingChain.value.key.ikm[0] == b.receivingChain.value.key.ikm[0];
    assert a.sendingChain == b.sendingChain ==> a.sendingChain.value.key.ikm[0] == b.sendingChain.value.key.ikm[0];
    assert a.rootKey == b.rootKey ==> a.rootKey.ikm[0] == b.rootKey.ikm[0];
    assert a.sendingChain.value.key.salt == a.rootKey.salt && b.sendingChain.value.key.salt == b.rootKey.salt;
    assert a.rootKey.salt == b.rootKey.salt ==> a.rootKey.salt.ikm[0] == b.rootKey.salt.ikm[0];
  }

  /** For one session: another peer key gives other chains and another root, another new key another
      sending chain and root; no chain key is the root or the other chain's key. */
  lemma RatchetTurnsOnKeys(s: SessionState, p: PublicKey, k: PrivateKey, q: PublicKey, l: PrivateKey)
    ensures var a, b := AdvanceDhRatchet(s, p, k), AdvanceDhRatchet(s, q, l);
      && (a.receivingChain == b.receivingChain <==> p == q)
      && (a.sendingChain == b.sendingChain <==> p == q && k == l)
      && (a.rootKey == b.rootKey <==> p == q && k == l)
      && a.receivingChain.Some? && a.sendingChain.Some?
      && a.receivingChain.value.key != a.rootKey && a.sendingChain.value.key != a.rootKey
      && a.sendingChain.value.key != a.receivingChain.value.key
  {
    RatchetEqualIff(s, p, k, s, q, l);
    SharedByPair(s.myDhPrivate, p, s.myDhPrivate, q);
    SharedByPair(k, p, l, p);
    var a := AdvanceDhRatchet(s, p, k);
    assert RootDepth(a.sendingChain.value.key) == RootDepth(a.receivingChain.value.key) + 1;
  }

  /** An initiator's chain and root depend on the agreed secret and on both key pairs. */
  lemma InitiatorEqualIff(secret: Key, peer: PublicKey, sk: PrivateKey, secret2: Key, peer2: PublicKey, sk2: PrivateKey)
    ensures var a, b := InitializeInitiator(secret, peer, sk), InitializeInitiator(secret2, peer2, sk2);
      var same := secret == secret2 && X25519(sk, peer) == X25519(sk2, peer2);
      && (a.sendingChain == b.sendingChain <==> same) && (a.rootKey == b.rootKey <==> same)
      && a.sendingChain.Some? && a.sendingChain.value.key != a.rootKey
  {
    var a, b := InitializeInitiator(secret, peer, sk), InitializeInitiator(secret2, peer2, sk2);
    assert a.sendingChain == b.sendingChain ==> a.sendingChain.value.key.ikm[0] == b.sendingChain.value.key.ikm[0];
    assert a.rootKey == b.rootKey ==> a.rootKey.ikm[0] == b.rootKey.ikm[0];
  }

  /** What the key agreement derives is never what a ratchet derives. */
  lemma AgreedIsNotRatcheted(dhs: seq<Key>, dh: Key, root: Key)
    ensures KdfX3dh(dhs) != DeriveRootAndChain(dh, root).0 && KdfX3dh(dhs) != DeriveRootAndChain(dh, root).1
  {
    assert X3DH_INFO[9] != ROOT_KEY_INFO[9];
  }
}
