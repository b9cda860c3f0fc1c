/** The group sender keys of app/crypto/sender_keys.py. */
module SenderKeys {
  import opened Wrappers
  import opened SymbolicCrypto
  import opened DoubleRatchet

  datatype SenderKeyState = SenderKeyState(senderId: string, chain: ChainKey, signingPublicKey: PublicKey)

  datatype SenderKeyDistribution = SenderKeyDistribution(
    senderId: string,
    chainKey: Key,
    counter: nat,
    signingPublicKey: PublicKey)

  /** An empty sender id is refused wherever a state or a distribution is built. */
  function CreateSenderKey(senderId: string, chainKey: Key, signing: PublicKey, counter: nat): Option<SenderKeyState> {
    if senderId == "" then None else Some(SenderKeyState(senderId, ChainKey(chainKey, counter), signing))
  }

  function EncryptGroupMessage(state: SenderKeyState, m: Message): (EncryptedPayload, SenderKeyState) {
    var (payload, next) := EncryptMessage(state.chain, m);
    (payload, state.(chain := next))
  }

  function DecryptGroupMessage(state: SenderKeyState, payload: EncryptedPayload, ad: Option<Bytes>)
    : Result<(Bytes, SenderKeyState), Error>
  {
    match DecryptMessage(state.chain, payload, ad)
    case Err(e) => Err(e)
    case Ok((plaintext, next)) => Ok((plaintext, state.(chain := next)))
  }

  function BuildDistribution(state: SenderKeyState): SenderKeyDistribution {
    SenderKeyDistribution(state.senderId, state.chain.key, state.chain.counter, state.signingPublicKey)
  }

  function ApplyDistribution(d: SenderKeyDistribution): Option<SenderKeyState> {
    CreateSenderKey(d.senderId, d.chainKey, d.signingPublicKey, d.counter)
  }

  function Broadcast(state: SenderKeyState, ms: seq<Message>): (seq<EncryptedPayload>, SenderKeyState)
    decreases |ms|
  {
    if ms == [] then ([], state)
    else
      var (payload, next) := EncryptGroupMessage(state, ms[0]);
      var (rest, last) := Broadcast(next, ms[1..]);
      ([payload] + rest, last)
  }

  function Follow(state: SenderKeyState, payloads: seq<EncryptedPayload>, ms: seq<Message>)
    : Result<(seq<Bytes>, SenderKeyState), Error>
    requires |payloads| == |ms|
    decreases |ms|
  {
    if ms == [] then Ok(([], state))
    else
      match DecryptGroupMessage(state, payloads[0], ms[0].ad)
      case Err(e) => Err(e)
      case Ok((plaintext, next)) =>
        match Follow(next, payloads[1..], ms[1..])
        case Err(e) => Err(e)
        case Ok((rest, last)) => Ok(([plaintext] + rest, last))
  }

  lemma {:induction false} BroadcastSeals(state: SenderKeyState, ms: seq<Message>)
    ensures Broadcast(state, ms).0 == EncryptAll(state.chain, ms).0
    ensures SealedAlong(state.chain, Broadcast(state, ms).0, ms)
    ensures Broadcast(state, ms).1 == state.(chain := Steps(state.chain, |ms|))
    decreases |ms|
  {
    EncryptAllSeals(state.chain, ms);
    if ms != [] {
      var next := EncryptGroupMessage(state, ms[0]).1;
      BroadcastSeals(next, ms[1..]);
      StepsTail(state.chain, |ms| - 1);
    }
  }

  /** A member at the sender's position reads everything sealed along the chain. */
  lemma {:induction false} FollowReads(state: SenderKeyState, payloads: seq<EncryptedPayload>, ms: seq<Message>)
    requires SealedAlong(state.chain, payloads, ms)
    ensures Follow(state, payloads, ms) == Ok((Plaintexts(ms), state.(chain := Steps(state.chain, |ms|))))
    decreases |ms|
  {
    if ms != [] {
      SealedSuffix(state.chain, payloads, ms, 1);
      assert Steps(state.chain, 1) == AdvanceChainKey(state.chain) && Steps(state.chain, 0) == state.chain;
      FollowReads(state.(chain := AdvanceChainKey(state.chain)), payloads[1..], ms[1..]);
      StepsTail(state.chain, |ms| - 1);
    }
  }

  lemma DistributionRoundTrip(state: SenderKeyState)
    requires state.senderId != ""
    ensures ApplyDistribution(BuildDistribution(state)) == Some(state)
  {
  }

  lemma LaterReads(state: SenderKeyState, ms: seq<Message>, k: nat, later: SenderKeyState)
    requires k <= |ms| && later == state.(chain := Steps(state.chain, k))
    ensures |Broadcast(state, ms).0| == |ms|
    ensures Follow(later, Broadcast(state, ms).0[k..], ms[k..]) == Ok((Plaintexts(ms[k..]), Broadcast(state, ms).1))
  {
    BroadcastSeals(state, ms);
    SealedSuffix(state.chain, Broadcast(state, ms).0, ms, k);
    FollowReads(later, Broadcast(state, ms).0[k..], ms[k..]);
    StepsCompose(state.chain, k, |ms| - k);
  }

  /** A member who joins after `k` of the messages reads all later ones and ends level with the sender. */
  lemma LateJoiner(state: SenderKeyState, ms: seq<Message>, k: nat)
    requires state.senderId != "" && k <= |ms|
    ensures |Broadcast(state, ms).0| == |ms|
    ensures var joined := ApplyDistribution(BuildDistribution(Broadcast(state, ms[..k]).1));
      && joined.Some?
      && Follow(joined.value, Broadcast(state, ms).0[k..], ms[k..])
         == Ok((Plaintexts(ms[k..]), Broadcast(state, ms).1))
  {
    BroadcastSeals(state, ms[..k]);
    var later := Broadcast(state, ms[..k]).1;
    DistributionRoundTrip(later);
    LaterReads(state, ms, k, later);
  }

  /** Members who joined at different times end in equal states. */
  lemma JoinersAgree(state: SenderKeyState, ms: seq<Message>, j: nat, k: nat)
    requires state.senderId != "" && j <= |ms| && k <= |ms|
    ensures |Broadcast(state, ms).0| == |ms|
    ensures var first := ApplyDistribution(BuildDistribution(Broadcast(state, ms[..j]).1));
      var second := ApplyDistribution(BuildDistribution(Broadcast(state, ms[..k]).1));
      && first.Some? && second.Some?
      && var a := Follow(first.value, Broadcast(state, ms).0[j..], ms[j..]);
         var b := Follow(second.value, Broadcast(state, ms).0[k..], ms[k..]);
         a.Ok? && b.Ok? && a.value.1 == b.value.1
  {
    LateJoiner(state, ms, j);
    LateJoiner(state, ms, k);
  }
}
