/** Sending one plaintext to every device of a user, app/crypto/fan_out.py, round after round. */
module FanOut {
  import opened Wrappers
  import opened SymbolicCrypto
  import opened DoubleRatchet
  import opened Session
  import opened Agreement

  /** One item of the ordered dictionary of sessions. */
  datatype Device = Device(id: string, state: SessionState)

  datatype Envelope = Envelope(deviceId: string, payload: Option<EncryptedPayload>, error: Option<Error>) {
    predicate Ok() {
      payload.Some? && error.None?
    }
  }

  datatype FanOutBatch = FanOutBatch(envelopes: seq<Envelope>, advanced: seq<Device>) {
    function Successes(): nat {
      CountOk(envelopes)
    }

    function Failures(): nat {
      CountFailed(envelopes)
    }

    function Total(): nat {
      |envelopes|
    }
  }

  function CountOk(es: seq<Envelope>): nat {
    if es == [] then 0 else (if es[0].Ok() then 1 else 0) + CountOk(es[1..])
  }

  function CountFailed(es: seq<Envelope>): nat {
    if es == [] then 0 else (if !es[0].Ok() then 1 else 0) + CountFailed(es[1..])
  }

  ghost predicate DistinctIds(ds: seq<Device>) {
    forall i, j :: 0 <= i < j < |ds| ==> ds[i].id != ds[j].id
  }

  /** What one round does to one device; `faults` are devices whose encryption raised for other reasons. */
  function Attempt(d: Device, m: Message, faults: set<string>): Result<(EncryptedPayload, SessionState), Error> {
    if d.id in faults then Err(DeviceFault) else EncryptWithSession(d.state, m)
  }

  function EnvelopeFor(d: Device, m: Message, faults: set<string>): Envelope {
    match Attempt(d, m, faults)
    case Ok((payload, _)) => Envelope(d.id, Some(payload), None)
    case Err(e) => Envelope(d.id, None, Some(e))
  }

  function Advanced(d: Device, m: Message, faults: set<string>): Device {
    match Attempt(d, m, faults)
    case Ok((_, state)) => Device(d.id, state)
    case Err(_) => d
  }

  /** Assignment to a dictionary: replaces in place, or appends a new key. */
  function Assign(ds: seq<Device>, d: Device): seq<Device> {
    if ds == [] then [d]
    else if ds[0].id == d.id then [d] + ds[1..]
    else [ds[0]] + Assign(ds[1..], d)
  }

  lemma {:induction false} AssignExisting(ds: seq<Device>, i: nat, d: Device)
    requires DistinctIds(ds) && i < |ds| && ds[i].id == d.id
    ensures Assign(ds, d) == ds[i := d]
  {
    if i > 0 {
      AssignExisting(ds[1..], i - 1, d);
      assert ds[i := d] == [ds[0]] + ds[1..][i - 1 := d];
    }
  }

  lemma {:induction false} CountsAppend(es: seq<Envelope>, e: Envelope)
    ensures CountOk(es + [e]) == CountOk(es) + if e.Ok() then 1 else 0
    ensures CountFailed(es + [e]) == CountFailed(es) + if e.Ok() then 0 else 1
  {
    if es == [] {
      assert es + [e] == [e];
    } else {
      CountsAppend(es[1..], e);
      assert (es + [e])[1..] == es[1..] + [e];
    }
  }

  /** The devices of `ds` that a round reaches, advanced, in order. */
  function Reached(ds: seq<Device>, m: Message, faults: set<string>): seq<Device> {
    if ds == [] then []
    else
      var last := ds[|ds| - 1];
      Reached(ds[..|ds| - 1], m, faults)
      + if Attempt(last, m, faults).Ok? then [Advanced(last, m, faults)] else []
  }

  /** What one round does to a device: without fault and with a sending chain it is sent the message under
      the key of its position and goes one step on; otherwise it gets the reason and stays. */
  ghost predicate Served(d: Device, m: Message, faults: set<string>, envelope: Envelope, after: Device) {
    && envelope.deviceId == d.id && after.id == d.id
    && if d.id !in faults && d.state.sendingChain.Some? then
         var chain := d.state.sendingChain.value;
         && envelope.error.None?
         && envelope.payload == Some(AesGcmEncrypt(DeriveMessageKey(chain), m.plaintext, m.ad))
         && after.state == d.state.(sendingChain := Some(AdvanceChainKey(chain)), skippedStore := null)
       else
         && envelope.payload.None? && after == d
         && envelope.error == Some(if d.id in faults then DeviceFault else NoSendingChain)
  }

  lemma RoundServes(d: Device, m: Message, faults: set<string>)
    ensures Served(d, m, faults, EnvelopeFor(d, m, faults), Advanced(d, m, faults))
  {
  }

  method EncryptFanOut(m: Message, sessions: seq<Device>, faults: set<string>) returns (batch: FanOutBatch)
    ensures batch.Total() == |sessions|
    ensures batch.Successes() + batch.Failures() == batch.Total()
    ensures forall i :: 0 <= i < |sessions| ==> batch.envelopes[i] == EnvelopeFor(sessions[i], m, faults)
    ensures batch.advanced == Reached(sessions, m, faults)
    ensures |batch.advanced| == batch.Successes()
  {
    var envelopes: seq<Envelope> := [];
    var advanced: seq<Device> := [];
    for i := 0 to |sessions|
      invariant |envelopes| == i
      invariant forall j :: 0 <= j < i ==> envelopes[j] == EnvelopeFor(sessions[j], m, faults)
      invariant advanced == Reached(sessions[..i], m, faults)
      invariant CountOk(envelopes) + CountFailed(envelopes) == i
      invariant |advanced| == CountOk(envelopes)
    {
      assert sessions[..i + 1][..i] == sessions[..i];
      var device := sessions[i];
      match Attempt(device, m, faults) {
        case Err(e) =>
          CountsAppend(envelopes, Envelope(device.id, None, Some(e)));
          envelopes := envelopes + [Envelope(device.id, None, Some(e))];
        case Ok((payload, state)) =>
          CountsAppend(envelopes, Envelope(device.id, Some(payload), None));
          envelopes := envelopes + [Envelope(device.id, Some(payload), None)];
          advanced := advanced + [Device(device.id, state)];
      }
    }
    assert sessions[..|sessions|] == sessions;
    return FanOutBatch(envelopes, advanced);
  }

  /** Every device after one round: advanced where its envelope is good, unchanged elsewhere. */
  function AfterRound(ds: seq<Device>, m: Message, faults: set<string>): (r: seq<Device>)
    ensures |r| == |ds|
    ensures forall i :: 0 <= i < |ds| ==> r[i] == Advanced(ds[i], m, faults)
  {
    seq(|ds|, i requires 0 <= i < |ds| => Advanced(ds[i], m, faults))
  }

  function AssignAll(ds: seq<Device>, updates: seq<Device>): seq<Device> {
    if updates == [] then ds
    else Assign(AssignAll(ds, updates[..|updates| - 1]), updates[|updates| - 1])
  }

  method RotateSession(sessions: seq<Device>, batch: FanOutBatch) returns (next: seq<Device>)
    ensures next == AssignAll(sessions, batch.advanced)
  {
    next := sessions;
    for i := 0 to |batch.advanced|
      invariant next == AssignAll(sessions, batch.advanced[..i])
    {
      assert batch.advanced[..i + 1][..i] == batch.advanced[..i];
      next := Assign(next, batch.advanced[i]);
    }
    assert batch.advanced[..|batch.advanced|] == batch.advanced;
  }

  lemma ReachedStep(ds: seq<Device>, m: Message, faults: set<string>, n: nat)
    requires 0 < n <= |ds|
    ensures Reached(ds[..n], m, faults)
         == Reached(ds[..n - 1], m, faults)
            + if Attempt(ds[n - 1], m, faults).Ok? then [Advanced(ds[n - 1], m, faults)] else []
    ensures Attempt(ds[n - 1], m, faults).Err? ==> Reached(ds[..n], m, faults) == Reached(ds[..n - 1], m, faults)
  {
    assert ds[..n][..n - 1] == ds[..n - 1];
  }

  lemma AssignAllStep(ds: seq<Device>, updates: seq<Device>, d: Device)
    ensures AssignAll(ds, updates + [d]) == Assign(AssignAll(ds, updates), d)
  {
    assert (updates + [d])[..|updates|] == updates;
  }

  /** The devices with the first `n` of them put through the round. */
  function Moved(ds: seq<Device>, m: Message, faults: set<string>, n: nat): (r: seq<Device>)
    requires n <= |ds|
    ensures |r| == |ds| && forall i :: 0 <= i < |ds| ==> r[i].id == ds[i].id
  {
    seq(|ds|, i requires 0 <= i < |ds| => if i < n then Advanced(ds[i], m, faults) else ds[i])
  }

  lemma MovedStep(ds: seq<Device>, m: Message, faults: set<string>, n: nat)
    requires 0 < n <= |ds|
    ensures Moved(ds, m, faults, 0) == ds
    ensures Moved(ds, m, faults, n) == Moved(ds, m, faults, n - 1)[n - 1 := Advanced(ds[n - 1], m, faults)]
    ensures Attempt(ds[n - 1], m, faults).Err? ==> Moved(ds, m, faults, n) == Moved(ds, m, faults, n - 1)
  {
  }

  lemma {:induction false} RotationMoves(ds: seq<Device>, m: Message, faults: set<string>, n: nat)
    requires DistinctIds(ds) && n <= |ds|
    ensures AssignAll(ds, Reached(ds[..n], m, faults)) == Moved(ds, m, faults, n)
  {
    if n == 0 {
      assert Moved(ds, m, faults, 0) == ds;
    } else {
      RotationMoves(ds, m, faults, n - 1);
      ReachedStep(ds, m, faults, n);
      MovedStep(ds, m, faults, n);
      if Attempt(ds[n - 1], m, faults).Ok? {
        var d := Advanced(ds[n - 1], m, faults);
        AssignAllStep(ds, Reached(ds[..n - 1], m, faults), d);
        AssignExisting(Moved(ds, m, faults, n - 1), n - 1, d);
      }
    }
  }

  /** A batch fed back by rotation moves exactly the reached devices and adds or drops none. */
  lemma RotationIsRound(ds: seq<Device>, m: Message, faults: set<string>)
    requires DistinctIds(ds)
    ensures AssignAll(ds, Reached(ds, m, faults)) == AfterRound(ds, m, faults)
  {
    RotationMoves(ds, m, faults, |ds|);
    assert ds[..|ds|] == ds;
    assert Moved(ds, m, faults, |ds|) == AfterRound(ds, m, faults);
  }

  // ---------- many rounds ----------

  datatype Round = Round(message: Message, faults: set<string>)

  method SendRound(round: Round, sessions: seq<Device>) returns (batch: FanOutBatch, next: seq<Device>)
    requires DistinctIds(sessions)
    ensures next == AfterRound(sessions, round.message, round.faults)
    ensures |batch.envelopes| == |sessions|
    ensures batch.Successes() + batch.Failures() == |sessions|
    ensures forall i :: 0 <= i < |sessions| ==>
              batch.envelopes[i] == EnvelopeFor(sessions[i], round.message, round.faults)
    ensures |next| == |sessions| && forall i :: 0 <= i < |sessions| ==>
              Served(sessions[i], round.message, round.faults, batch.envelopes[i], next[i])
  {
    batch := EncryptFanOut(round.message, sessions, round.faults);
    next := RotateSession(sessions, batch);
    RotationIsRound(sessions, round.message, round.faults);
    forall i | 0 <= i < |sessions|
      ensures Served(sessions[i], round.message, round.faults, batch.envelopes[i], next[i])
    {
      RoundServes(sessions[i], round.message, round.faults);
    }
  }

  function AfterRounds(ds: seq<Device>, rounds: seq<Round>): (r: seq<Device>)
    ensures |r| == |ds|
    decreases |rounds|
  {
    if rounds == [] then ds
    else AfterRounds(AfterRound(ds, rounds[0].message, rounds[0].faults), rounds[1..])
  }

  /** The good envelopes device `i` is sent over the rounds, and the messages in them. */
  function SentTo(ds: seq<Device>, rounds: seq<Round>, i: nat): (seq<EncryptedPayload>, seq<Message>)
    requires i < |ds|
    decreases |rounds|
  {
    if rounds == [] then ([], [])
    else
      var m, faults := rounds[0].message, rounds[0].faults;
      var (payloads, ms) := SentTo(AfterRound(ds, m, faults), rounds[1..], i);
      match EnvelopeFor(ds[i], m, faults).payload
      case Some(payload) => ([payload] + payloads, [m] + ms)
      case None => (payloads, ms)
  }

  /** The messages of the rounds that had no fault for this device. */
  function Reaching(id: string, rounds: seq<Round>): seq<Message>
    decreases |rounds|
  {
    if rounds == [] then []
    else (if id in rounds[0].faults then [] else [rounds[0].message]) + Reaching(id, rounds[1..])
  }

  /**
   Over any rounds with any faults the devices stay the same, and each device that has a
   sending chain is sent, along that chain and nothing else, the messages of its good rounds.
   */
  lemma {:induction false} RoundsAccount(ds: seq<Device>, rounds: seq<Round>, i: nat, chain: ChainKey)
    requires i < |ds| && ds[i].state.sendingChain == Some(chain)
    ensures AfterRounds(ds, rounds)[i].id == ds[i].id
    ensures SentTo(ds, rounds, i).1 == Reaching(ds[i].id, rounds)
    ensures SealedAlong(chain, SentTo(ds, rounds, i).0, SentTo(ds, rounds, i).1)
    ensures AfterRounds(ds, rounds)[i].state.sendingChain == Some(Steps(chain, |SentTo(ds, rounds, i).0|))
    decreases |rounds|
  {
    if rounds != [] {
      var m, faults := rounds[0].message, rounds[0].faults;
      var next := AfterRound(ds, m, faults);
      if ds[i].id in faults {
        RoundsAccount(next, rounds[1..], i, chain);
      } else {
        RoundsAccount(next, rounds[1..], i, AdvanceChainKey(chain));
        SealedExtends(chain, m, SentTo(next, rounds[1..], i).0, SentTo(next, rounds[1..], i).1);
        StepsCompose(chain, 1, |SentTo(next, rounds[1..], i).0|);
        assert Steps(chain, 1) == AdvanceChainKey(chain);
      }
    }
  }

  /** A device without a sending chain gets an error every round and keeps its state. */
  lemma {:induction false} SilentDevice(ds: seq<Device>, rounds: seq<Round>, i: nat)
    requires i < |ds| && ds[i].state.sendingChain.None?
    ensures AfterRounds(ds, rounds)[i] == ds[i] && SentTo(ds, rounds, i) == ([], [])
    decreases |rounds|
  {
    if rounds != [] {
      SilentDevice(AfterRound(ds, rounds[0].message, rounds[0].faults), rounds[1..], i);
    }
  }

  /** A session mirroring the device reads exactly its good rounds, in order, and ends level with it. */
  lemma MirrorReads(ds: seq<Device>, rounds: seq<Round>, i: nat, mirror: SessionState)
    requires i < |ds| && ds[i].state.sendingChain.Some? && mirror.receivingChain == ds[i].state.sendingChain
    ensures var ms := Reaching(ds[i].id, rounds);
      var end := Steps(mirror.receivingChain.value, |ms|);
      && |SentTo(ds, rounds, i).0| == |ms|
      && ReadAll(mirror, SentTo(ds, rounds, i).0, ms) == Ok((Plaintexts(ms), mirror.(receivingChain := Some(end))))
      && AfterRounds(ds, rounds)[i].state.sendingChain == Some(end)
      && end.counter == ds[i].state.sendingChain.value.counter + |ms|
  {
    var chain := mirror.receivingChain.value;
    RoundsAccount(ds, rounds, i, chain);
    ReadAllOpens(mirror, chain, SentTo(ds, rounds, i).0, SentTo(ds, rounds, i).1);
    StepsCount(chain, |Reaching(ds[i].id, rounds)|);
  }
}
