/**
 The same receiver when what arrives need not be what was sent: damaged, mislabelled or foreign
 payloads between the genuine ones, under this chain's public key or in another name. Skipped keys
 are filed under the name that came with the arrival and before its tag is checked, and the chain
 moves only after the check, which decides what still holds.
 */
module AnyPayload {
  import opened Wrappers
  import opened SymbolicCrypto
  import opened DoubleRatchet
  import opened SkippedKeys
  import opened Session
  import OutOfOrder

  type Config = OutOfOrder.Config

  datatype Arrival = Arrival(senderDh: PublicKey, counter: int, ad: Option<Bytes>, now: real,
                             payload: EncryptedPayload)

  /** An arrival while this chain is followed, or what others do to the same store. */
  datatype Event =
    | Arrive(arrival: Arrival)
    | ExpireAll(now: real)
    | OtherPut(entry: Entry)
    | OtherGet(dh: PublicKey, position: int, now: real)

  function Receipt(cfg: Config, r: Receiver, a: Arrival): (Receiver, Result<Bytes, Error>) {
    Receive(r, cfg.limits, Header(a.senderDh, a.counter, a.ad, a.now), a.payload)
  }

  function Step(cfg: Config, r: Receiver, e: Event): Receiver {
    match e
    case Arrive(a) => Receipt(cfg, r, a).0
    case ExpireAll(now) => r.(entries := Unexpired(r.entries, now))
    case OtherPut(entry) => r.(entries := Put(r.entries, cfg.limits.maxSkip, entry))
    case OtherGet(dh, position, _) => r.(entries := Without(r.entries, dh, position))
  }

  function After(cfg: Config, start: Receiver, events: seq<Event>): Receiver {
    if events == [] then start else Step(cfg, After(cfg, start, events[..|events| - 1]), events[|events| - 1])
  }

  predicate AcceptedAt(cfg: Config, start: Receiver, events: seq<Event>, i: nat)
    requires i < |events|
  {
    events[i].Arrive? && Receipt(cfg, After(cfg, start, events[..i]), events[i].arrival).1.Ok?
  }

  /** The payload is sealed under the message key of the counter it came with. */
  predicate Fits(cfg: Config, a: Arrival) {
    a.counter >= 0 && a.payload == AesGcmEncrypt(cfg.KeyAt(a.counter), a.payload.plaintext, a.ad)
  }

  // ---------- what the store holds ----------

  /** An item with this chain's key for its counter, whatever name it is filed under. */
  predicate Held(cfg: Config, e: Entry) {
    e.counter >= 0 && e.key == cfg.KeyAt(e.counter)
  }

  ghost predicate ForeignKey(cfg: Config, key: Key) {
    forall n: nat :: key != cfg.KeyAt(n)
  }

  /** An item of another chain under that chain's name. */
  ghost predicate Foreign(cfg: Config, e: Entry) {
    e.dh != cfg.dh && ForeignKey(cfg, e.key)
  }

  /** Others put their own keys under their own names. */
  ghost predicate Fair(cfg: Config, events: seq<Event>) {
    forall i :: 0 <= i < |events| && events[i].OtherPut? ==> Foreign(cfg, events[i].entry)
  }

  ghost predicate Bounded(cfg: Config, entries: seq<Entry>) {
    Distinct(entries) && |entries| <= cfg.limits.maxSkip
  }

  /** The chain is the sender's and each of its keys stands at its own counter. */
  ghost predicate Sound(cfg: Config, r: Receiver) {
    && Bounded(cfg, r.entries)
    && r.chain == Steps(cfg.Start(), r.chain.counter)
    && forall e :: e in r.entries ==> Held(cfg, e) || Foreign(cfg, e)
  }

  lemma PutSound(cfg: Config, r: Receiver, e: Entry)
    requires cfg.Sensible() && Sound(cfg, r) && (Held(cfg, e) || Foreign(cfg, e))
    ensures Sound(cfg, r.(entries := Put(r.entries, cfg.limits.maxSkip, e)))
  {
    PutKeeps(r.entries, cfg.limits.maxSkip, e);
  }

  /** Filing goes on soundly whatever name it is done under. */
  lemma {:induction false} FilingSound(cfg: Config, r: Receiver, target: int, dh: PublicKey, now: real)
    requires cfg.Sensible() && Sound(cfg, r)
    ensures var filed := FileSkipped(r.entries, cfg.limits, r.chain, target, dh, now);
      Bounded(cfg, filed) && forall e :: e in filed ==> Held(cfg, e) || Foreign(cfg, e)
    decreases target - r.chain.counter
  {
    if r.chain.counter < target {
      var e := Entry(dh, r.chain.counter, DeriveMessageKey(r.chain), now + cfg.limits.ttl);
      PutSound(cfg, r, e);
      FilingSound(cfg, Receiver(AdvanceChainKey(r.chain), Put(r.entries, cfg.limits.maxSkip, e)), target, dh, now);
    }
  }

  lemma LookupSound(cfg: Config, r: Receiver, dh: PublicKey, counter: int, now: real)
    requires Sound(cfg, r)
    ensures Sound(cfg, r.(entries := Without(r.entries, dh, counter)))
    ensures var key := Readable(r.entries, dh, counter, now);
      key.Some? ==> || (counter >= 0 && key.value == cfg.KeyAt(counter))
                    || (dh != cfg.dh && ForeignKey(cfg, key.value))
  {
    WithoutDistinct(r.entries, dh, counter);
    FindIsMembership(r.entries, dh, counter);
  }

  /** The key that a jump to `counter` arrives at, and the chain behind it. */
  lemma JumpSound(cfg: Config, r: Receiver, counter: nat)
    requires Sound(cfg, r) && r.chain.counter <= counter
    ensures var (mk, next) := RatchetChain(Steps(r.chain, counter - r.chain.counter));
      mk == cfg.KeyAt(counter) && next.counter == counter + 1 && next == Steps(cfg.Start(), counter + 1)
  {
    StepsCompose(cfg.Start(), r.chain.counter, counter - r.chain.counter);
    StepsCount(cfg.Start(), counter);
  }

  /** What an accepted arrival was sealed under: its counter's key, or a key another chain had stored
      under the name it came with. */
  ghost predicate RightlyOpened(cfg: Config, a: Arrival) {
    Fits(cfg, a) || (a.senderDh != cfg.dh && ForeignKey(cfg, a.payload.key))
  }

  lemma ReceiptSound(cfg: Config, r: Receiver, a: Arrival)
    requires cfg.Sensible() && Sound(cfg, r)
    ensures Sound(cfg, Receipt(cfg, r, a).0)
    ensures Receipt(cfg, r, a).1.Ok? ==>
              RightlyOpened(cfg, a) && Receipt(cfg, r, a).1.value == a.payload.plaintext
  {
    LookupSound(cfg, r, a.senderDh, a.counter, a.now);
    var looked := r.(entries := Without(r.entries, a.senderDh, a.counter));
    if Readable(r.entries, a.senderDh, a.counter, a.now).None?
       && r.chain.counter <= a.counter <= r.chain.counter + MAX_SKIP_PER_CHAIN {
      FilingSound(cfg, looked, a.counter, a.senderDh, a.now);
      JumpSound(cfg, looked, a.counter);
    }
  }

  lemma StepSound(cfg: Config, r: Receiver, e: Event)
    requires cfg.Sensible() && Sound(cfg, r) && (e.OtherPut? ==> Foreign(cfg, e.entry))
    ensures Sound(cfg, Step(cfg, r, e))
  {
    match e
    case Arrive(a) => ReceiptSound(cfg, r, a);
    case ExpireAll(now) => UnexpiredKeeps(r.entries, now);
    case OtherPut(entry) => PutSound(cfg, r, entry);
    case OtherGet(dh, position, now) => LookupSound(cfg, r, dh, position, now);
  }

  lemma {:induction false} AlwaysSound(cfg: Config, start: Receiver, events: seq<Event>, n: nat)
    requires cfg.Sensible() && Sound(cfg, start) && Fair(cfg, events) && n <= |events|
    ensures Sound(cfg, After(cfg, start, events[..n]))
  {
    if n > 0 {
      AlwaysSound(cfg, start, events, n - 1);
      AfterStep(cfg, start, events, n - 1);
      StepSound(cfg, After(cfg, start, events[..n - 1]), events[n - 1]);
    }
  }

  // ---------- whatever arrives, what is accepted is right ----------

  /** Whatever came before, a payload accepted under this chain's name was sealed under the key of its
      counter, one accepted under another name under that key or one stored there; and the plaintext
      returned is the one sealed. */
  lemma AcceptedIsSealed(cfg: Config, start: Receiver, events: seq<Event>, i: nat)
    requires cfg.Sensible() && Sound(cfg, start) && Fair(cfg, events) && i < |events|
    requires AcceptedAt(cfg, start, events, i)
    ensures RightlyOpened(cfg, events[i].arrival)
    ensures Receipt(cfg, After(cfg, start, events[..i]), events[i].arrival).1
         == Ok(events[i].arrival.payload.plaintext)
  {
    AlwaysSound(cfg, start, events, i);
    ReceiptSound(cfg, After(cfg, start, events[..i]), events[i].arrival);
  }

  /** So one of the sender's payloads is only accepted at its own counter, as what was sent there. */
  lemma AcceptedIsGenuine(cfg: Config, start: Receiver, events: seq<Event>, i: nat, m: nat)
    requires cfg.Sensible() && Sound(cfg, start) && Fair(cfg, events) && i < |events|
    requires AcceptedAt(cfg, start, events, i)
    requires m < |cfg.sent| && events[i].arrival.payload == cfg.PayloadAt(m)
    ensures events[i].arrival.counter == m
    ensures Receipt(cfg, After(cfg, start, events[..i]), events[i].arrival).1 == Ok(cfg.sent[m].plaintext)
  {
    AcceptedIsSealed(cfg, start, events, i);
    OutOfOrder.PayloadIsSealed(cfg, m);
    MessageKeysDistinct(cfg.Start(), events[i].arrival.counter, m);
  }

  // ---------- what a key is used for ----------

  /** The positions whose keys an event uses: an accepted arrival the one its payload is sealed under, a
      lookup by others the one it hands out. */
  function Uses(cfg: Config, r: Receiver, e: Event): set<nat> {
    match e
    case Arrive(a) =>
      if a.counter >= 0 && Receipt(cfg, r, a).1.Ok? && a.payload.key == cfg.KeyAt(a.counter) then {a.counter} else {}
    case OtherGet(dh, position, now) =>
      if position >= 0 && Readable(r.entries, dh, position, now) == Some(cfg.KeyAt(position)) then {position} else {}
    case _ => {}
  }

  function UsedBy(cfg: Config, start: Receiver, events: seq<Event>, i: nat): set<nat>
    requires i < |events|
  {
    Uses(cfg, After(cfg, start, events[..i]), events[i])
  }

  /** No key of the chain is used twice. */
  ghost predicate AtMostOnce(cfg: Config, start: Receiver, events: seq<Event>) {
    forall i, j :: 0 <= i < j < |events| ==> UsedBy(cfg, start, events, i) !! UsedBy(cfg, start, events, j)
  }

  /** The positions used by the first `n` events. */
  ghost function Taken(cfg: Config, start: Receiver, events: seq<Event>, n: nat): set<nat>
    requires n <= |events|
  {
    set i: nat, c | i < n && c in UsedBy(cfg, start, events, i) :: c
  }

  /** Each key of the chain is stored once at most, behind the chain, and not after it was used. */
  ghost predicate OneUse(cfg: Config, r: Receiver, taken: set<nat>) {
    && Sound(cfg, r)
    && (forall e :: e in r.entries && Held(cfg, e) ==> e.counter < r.chain.counter && e.counter !in taken)
    && (forall e, f :: e in r.entries && f in r.entries && Held(cfg, e) && Held(cfg, f) && e.counter == f.counter ==>
          e == f)
    && (forall c :: c in taken ==> c < r.chain.counter)
  }

  /** An arrival that jumps ahead, within the limit, with nothing readable under its name and counter
      and a payload that is not sealed under the key of its counter. */
  predicate Leaps(cfg: Config, r: Receiver, e: Event) {
    && e.Arrive?
    && var a := e.arrival;
       && r.chain.counter < a.counter <= r.chain.counter + MAX_SKIP_PER_CHAIN
       && Readable(r.entries, a.senderDh, a.counter, a.now).None?
       && !Fits(cfg, a)
  }

  ghost predicate NoLeap(cfg: Config, start: Receiver, events: seq<Event>) {
    forall i :: 0 <= i < |events| ==> !Leaps(cfg, After(cfg, start, events[..i]), events[i])
  }

  // ---------- without a leap every key is used once ----------

  lemma LookupOneUse(cfg: Config, r: Receiver, taken: set<nat>, dh: PublicKey, counter: int, now: real)
    requires OneUse(cfg, r, taken)
    ensures var looked := r.(entries := Without(r.entries, dh, counter));
      && OneUse(cfg, looked, taken)
      && (counter >= 0 && Readable(r.entries, dh, counter, now) == Some(cfg.KeyAt(counter)) ==>
            counter !in taken && OneUse(cfg, looked, taken + {counter}))
  {
    LookupSound(cfg, r, dh, counter, now);
    WithoutDistinct(r.entries, dh, counter);
    FindIsMembership(r.entries, dh, counter);
  }

  lemma FileOne(cfg: Config, r: Receiver, taken: set<nat>, dh: PublicKey, deadline: real)
    requires cfg.Sensible() && OneUse(cfg, r, taken)
    ensures var e := Entry(dh, r.chain.counter, DeriveMessageKey(r.chain), deadline);
      OneUse(cfg, Receiver(AdvanceChainKey(r.chain), Put(r.entries, cfg.limits.maxSkip, e)), taken)
  {
    var e := Entry(dh, r.chain.counter, DeriveMessageKey(r.chain), deadline);
    PutSound(cfg, r, e);
    PutKeeps(r.entries, cfg.limits.maxSkip, e);
  }

  /** Filing and walking up to `target` together. */
  lemma {:induction false} FilingOneUse(cfg: Config, r: Receiver, taken: set<nat>, target: nat, dh: PublicKey,
                                        now: real)
    requires cfg.Sensible() && OneUse(cfg, r, taken) && r.chain.counter <= target
    ensures OneUse(cfg, Receiver(Steps(r.chain, target - r.chain.counter),
                                 FileSkipped(r.entries, cfg.limits, r.chain, target, dh, now)), taken)
    decreases target - r.chain.counter
  {
    if r.chain.counter < target {
      var e := Entry(dh, r.chain.counter, DeriveMessageKey(r.chain), now + cfg.limits.ttl);
      var next := Receiver(AdvanceChainKey(r.chain), Put(r.entries, cfg.limits.maxSkip, e));
      FileOne(cfg, r, taken, dh, now + cfg.limits.ttl);
      FilingOneUse(cfg, next, taken, target, dh, now);
      StepsTail(r.chain, target - next.chain.counter);
    }
  }

  lemma TakeNext(cfg: Config, r: Receiver, taken: set<nat>)
    requires OneUse(cfg, r, taken)
    ensures OneUse(cfg, r.(chain := AdvanceChainKey(r.chain)), taken + {r.chain.counter})
  {
  }

  /** The receiver that a fitting arrival at or ahead of the chain leaves behind. */
  lemma ForwardResult(cfg: Config, r: Receiver, a: Arrival)
    requires Sound(cfg, r) && Readable(r.entries, a.senderDh, a.counter, a.now).None?
    requires r.chain.counter <= a.counter <= r.chain.counter + MAX_SKIP_PER_CHAIN && Fits(cfg, a)
    ensures var looked := Without(r.entries, a.senderDh, a.counter);
      Receipt(cfg, r, a)
      == (Receiver(AdvanceChainKey(Steps(r.chain, a.counter - r.chain.counter)),
                   FileSkipped(looked, cfg.limits, r.chain, a.counter, a.senderDh, a.now)), Ok(a.payload.plaintext))
  {
    JumpSound(cfg, r, a.counter);
  }

  /** Filing up to `counter` and taking the key that stands there. */
  lemma JumpOneUse(cfg: Config, r: Receiver, taken: set<nat>, counter: nat, dh: PublicKey, now: real)
    requires cfg.Sensible() && OneUse(cfg, r, taken) && r.chain.counter <= counter
    ensures counter !in taken
    ensures OneUse(cfg, Receiver(AdvanceChainKey(Steps(r.chain, counter - r.chain.counter)),
                                 FileSkipped(r.entries, cfg.limits, r.chain, counter, dh, now)), taken + {counter})
  {
    var chain := Steps(r.chain, counter - r.chain.counter);
    FilingOneUse(cfg, r, taken, counter, dh, now);
    StepsCount(r.chain, counter - r.chain.counter);
    TakeNext(cfg, Receiver(chain, FileSkipped(r.entries, cfg.limits, r.chain, counter, dh, now)), taken);
  }

  /** An arrival at or ahead of the chain that fits its counter uses that key and no other. */
  lemma ForwardOneUse(cfg: Config, r: Receiver, taken: set<nat>, a: Arrival)
    requires cfg.Sensible() && OneUse(cfg, r, taken)
    requires Readable(r.entries, a.senderDh, a.counter, a.now).None?
    requires r.chain.counter <= a.counter <= r.chain.counter + MAX_SKIP_PER_CHAIN && Fits(cfg, a)
    ensures Receipt(cfg, r, a).1.Ok? && a.counter !in taken
    ensures OneUse(cfg, Receipt(cfg, r, a).0, taken + {a.counter})
  {
    ForwardResult(cfg, r, a);
    LookupOneUse(cfg, r, taken, a.senderDh, a.counter, a.now);
    JumpOneUse(cfg, r.(entries := Without(r.entries, a.senderDh, a.counter)), taken, a.counter, a.senderDh, a.now);
  }

  lemma ArrivalOneUse(cfg: Config, r: Receiver, taken: set<nat>, a: Arrival)
    requires cfg.Sensible() && OneUse(cfg, r, taken) && !Leaps(cfg, r, Arrive(a))
    ensures OneUse(cfg, Receipt(cfg, r, a).0, taken + Uses(cfg, r, Arrive(a)))
    ensures Uses(cfg, r, Arrive(a)) !! taken
  {
    LookupOneUse(cfg, r, taken, a.senderDh, a.counter, a.now);
    assert taken + {} == taken;
    if Readable(r.entries, a.senderDh, a.counter, a.now).None?
       && r.chain.counter <= a.counter <= r.chain.counter + MAX_SKIP_PER_CHAIN {
      if Fits(cfg, a) {
        ForwardOneUse(cfg, r, taken, a);
      } else {
        RefusedInPlace(cfg, r, a);
      }
    }
  }

  /** A payload at the chain's own position that does not fit only costs what the lookup took out. */
  lemma RefusedInPlace(cfg: Config, r: Receiver, a: Arrival)
    requires Sound(cfg, r) && Readable(r.entries, a.senderDh, a.counter, a.now).None?
    requires a.counter == r.chain.counter && !Fits(cfg, a)
    ensures Receipt(cfg, r, a) == (r.(entries := Without(r.entries, a.senderDh, a.counter)), Err(InvalidTag))
  {
    JumpSound(cfg, r, a.counter);
  }

  lemma StepOneUse(cfg: Config, r: Receiver, taken: set<nat>, e: Event)
    requires cfg.Sensible() && OneUse(cfg, r, taken) && !Leaps(cfg, r, e)
    requires e.OtherPut? ==> Foreign(cfg, e.entry)
    ensures OneUse(cfg, Step(cfg, r, e), taken + Uses(cfg, r, e))
    ensures Uses(cfg, r, e) !! taken
  {
    assert taken + {} == taken;
    match e
    case Arrive(a) => ArrivalOneUse(cfg, r, taken, a);
    case ExpireAll(now) => UnexpiredKeeps(r.entries, now);
    case OtherPut(entry) =>
      PutSound(cfg, r, entry);
      PutKeeps(r.entries, cfg.limits.maxSkip, entry);
    case OtherGet(dh, position, now) => LookupOneUse(cfg, r, taken, dh, position, now);
  }

  lemma AfterStep(cfg: Config, start: Receiver, events: seq<Event>, n: nat)
    requires n < |events|
    ensures After(cfg, start, events[..n + 1]) == Step(cfg, After(cfg, start, events[..n]), events[n])
  {
    assert events[..n + 1][..n] == events[..n];
  }

  lemma TakenStep(cfg: Config, start: Receiver, events: seq<Event>, n: nat)
    requires n < |events|
    ensures Taken(cfg, start, events, n + 1) == Taken(cfg, start, events, n) + UsedBy(cfg, start, events, n)
  {
  }

  /** As long as nothing leaps no stored key has been used, whatever is refused. */
  lemma {:induction false} NoLeapOneUse(cfg: Config, start: Receiver, events: seq<Event>, n: nat)
    requires cfg.Sensible() && OneUse(cfg, start, {}) && Fair(cfg, events) && NoLeap(cfg, start, events)
    requires n <= |events|
    ensures OneUse(cfg, After(cfg, start, events[..n]), Taken(cfg, start, events, n))
  {
    if n > 0 {
      NoLeapOneUse(cfg, start, events, n - 1);
      AfterStep(cfg, start, events, n - 1);
      TakenStep(cfg, start, events, n - 1);
      StepOneUse(cfg, After(cfg, start, events[..n - 1]), Taken(cfg, start, events, n - 1), events[n - 1]);
    }
  }

  /** Any payloads at all, in any name, refused or not: without a leap no key is used twice. */
  lemma NoLeapUsesOnce(cfg: Config, start: Receiver, events: seq<Event>)
    requires cfg.Sensible() && OneUse(cfg, start, {}) && Fair(cfg, events) && NoLeap(cfg, start, events)
    ensures AtMostOnce(cfg, start, events)
  {
    forall i, j | 0 <= i < j < |events|
      ensures UsedBy(cfg, start, events, i) !! UsedBy(cfg, start, events, j)
    {
      NoLeapOneUse(cfg, start, events, j);
      StepOneUse(cfg, After(cfg, start, events[..j]), Taken(cfg, start, events, j), events[j]);
      assert UsedBy(cfg, start, events, i) <= Taken(cfg, start, events, j);
    }
  }

  // ---------- a leap, and the message it lets in twice ----------

  /** The last key filed is in the store, whatever had to go for it. */
  lemma {:induction false} LastFiled(cfg: Config, r: Receiver, target: int, dh: PublicKey, now: real)
    requires cfg.Sensible() && Sound(cfg, r) && r.chain.counter < target
    ensures Readable(FileSkipped(r.entries, cfg.limits, r.chain, target, dh, now), dh, target - 1, now)
         == Some(cfg.KeyAt(target - 1))
    decreases target - r.chain.counter
  {
    var e := Entry(dh, r.chain.counter, DeriveMessageKey(r.chain), now + cfg.limits.ttl);
    var next := Receiver(AdvanceChainKey(r.chain), Put(r.entries, cfg.limits.maxSkip, e));
    PutSound(cfg, r, e);
    PutKeeps(r.entries, cfg.limits.maxSkip, e);
    if next.chain.counter < target {
      LastFiled(cfg, next, target, dh, now);
    }
  }

  /** A leap leaves the chain where it was and the key before the claimed counter in the store. */
  lemma LeapFiles(cfg: Config, r: Receiver, a: Arrival)
    requires cfg.Sensible() && Sound(cfg, r) && Leaps(cfg, r, Arrive(a))
    ensures var after := Receipt(cfg, r, a).0;
      && Sound(cfg, after) && after.chain == r.chain
      && Readable(after.entries, a.senderDh, a.counter - 1, a.now) == Some(cfg.KeyAt(a.counter - 1))
  {
    var looked := r.(entries := Without(r.entries, a.senderDh, a.counter));
    LookupSound(cfg, r, a.senderDh, a.counter, a.now);
    ReceiptSound(cfg, r, a);
    JumpSound(cfg, looked, a.counter);
    LastFiled(cfg, looked, a.counter, a.senderDh, a.now);
  }

  /** A payload that fits its counter. */
  function Sealing(cfg: Config, dh: PublicKey, counter: nat, now: real): Arrival {
    Arrival(dh, counter, None, now, AesGcmEncrypt(cfg.KeyAt(counter), [], None))
  }

  predicate OpensTwice(cfg: Config, r: Receiver, a: Arrival) {
    Receipt(cfg, r, a).1.Ok? && Receipt(cfg, Receipt(cfg, r, a).0, a).1.Ok?
  }

  /** A key stored at or ahead of the chain opens its message from the store and from the chain. */
  lemma StoredAheadOpensTwice(cfg: Config, r: Receiver, dh: PublicKey, counter: nat, now: real)
    requires cfg.Sensible() && Sound(cfg, r)
    requires r.chain.counter <= counter <= r.chain.counter + MAX_SKIP_PER_CHAIN
    requires Readable(r.entries, dh, counter, now) == Some(cfg.KeyAt(counter))
    ensures OpensTwice(cfg, r, Sealing(cfg, dh, counter, now))
  {
    var a := Sealing(cfg, dh, counter, now);
    LookupSound(cfg, r, dh, counter, now);
    var once := Receipt(cfg, r, a).0;
    assert once == r.(entries := Without(r.entries, dh, counter));
    WithoutFind(r.entries, dh, counter, dh, counter);
    JumpSound(cfg, once, counter);
  }

  lemma LeapOpensTwice(cfg: Config, r: Receiver, leap: Event)
    requires cfg.Sensible() && Sound(cfg, r) && Leaps(cfg, r, leap)
    ensures var a := leap.arrival;
      OpensTwice(cfg, Step(cfg, r, leap), Sealing(cfg, a.senderDh, a.counter - 1, a.now))
  {
    var a := leap.arrival;
    LeapFiles(cfg, r, a);
    StoredAheadOpensTwice(cfg, Receipt(cfg, r, a).0, a.senderDh, a.counter - 1, a.now);
  }

  /** A first leap: a worthless payload at counter 1 makes the first message of the chain open twice. */
  lemma WorthlessPayloadLeaps(cfg: Config, now: real)
    requires cfg.Sensible()
    ensures var start := Receiver(cfg.Start(), []);
      var leap := Arrive(Arrival(cfg.dh, 1, None, now, Sealed(Repeated(0), [], [])));
      && OneUse(cfg, start, {})
      && Leaps(cfg, start, leap) && Receipt(cfg, start, leap.arrival).1 == Err(InvalidTag)
      && OpensTwice(cfg, Step(cfg, start, leap), Sealing(cfg, cfg.dh, 0, now))
  {
    var start := Receiver(cfg.Start(), []);
    var leap := Arrive(Arrival(cfg.dh, 1, None, now, Sealed(Repeated(0), [], [])));
    JumpSound(cfg, start, 1);
    LeapOpensTwice(cfg, start, leap);
  }

  // ---------- the exact condition ----------

  /** Every arrival fits its counter: what the sender sent or could yet send on this chain. */
  ghost predicate AllSealed(cfg: Config, events: seq<Event>) {
    Fair(cfg, events) && forall i :: 0 <= i < |events| && events[i].Arrive? ==> Fits(cfg, events[i].arrival)
  }

  /** However the run goes on with sealed payloads, each key is used at most once. */
  ghost predicate StaysOnce(cfg: Config, start: Receiver, events: seq<Event>) {
    forall later :: AllSealed(cfg, later) ==> AtMostOnce(cfg, start, events + later)
  }

  ghost predicate AlwaysOnce(cfg: Config, start: Receiver, events: seq<Event>) {
    forall n :: 0 <= n <= |events| ==> StaysOnce(cfg, start, events[..n])
  }

  /** Payloads that fit never leap. */
  lemma SealedNeverLeaps(cfg: Config, start: Receiver, events: seq<Event>, later: seq<Event>)
    requires NoLeap(cfg, start, events) && AllSealed(cfg, later)
    ensures NoLeap(cfg, start, events + later)
  {
    var all := events + later;
    forall i | 0 <= i < |all|
      ensures !Leaps(cfg, After(cfg, start, all[..i]), all[i])
    {
      if i < |events| {
        assert all[..i] == events[..i] && all[i] == events[i];
      } else {
        assert all[i] == later[i - |events|];
      }
    }
  }

  lemma FairJoin(cfg: Config, events: seq<Event>, later: seq<Event>)
    requires Fair(cfg, events) && Fair(cfg, later)
    ensures Fair(cfg, events + later)
  {
    forall i | 0 <= i < |events + later| && (events + later)[i].OtherPut?
      ensures Foreign(cfg, (events + later)[i].entry)
    {
      if i >= |events| {
        assert (events + later)[i] == later[i - |events|];
      }
    }
  }

  lemma NoLeapStaysOnce(cfg: Config, start: Receiver, events: seq<Event>)
    requires cfg.Sensible() && OneUse(cfg, start, {}) && Fair(cfg, events) && NoLeap(cfg, start, events)
    ensures StaysOnce(cfg, start, events)
  {
    forall later | AllSealed(cfg, later)
      ensures AtMostOnce(cfg, start, events + later)
    {
      SealedNeverLeaps(cfg, start, events, later);
      FairJoin(cfg, events, later);
      NoLeapUsesOnce(cfg, start, events + later);
    }
  }

  lemma UsedTwice(cfg: Config, start: Receiver, events: seq<Event>, a: Arrival)
    requires OpensTwice(cfg, After(cfg, start, events), a) && Fits(cfg, a)
    ensures !StaysOnce(cfg, start, events)
  {
    var again := [Arrive(a), Arrive(a)];
    var all, n := events + again, |events|;
    assert all[..n] == events && all[..n + 1] == events + [Arrive(a)];
    AfterStep(cfg, start, all, n);
    assert a.counter in UsedBy(cfg, start, all, n) && a.counter in UsedBy(cfg, start, all, n + 1);
    assert AllSealed(cfg, again) && !AtMostOnce(cfg, start, all);
  }

  lemma LeapSpoilsOnce(cfg: Config, start: Receiver, events: seq<Event>, r: Receiver, leap: Event)
    requires cfg.Sensible() && Sound(cfg, r) && Leaps(cfg, r, leap)
    requires events != [] && After(cfg, start, events) == Step(cfg, r, leap)
    ensures !StaysOnce(cfg, start, events)
  {
    LeapOpensTwice(cfg, r, leap);
    var a := Sealing(cfg, leap.arrival.senderDh, leap.arrival.counter - 1, leap.arrival.now);
    assert Fits(cfg, a);
    UsedTwice(cfg, start, events, a);
  }

  /** At no point of a run, whatever arrived in it, can sealed payloads still to come make a key of the
      chain be used twice, if and only if no arrival of the run was a leap. */
  lemma UsedOnceIff(cfg: Config, start: Receiver, events: seq<Event>)
    requires cfg.Sensible() && OneUse(cfg, start, {}) && Fair(cfg, events)
    ensures AlwaysOnce(cfg, start, events) <==> NoLeap(cfg, start, events)
  {
    if AlwaysOnce(cfg, start, events) {
      forall i | 0 <= i < |events|
        ensures !Leaps(cfg, After(cfg, start, events[..i]), events[i])
      {
        if Leaps(cfg, After(cfg, start, events[..i]), events[i]) {
          AlwaysSound(cfg, start, events, i);
          AfterStep(cfg, start, events, i);
          LeapSpoilsOnce(cfg, start, events[..i + 1], After(cfg, start, events[..i]), events[i]);
        }
      }
    }
    if NoLeap(cfg, start, events) {
      forall n | 0 <= n <= |events|
        ensures StaysOnce(cfg, start, events[..n])
      {
        NoLeapPrefix(cfg, start, events, n);
        NoLeapStaysOnce(cfg, start, events[..n]);
      }
    }
  }

  lemma NoLeapPrefix(cfg: Config, start: Receiver, events: seq<Event>, n: nat)
    requires NoLeap(cfg, start, events) && n <= |events|
    ensures NoLeap(cfg, start, events[..n])
  {
    forall i | 0 <= i < n
      ensures !Leaps(cfg, After(cfg, start, events[..n][..i]), events[..n][i])
    {
      assert events[..n][..i] == events[..i];
    }
  }
}
