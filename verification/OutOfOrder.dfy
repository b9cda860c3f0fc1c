/**
 Runs of out-of-order receipt on one chain: the sender's payloads arrive in any order, any
 number of times or never, while the store also expires and serves other chains.
 */
module OutOfOrder {
  import opened Wrappers
  import opened SymbolicCrypto
  import opened DoubleRatchet
  import opened SkippedKeys
  import opened Session

  /** One sending chain: its first key, the public key it is filed under, and what was sent. */
  datatype Config = Config(root: Key, dh: PublicKey, limits: Limits, sent: seq<Message>) {
    predicate Sensible() {
      limits.maxSkip >= 1 && limits.ttl > 0.0
    }

    function Start(): ChainKey {
      ChainKey(root, 0)
    }

    function KeyAt(n: nat): Key {
      DeriveMessageKey(Steps(Start(), n))
    }

    function PayloadAt(n: nat): EncryptedPayload
      requires n < |sent|
    {
      EncryptAllSeals(Start(), sent);
      EncryptAll(Start(), sent).0[n]
    }
  }

  /** Anything that can happen to the receiver; only `Deliver` concerns the followed chain. */
  datatype Event =
    | Deliver(counter: nat, now: real)
    | ExpireAll(now: real)
    | OtherPut(entry: Entry)
    | OtherGet(dh: PublicKey, position: int, now: real)

  predicate Admissible(cfg: Config, e: Event) {
    match e
    case Deliver(counter, _) => counter < |cfg.sent|
    case ExpireAll(_) => true
    case OtherPut(entry) => entry.dh != cfg.dh
    case OtherGet(dh, _, _) => dh != cfg.dh
  }

  predicate AllAdmissible(cfg: Config, events: seq<Event>) {
    forall i :: 0 <= i < |events| ==> Admissible(cfg, events[i])
  }

  function Arrival(cfg: Config, counter: nat, now: real): Header
    requires counter < |cfg.sent|
  {
    Header(cfg.dh, counter, cfg.sent[counter].ad, now)
  }

  function StepEvent(cfg: Config, r: Receiver, e: Event): Receiver
    requires Admissible(cfg, e)
  {
    match e
    case Deliver(counter, now) => Receive(r, cfg.limits, Arrival(cfg, counter, now), cfg.PayloadAt(counter)).0
    case ExpireAll(now) => r.(entries := Unexpired(r.entries, now))
    case OtherPut(entry) => r.(entries := Put(r.entries, cfg.limits.maxSkip, entry))
    case OtherGet(dh, counter, _) => r.(entries := Without(r.entries, dh, counter))
  }

  function After(cfg: Config, start: Receiver, events: seq<Event>): Receiver
    requires AllAdmissible(cfg, events)
    decreases |events|
  {
    if events == [] then start
    else
      var last := |events| - 1;
      StepEvent(cfg, After(cfg, start, events[..last]), events[last])
  }

  /** What the i-th event returned to the caller; meaningful for deliveries. */
  function OutcomeAt(cfg: Config, start: Receiver, events: seq<Event>, i: nat): Result<Bytes, Error>
    requires AllAdmissible(cfg, events) && i < |events| && events[i].Deliver?
  {
    var e := events[i];
    Receive(After(cfg, start, events[..i]), cfg.limits, Arrival(cfg, e.counter, e.now), cfg.PayloadAt(e.counter)).1
  }

  predicate AcceptedAt(cfg: Config, start: Receiver, events: seq<Event>, i: nat)
    requires AllAdmissible(cfg, events) && i < |events|
  {
    events[i].Deliver? && OutcomeAt(cfg, start, events, i).Ok?
  }

  /** The counters accepted so far. */
  ghost function Taken(cfg: Config, start: Receiver, events: seq<Event>): set<nat>
    requires AllAdmissible(cfg, events)
    decreases |events|
  {
    if events == [] then {}
    else
      var last: nat := |events| - 1;
      Taken(cfg, start, events[..last]) + if AcceptedAt(cfg, start, events, last) then {events[last].counter} else {}
  }

  // ---------- filing skipped keys ----------

  function SkippedItems(chain: ChainKey, target: int, dh: PublicKey, deadline: real): (r: seq<Entry>)
    ensures |r| == if chain.counter >= target then 0 else target - chain.counter
    decreases target - chain.counter
  {
    if chain.counter >= target then []
    else [Entry(dh, chain.counter, DeriveMessageKey(chain), deadline)]
         + SkippedItems(AdvanceChainKey(chain), target, dh, deadline)
  }

  lemma {:induction false} SkippedItemsAt(chain: ChainKey, target: int, dh: PublicKey, deadline: real, i: nat)
    requires i < target - chain.counter
    ensures SkippedItems(chain, target, dh, deadline)[i]
         == Entry(dh, chain.counter + i, DeriveMessageKey(Steps(chain, i)), deadline)
    decreases i
  {
    if i > 0 {
      SkippedItemsAt(AdvanceChainKey(chain), target, dh, deadline, i - 1);
      StepsCompose(chain, 1, i - 1);
      assert Steps(chain, 1) == AdvanceChainKey(chain);
    }
  }

  lemma EvictTwice(a: seq<Entry>, b: seq<Entry>, limit: nat)
    ensures Evict(Evict(a, limit) + b, limit) == Evict(a + b, limit)
  {
  }

  /** Filing a counter the store does not hold appends it and trims from the old end. */
  lemma PutNew(entries: seq<Entry>, limit: nat, e: Entry)
    requires Distinct(entries) && limit >= 1
    requires forall x :: x in entries && x.dh == e.dh ==> x.counter < e.counter
    ensures Put(entries, limit, e) == Evict(entries + [e], limit)
    ensures Distinct(Put(entries, limit, e)) && |Put(entries, limit, e)| <= limit
    ensures forall x :: x in Put(entries, limit, e) && x.dh == e.dh ==> x.counter <= e.counter
  {
    FindIsMembership(entries, e.dh, e.counter);
    WithoutAbsent(entries, e.dh, e.counter);
    PutKeeps(entries, limit, e);
  }

  /** The loop that files skipped keys amounts to one append and one trim from the old end. */
  lemma {:induction false} FileSkippedIsEvict(entries: seq<Entry>, limits: Limits, chain: ChainKey, target: int,
                                              dh: PublicKey, now: real)
    requires Distinct(entries) && |entries| <= limits.maxSkip && limits.maxSkip >= 1
    requires forall e :: e in entries && e.dh == dh ==> e.counter < chain.counter
    ensures FileSkipped(entries, limits, chain, target, dh, now)
         == Evict(entries + SkippedItems(chain, target, dh, now + limits.ttl), limits.maxSkip)
    ensures Distinct(FileSkipped(entries, limits, chain, target, dh, now))
    decreases target - chain.counter
  {
    if chain.counter >= target {
      assert entries + [] == entries;
    } else {
      var e := Entry(dh, chain.counter, DeriveMessageKey(chain), now + limits.ttl);
      var rest := SkippedItems(AdvanceChainKey(chain), target, dh, now + limits.ttl);
      PutNew(entries, limits.maxSkip, e);
      FileSkippedIsEvict(Put(entries, limits.maxSkip, e), limits, AdvanceChainKey(chain), target, dh, now);
      EvictTwice(entries + [e], rest, limits.maxSkip);
      assert entries + ([e] + rest) == entries + [e] + rest;
    }
  }

  /** An item that filing put in: a key of `chain` between its position and `target`. */
  predicate FiledFrom(chain: ChainKey, target: int, dh: PublicKey, e: Entry) {
    e.dh == dh && chain.counter <= e.counter < target
    && e.key == DeriveMessageKey(Steps(chain, e.counter - chain.counter))
  }

  lemma FileSkippedMembers(entries: seq<Entry>, limits: Limits, chain: ChainKey, target: int,
                           dh: PublicKey, now: real)
    requires Distinct(entries) && |entries| <= limits.maxSkip && limits.maxSkip >= 1
    requires forall e :: e in entries && e.dh == dh ==> e.counter < chain.counter
    ensures forall e :: e in FileSkipped(entries, limits, chain, target, dh, now) ==>
              e in entries || FiledFrom(chain, target, dh, e)
  {
    FileSkippedIsEvict(entries, limits, chain, target, dh, now);
    var skipped := SkippedItems(chain, target, dh, now + limits.ttl);
    forall i | 0 <= i < |skipped|
      ensures FiledFrom(chain, target, dh, skipped[i])
    {
      SkippedItemsAt(chain, target, dh, now + limits.ttl, i);
    }
    assert forall e :: e in entries + skipped ==> e in entries || e in skipped;
  }

  // ---------- the invariant ----------

  /** The receiver follows the sender's chain and holds only right keys, none of them used up. */
  ghost predicate InStep(cfg: Config, r: Receiver, taken: set<nat>) {
    && Distinct(r.entries)
    && |r.entries| <= cfg.limits.maxSkip
    && r.chain == Steps(cfg.Start(), r.chain.counter)
    && (forall e :: e in r.entries && e.dh == cfg.dh ==>
          0 <= e.counter < r.chain.counter && e.key == cfg.KeyAt(e.counter) && e.counter !in taken)
    && (forall c :: c in taken ==> c < r.chain.counter)
  }

  ghost predicate Follows(cfg: Config, r: Receiver) {
    exists taken :: InStep(cfg, r, taken)
  }

  lemma PayloadIsSealed(cfg: Config, n: nat)
    requires n < |cfg.sent|
    ensures cfg.PayloadAt(n) == AesGcmEncrypt(cfg.KeyAt(n), cfg.sent[n].plaintext, cfg.sent[n].ad)
  {
    EncryptAllSeals(cfg.Start(), cfg.sent);
  }

  /** One delivery, completely: when it is accepted, what it returns, what it leaves behind. */
  ghost predicate DeliveredRightly(cfg: Config, r: Receiver, taken: set<nat>, counter: nat, now: real)
    requires counter < |cfg.sent|
  {
    var (after, outcome) := Receive(r, cfg.limits, Arrival(cfg, counter, now), cfg.PayloadAt(counter));
    && (outcome.Ok? <==> Readable(r.entries, cfg.dh, counter, now).Some?
                         || r.chain.counter <= counter <= r.chain.counter + MAX_SKIP_PER_CHAIN)
    && (outcome.Ok? ==>
          outcome.value == cfg.sent[counter].plaintext && counter !in taken && InStep(cfg, after, taken + {counter}))
    && (outcome.Err? ==>
          && after.chain == r.chain
          && InStep(cfg, after, taken)
          && after.entries == Without(r.entries, cfg.dh, counter)
          && forall e :: e in r.entries && now <= e.deadline ==> e in after.entries)
  }

  lemma DeliverStored(cfg: Config, r: Receiver, taken: set<nat>, counter: nat, now: real)
    requires cfg.Sensible() && InStep(cfg, r, taken) && counter < |cfg.sent|
    requires Readable(r.entries, cfg.dh, counter, now).Some?
    ensures DeliveredRightly(cfg, r, taken, counter, now)
  {
    PayloadIsSealed(cfg, counter);
    WithoutDistinct(r.entries, cfg.dh, counter);
    FindIsMembership(r.entries, cfg.dh, counter);
  }

  lemma DeliverRefused(cfg: Config, r: Receiver, taken: set<nat>, counter: nat, now: real)
    requires cfg.Sensible() && InStep(cfg, r, taken) && counter < |cfg.sent|
    requires Readable(r.entries, cfg.dh, counter, now).None?
    requires counter < r.chain.counter || counter > r.chain.counter + MAX_SKIP_PER_CHAIN
    ensures DeliveredRightly(cfg, r, taken, counter, now)
  {
    WithoutDistinct(r.entries, cfg.dh, counter);
    forall e | e in r.entries && now <= e.deadline
      ensures !e.IsFor(cfg.dh, counter)
    {
      var i :| 0 <= i < |r.entries| && r.entries[i] == e;
      FindAt(r.entries, i);
    }
  }

  lemma FiledKeysAreRight(cfg: Config, r: Receiver, taken: set<nat>, counter: nat, filed: seq<Entry>)
    requires InStep(cfg, r, taken) && r.chain.counter <= counter
    requires Distinct(filed) && |filed| <= cfg.limits.maxSkip
    requires forall e :: e in filed ==> e in r.entries || FiledFrom(r.chain, counter, cfg.dh, e)
    requires forall e :: e in r.entries && e.dh == cfg.dh ==> e.counter != counter
    ensures InStep(cfg, Receiver(Steps(cfg.Start(), counter + 1), filed), taken + {counter})
  {
    StepsCount(cfg.Start(), counter + 1);
    forall e | e in filed && e.dh == cfg.dh
      ensures 0 <= e.counter <= counter && e.key == cfg.KeyAt(e.counter) && e.counter !in taken + {counter}
    {
      if e !in r.entries {
        StepsCompose(cfg.Start(), r.chain.counter, e.counter - r.chain.counter);
      }
    }
  }

  /** Filing the keys of a forward jump and taking the next one keeps the invariant. */
  lemma JumpKeepsInStep(cfg: Config, r: Receiver, taken: set<nat>, counter: nat, now: real)
    requires cfg.Sensible() && InStep(cfg, r, taken) && r.chain.counter <= counter
    ensures InStep(cfg, Receiver(Steps(cfg.Start(), counter + 1),
                                 FileSkipped(r.entries, cfg.limits, r.chain, counter, cfg.dh, now)), taken + {counter})
  {
    FileSkippedIsEvict(r.entries, cfg.limits, r.chain, counter, cfg.dh, now);
    FileSkippedMembers(r.entries, cfg.limits, r.chain, counter, cfg.dh, now);
    FiledKeysAreRight(cfg, r, taken, counter, FileSkipped(r.entries, cfg.limits, r.chain, counter, cfg.dh, now));
  }

  lemma JumpReaches(cfg: Config, r: Receiver, counter: nat)
    requires r.chain == Steps(cfg.Start(), r.chain.counter) && r.chain.counter <= counter
    ensures Steps(r.chain, counter - r.chain.counter) == Steps(cfg.Start(), counter)
    ensures AdvanceChainKey(Steps(cfg.Start(), counter)) == Steps(cfg.Start(), counter + 1)
  {
    StepsCompose(cfg.Start(), r.chain.counter, counter - r.chain.counter);
  }

  lemma NothingStoredAhead(cfg: Config, r: Receiver, taken: set<nat>, counter: nat)
    requires InStep(cfg, r, taken) && r.chain.counter <= counter
    ensures Without(r.entries, cfg.dh, counter) == r.entries
    ensures counter !in taken
  {
    FindIsMembership(r.entries, cfg.dh, counter);
    WithoutAbsent(r.entries, cfg.dh, counter);
  }

  /** The receiver a forward jump leaves behind. */
  lemma ForwardResult(cfg: Config, r: Receiver, taken: set<nat>, counter: nat, now: real)
    requires cfg.Sensible() && InStep(cfg, r, taken) && counter < |cfg.sent|
    requires Readable(r.entries, cfg.dh, counter, now).None?
    requires r.chain.counter <= counter <= r.chain.counter + MAX_SKIP_PER_CHAIN
    ensures Receive(r, cfg.limits, Arrival(cfg, counter, now), cfg.PayloadAt(counter))
         == (Receiver(Steps(cfg.Start(), counter + 1),
                      FileSkipped(r.entries, cfg.limits, r.chain, counter, cfg.dh, now)),
             Ok(cfg.sent[counter].plaintext))
  {
    PayloadIsSealed(cfg, counter);
    NothingStoredAhead(cfg, r, taken, counter);
    JumpReaches(cfg, r, counter);
  }

  lemma DeliverForward(cfg: Config, r: Receiver, taken: set<nat>, counter: nat, now: real)
    requires cfg.Sensible() && InStep(cfg, r, taken) && counter < |cfg.sent|
    requires Readable(r.entries, cfg.dh, counter, now).None?
    requires r.chain.counter <= counter <= r.chain.counter + MAX_SKIP_PER_CHAIN
    ensures DeliveredRightly(cfg, r, taken, counter, now)
  {
    ForwardResult(cfg, r, taken, counter, now);
    NothingStoredAhead(cfg, r, taken, counter);
    JumpKeepsInStep(cfg, r, taken, counter, now);
  }

  /** The receiver one forward jump later, in terms of what was filed. */
  predicate Jumped(cfg: Config, r: Receiver, counter: nat, now: real, after: Receiver) {
    && after.chain.counter == counter + 1
    && after.entries == Evict(r.entries + SkippedItems(r.chain, counter, cfg.dh, now + cfg.limits.ttl),
                              cfg.limits.maxSkip)
  }

  /** A forward jump, seen without the bookkeeping of what was accepted before. */
  lemma JumpFiles(cfg: Config, r: Receiver, counter: nat, now: real)
    requires cfg.Sensible() && Follows(cfg, r) && counter < |cfg.sent|
    requires Readable(r.entries, cfg.dh, counter, now).None?
    requires r.chain.counter <= counter <= r.chain.counter + MAX_SKIP_PER_CHAIN
    ensures Jumped(cfg, r, counter, now,
                   Receive(r, cfg.limits, Arrival(cfg, counter, now), cfg.PayloadAt(counter)).0)
  {
    var taken :| InStep(cfg, r, taken);
    ForwardResult(cfg, r, taken, counter, now);
    FilingJumps(cfg, r, taken, counter, now);
  }

  lemma FilingJumps(cfg: Config, r: Receiver, taken: set<nat>, counter: nat, now: real)
    requires cfg.Sensible() && InStep(cfg, r, taken) && r.chain.counter <= counter
    ensures Jumped(cfg, r, counter, now,
                   Receiver(Steps(cfg.Start(), counter + 1),
                            FileSkipped(r.entries, cfg.limits, r.chain, counter, cfg.dh, now)))
  {
    StepsCount(cfg.Start(), counter + 1);
    FileSkippedIsEvict(r.entries, cfg.limits, r.chain, counter, cfg.dh, now);
  }

  lemma DeliverStep(cfg: Config, r: Receiver, taken: set<nat>, counter: nat, now: real)
    requires cfg.Sensible() && InStep(cfg, r, taken) && counter < |cfg.sent|
    ensures DeliveredRightly(cfg, r, taken, counter, now)
  {
    if Readable(r.entries, cfg.dh, counter, now).Some? {
      DeliverStored(cfg, r, taken, counter, now);
    } else if r.chain.counter <= counter <= r.chain.counter + MAX_SKIP_PER_CHAIN {
      DeliverForward(cfg, r, taken, counter, now);
    } else {
      DeliverRefused(cfg, r, taken, counter, now);
    }
  }

  /** Acceptance depends on the store and the chain counter alone. */
  lemma AcceptedExactlyWhen(cfg: Config, r: Receiver, counter: nat, now: real)
    requires cfg.Sensible() && Follows(cfg, r) && counter < |cfg.sent|
    ensures Receive(r, cfg.limits, Arrival(cfg, counter, now), cfg.PayloadAt(counter)).1.Ok? <==>
              Readable(r.entries, cfg.dh, counter, now).Some?
              || r.chain.counter <= counter <= r.chain.counter + MAX_SKIP_PER_CHAIN
  {
    var taken :| InStep(cfg, r, taken);
    DeliverStep(cfg, r, taken, counter, now);
  }

  lemma OtherStep(cfg: Config, r: Receiver, taken: set<nat>, e: Event)
    requires cfg.Sensible() && InStep(cfg, r, taken) && Admissible(cfg, e) && !e.Deliver?
    ensures InStep(cfg, StepEvent(cfg, r, e), taken)
    ensures StepEvent(cfg, r, e).chain == r.chain
  {
    match e
    case ExpireAll(now) => UnexpiredKeeps(r.entries, now);
    case OtherPut(entry) => PutKeeps(r.entries, cfg.limits.maxSkip, entry);
    case OtherGet(dh, counter, _) => WithoutDistinct(r.entries, dh, counter);
  }

  lemma TakenGrows(cfg: Config, start: Receiver, events: seq<Event>, i: nat)
    requires AllAdmissible(cfg, events) && i < |events|
    ensures Taken(cfg, start, events[..i + 1])
         == Taken(cfg, start, events[..i])
            + if AcceptedAt(cfg, start, events, i) then {events[i].counter} else {}
  {
    assert events[..i + 1][..i] == events[..i];
  }

  lemma {:induction false} TakenHolds(cfg: Config, start: Receiver, events: seq<Event>, i: nat, j: nat)
    requires AllAdmissible(cfg, events) && i < j <= |events| && AcceptedAt(cfg, start, events, i)
    ensures events[i].counter in Taken(cfg, start, events[..j])
    decreases j
  {
    TakenGrows(cfg, start, events, j - 1);
    if i < j - 1 {
      TakenHolds(cfg, start, events, i, j - 1);
    }
  }

  /** The invariant after every prefix of every run. */
  lemma {:induction false} AlwaysInStep(cfg: Config, start: Receiver, events: seq<Event>, i: nat)
    requires cfg.Sensible() && InStep(cfg, start, {}) && AllAdmissible(cfg, events) && i <= |events|
    ensures InStep(cfg, After(cfg, start, events[..i]), Taken(cfg, start, events[..i]))
  {
    if i > 0 {
      AlwaysInStep(cfg, start, events, i - 1);
      TakenGrows(cfg, start, events, i - 1);
      var before := events[..i - 1];
      assert events[..i][..i - 1] == before;
      var r, taken := After(cfg, start, before), Taken(cfg, start, before);
      match events[i - 1]
      case Deliver(counter, now) => DeliverStep(cfg, r, taken, counter, now);
      case _ => OtherStep(cfg, r, taken, events[i - 1]);
    }
  }

  // ---------- safety over whole runs ----------

  /** An accepted delivery returns what was sealed under that counter, whatever came before. */
  lemma AcceptedIsGenuine(cfg: Config, start: Receiver, events: seq<Event>, i: nat)
    requires cfg.Sensible() && InStep(cfg, start, {}) && AllAdmissible(cfg, events) && i < |events|
    requires AcceptedAt(cfg, start, events, i)
    ensures OutcomeAt(cfg, start, events, i) == Ok(cfg.sent[events[i].counter].plaintext)
  {
    AlwaysInStep(cfg, start, events, i);
    DeliverStep(cfg, After(cfg, start, events[..i]), Taken(cfg, start, events[..i]), events[i].counter, events[i].now);
  }

  /** No counter is accepted twice. */
  lemma AcceptedOnce(cfg: Config, start: Receiver, events: seq<Event>, i: nat, j: nat)
    requires cfg.Sensible() && InStep(cfg, start, {}) && AllAdmissible(cfg, events) && i < j < |events|
    requires AcceptedAt(cfg, start, events, i) && AcceptedAt(cfg, start, events, j)
    ensures events[i].counter != events[j].counter
  {
    AlwaysInStep(cfg, start, events, j);
    DeliverStep(cfg, After(cfg, start, events[..j]), Taken(cfg, start, events[..j]), events[j].counter, events[j].now);
    TakenHolds(cfg, start, events, i, j);
  }

  /** Exactly when a delivery is refused, and that a refusal costs nothing that is still alive. */
  lemma RefusedChangesNothing(cfg: Config, start: Receiver, events: seq<Event>, i: nat)
    requires cfg.Sensible() && InStep(cfg, start, {}) && AllAdmissible(cfg, events)
    requires i < |events| && events[i].Deliver?
    ensures var before, after := After(cfg, start, events[..i]), After(cfg, start, events[..i + 1]);
      var c, now := events[i].counter, events[i].now;
      && (!AcceptedAt(cfg, start, events, i) <==>
            Readable(before.entries, cfg.dh, c, now).None?
            && (c < before.chain.counter || c > before.chain.counter + MAX_SKIP_PER_CHAIN))
      && (!AcceptedAt(cfg, start, events, i) ==>
            && after.chain == before.chain
            && (forall e :: e in before.entries && now <= e.deadline ==> e in after.entries)
            && (forall e :: e in after.entries ==> e in before.entries))
  {
    AlwaysInStep(cfg, start, events, i);
    var before := After(cfg, start, events[..i]);
    DeliverStep(cfg, before, Taken(cfg, start, events[..i]), events[i].counter, events[i].now);
    WithoutDistinct(before.entries, cfg.dh, events[i].counter);
    assert events[..i + 1][..i] == events[..i];
  }
}
