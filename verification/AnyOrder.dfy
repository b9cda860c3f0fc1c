/**
 When every message of one chain arrives, each once and in some order, exactly which orders
 and times lead to every one of them being accepted.
 */
module AnyOrder {
  import opened FiniteSets
  import opened Wrappers
  import opened SymbolicCrypto
  import opened DoubleRatchet
  import opened SkippedKeys
  import opened Session
  import opened OutOfOrder

  ghost predicate Unseen(order: seq<nat>, i: nat)
    requires i < |order|
  {
    order[i] !in order[..i]
  }

  /** The order lists each counter below `n` once. */
  ghost predicate Permutation(order: seq<nat>, n: nat) {
    && (forall i :: 0 <= i < |order| ==> order[i] < n)
    && (forall i :: 0 <= i < |order| ==> Unseen(order, i))
    && (forall k :: 0 <= k < n ==> k in order)
  }

  function Deliveries(order: seq<nat>, times: seq<real>): (events: seq<Event>)
    requires |order| == |times|
    ensures |events| == |order|
    ensures forall i :: 0 <= i < |order| ==> events[i] == Deliver(order[i], times[i])
  {
    seq(|order|, i requires 0 <= i < |order| => Deliver(order[i], times[i]))
  }

  /** One more than the largest counter among the first `i` arrivals. */
  function Reached(order: seq<nat>, i: nat): nat
    requires i <= |order|
  {
    if i == 0 then 0
    else if order[i - 1] + 1 > Reached(order, i - 1) then order[i - 1] + 1
    else Reached(order, i - 1)
  }

  /** The counters the first `i` arrivals jumped over and did not bring. */
  ghost function Waiting(order: seq<nat>, i: nat): set<nat>
    requires i <= |order|
  {
    set k: nat | k < Reached(order, i) && k !in order[..i]
  }

  /** The arrival that moved the chain past counter `c`. */
  function PassedAt(order: seq<nat>, i: nat, c: nat): (j: nat)
    requires i <= |order| && c < Reached(order, i)
    ensures j < i
  {
    if Reached(order, i - 1) <= c then i - 1 else PassedAt(order, i - 1, c)
  }

  /** The three demands on the i-th arrival: no long jump, not too late, room in the store. */
  ghost predicate Met(cfg: Config, order: seq<nat>, times: seq<real>, i: nat)
    requires |order| == |times| && i < |order|
  {
    && order[i] <= Reached(order, i) + MAX_SKIP_PER_CHAIN
    && (order[i] < Reached(order, i) ==> times[i] <= times[PassedAt(order, i, order[i])] + cfg.limits.ttl)
    && |Waiting(order, i + 1)| <= cfg.limits.maxSkip
  }

  function Begin(cfg: Config): Receiver {
    Receiver(cfg.Start(), [])
  }

  ghost predicate Fits(cfg: Config, order: seq<nat>, times: seq<real>) {
    cfg.Sensible() && |times| == |order| && forall i :: 0 <= i < |order| ==> order[i] < |cfg.sent|
  }

  ghost predicate Setting(cfg: Config, order: seq<nat>, times: seq<real>) {
    Fits(cfg, order, times) && Permutation(order, |cfg.sent|)
  }

  ghost function StateAt(cfg: Config, order: seq<nat>, times: seq<real>, i: nat): Receiver
    requires Fits(cfg, order, times) && i <= |order|
  {
    After(cfg, Begin(cfg), Deliveries(order, times)[..i])
  }

  ghost predicate Accepted(cfg: Config, order: seq<nat>, times: seq<real>, i: nat)
    requires Fits(cfg, order, times) && i < |order|
  {
    AcceptedAt(cfg, Begin(cfg), Deliveries(order, times), i)
  }

  ghost predicate Listed(cfg: Config, order: seq<nat>, times: seq<real>, i: nat, e: Entry)
    requires |times| == |order| && i <= |order|
  {
    && e.dh == cfg.dh
    && e.counter >= 0 && e.counter in Waiting(order, i)
    && e.deadline == times[PassedAt(order, i, e.counter)] + cfg.limits.ttl
  }

  predicate Rising(entries: seq<Entry>) {
    forall i, j :: 0 <= i < j < |entries| ==> entries[i].counter < entries[j].counter
  }

  /** The store lists exactly the counters waited for, in rising order, each with the deadline of its filing. */
  ghost predicate Lists(cfg: Config, order: seq<nat>, times: seq<real>, i: nat, entries: seq<Entry>)
    requires |times| == |order| && i <= |order|
  {
    && Distinct(entries) && Rising(entries)
    && (forall e :: e in entries ==> Listed(cfg, order, times, i, e))
    && (forall k :: k in Waiting(order, i) ==> Find(entries, cfg.dh, k).Some?)
  }

  ghost predicate Exact(cfg: Config, order: seq<nat>, times: seq<real>, i: nat)
    requires Fits(cfg, order, times) && i <= |order|
  {
    var r := StateAt(cfg, order, times, i);
    r.chain.counter == Reached(order, i) && Lists(cfg, order, times, i, r.entries)
  }

  // ---------- the state one arrival later ----------

  lemma FollowsAt(cfg: Config, order: seq<nat>, times: seq<real>, i: nat)
    requires Fits(cfg, order, times) && i <= |order|
    ensures Follows(cfg, StateAt(cfg, order, times, i))
  {
    AlwaysInStep(cfg, Begin(cfg), Deliveries(order, times), i);
  }

  lemma NextState(cfg: Config, order: seq<nat>, times: seq<real>, i: nat)
    requires Fits(cfg, order, times) && i < |order|
    ensures StateAt(cfg, order, times, i + 1)
         == Receive(StateAt(cfg, order, times, i), cfg.limits, Arrival(cfg, order[i], times[i]),
                    cfg.PayloadAt(order[i])).0
  {
    var events := Deliveries(order, times);
    assert events[..i + 1][..i] == events[..i];
  }

  lemma AcceptedExactly(cfg: Config, order: seq<nat>, times: seq<real>, i: nat)
    requires Fits(cfg, order, times) && i < |order|
    ensures var r := StateAt(cfg, order, times, i);
      Accepted(cfg, order, times, i) <==>
        Readable(r.entries, cfg.dh, order[i], times[i]).Some?
        || r.chain.counter <= order[i] <= r.chain.counter + MAX_SKIP_PER_CHAIN
  {
    FollowsAt(cfg, order, times, i);
    AcceptedExactlyWhen(cfg, StateAt(cfg, order, times, i), order[i], times[i]);
  }

  lemma WaitingAfterLate(order: seq<nat>, i: nat)
    requires i < |order| && order[i] < Reached(order, i)
    ensures Waiting(order, i + 1) == Waiting(order, i) - {order[i]}
  {
    assert order[..i + 1] == order[..i] + [order[i]];
  }

  lemma {:induction false} ReachedBounds(order: seq<nat>, i: nat)
    requires i <= |order|
    ensures forall j :: 0 <= j < i ==> order[j] < Reached(order, i)
    ensures i > 0 ==> exists j :: 0 <= j < i && Reached(order, i) == order[j] + 1
  {
    if i > 0 {
      ReachedBounds(order, i - 1);
    }
  }

  lemma WaitingAfterJump(order: seq<nat>, i: nat, next: nat)
    requires i < |order| && next == i + 1 && order[i] >= Reached(order, i)
    ensures Reached(order, next) == order[i] + 1
    ensures forall k: nat :: k in Waiting(order, next) <==> k in Waiting(order, i) || Reached(order, i) <= k < order[i]
  {
    ReachedBounds(order, i);
    assert order[..next] == order[..i] + [order[i]];
    assert forall x :: x in order[..i] ==> x < Reached(order, i);
  }

  lemma {:induction false} CountListed(entries: seq<Entry>, dh: PublicKey, counters: set<nat>)
    requires Distinct(entries)
    requires forall e :: e in entries ==> e.dh == dh && e.counter >= 0 && e.counter in counters
    requires forall k :: k in counters ==> exists e :: e in entries && e.counter == k
    ensures |entries| == |counters|
  {
    if entries == [] {
      assert counters == {};
    } else {
      var first, rest := entries[0], entries[1..];
      assert entries == [first] + rest;
      forall e | e in rest
        ensures e.counter != first.counter
      {
        var i :| 0 <= i < |rest| && rest[i] == e;
        assert entries[i + 1] == e;
      }
      CountListed(rest, dh, counters - {first.counter as nat});
    }
  }

  lemma ListsCount(cfg: Config, order: seq<nat>, times: seq<real>, i: nat, entries: seq<Entry>)
    requires |times| == |order| && i <= |order| && Lists(cfg, order, times, i, entries)
    ensures |entries| == |Waiting(order, i)|
  {
    forall k | k in Waiting(order, i)
      ensures exists e :: e in entries && e.counter == k
    {
      FindIsMembership(entries, cfg.dh, k);
    }
    CountListed(entries, cfg.dh, Waiting(order, i));
  }

  /** A late arrival that was filed and is still in time is accepted and crossed off. */
  lemma LateArrival(cfg: Config, order: seq<nat>, times: seq<real>, i: nat)
    requires Setting(cfg, order, times) && i < |order| && Exact(cfg, order, times, i)
    requires order[i] < Reached(order, i)
    ensures Accepted(cfg, order, times, i)
       <==> times[i] <= times[PassedAt(order, i, order[i])] + cfg.limits.ttl
    ensures Accepted(cfg, order, times, i) ==> Exact(cfg, order, times, i + 1)
    ensures Accepted(cfg, order, times, i) ==> Waiting(order, i + 1) <= Waiting(order, i)
  {
    var r, c := StateAt(cfg, order, times, i), order[i];
    NextState(cfg, order, times, i);
    AcceptedExactly(cfg, order, times, i);
    assert Unseen(order, i);
    assert c in Waiting(order, i);
    FindIsMembership(r.entries, cfg.dh, c);
    WaitingAfterLate(order, i);
    WithoutDistinct(r.entries, cfg.dh, c);
    WithoutRising(r.entries, cfg.dh, c);
    StillFound(r.entries, cfg.dh, c, Waiting(order, i + 1));
  }

  lemma StillFound(entries: seq<Entry>, dh: PublicKey, c: nat, waiting: set<nat>)
    requires c !in waiting && forall k :: k in waiting ==> Find(entries, dh, k).Some?
    ensures forall k :: k in waiting ==> Find(Without(entries, dh, c), dh, k).Some?
  {
    forall k | k in waiting
      ensures Find(Without(entries, dh, c), dh, k).Some?
    {
      WithoutFind(entries, dh, c, dh, k);
    }
  }

  lemma {:induction false} WithoutRising(entries: seq<Entry>, dh: PublicKey, counter: int)
    requires Rising(entries) && Distinct(entries)
    ensures Rising(Without(entries, dh, counter))
  {
    if entries != [] {
      var rest := entries[1..];
      WithoutRising(rest, dh, counter);
      WithoutDistinct(rest, dh, counter);
      assert forall e :: e in rest ==> entries[0].counter < e.counter;
    }
  }

  lemma RisingAppend(a: seq<Entry>, b: seq<Entry>)
    requires Rising(a) && Rising(b) && forall x, y :: x in a && y in b ==> x.counter < y.counter
    ensures Rising(a + b)
  {
    var c := a + b;
    forall i, j | 0 <= i < j < |c|
      ensures c[i].counter < c[j].counter
    {
      if i < |a| <= j {
        assert a[i] in a && b[j - |a|] in b;
      }
    }
  }

  lemma DistinctAppend(a: seq<Entry>, b: seq<Entry>)
    requires Distinct(a) && Distinct(b)
    requires forall x, y :: x in a && y in b ==> !x.IsFor(y.dh, y.counter)
    ensures Distinct(a + b)
  {
    var c := a + b;
    forall i, j | 0 <= i < j < |c|
      ensures !c[i].IsFor(c[j].dh, c[j].counter)
    {
      if i < |a| <= j {
        assert a[i] in a && b[j - |a|] in b;
      }
    }
  }

  lemma SkippedItemsShape(chain: ChainKey, target: nat, dh: PublicKey, deadline: real)
    requires chain.counter <= target
    ensures Distinct(SkippedItems(chain, target, dh, deadline)) && Rising(SkippedItems(chain, target, dh, deadline))
    ensures forall e :: e in SkippedItems(chain, target, dh, deadline) ==>
              e.dh == dh && chain.counter <= e.counter < target && e.deadline == deadline
    ensures forall k: nat :: chain.counter <= k < target ==>
              Find(SkippedItems(chain, target, dh, deadline), dh, k).Some?
  {
    var items := SkippedItems(chain, target, dh, deadline);
    forall j | 0 <= j < |items|
      ensures items[j].dh == dh && items[j].counter == chain.counter + j && items[j].deadline == deadline
    {
      SkippedItemsAt(chain, target, dh, deadline, j);
    }
    forall k: nat | chain.counter <= k < target
      ensures Find(items, dh, k).Some?
    {
      FindIsMembership(items, dh, k);
      assert items[k - chain.counter].IsFor(dh, k);
    }
  }

  lemma FindAppend(a: seq<Entry>, b: seq<Entry>, dh: PublicKey, c: int)
    ensures Find(a + b, dh, c).Some? <==> Find(a, dh, c).Some? || Find(b, dh, c).Some?
  {
    FindIsMembership(a, dh, c);
    FindIsMembership(b, dh, c);
    FindIsMembership(a + b, dh, c);
    if exists j :: 0 <= j < |b| && b[j].IsFor(dh, c) {
      var j :| 0 <= j < |b| && b[j].IsFor(dh, c);
      assert (a + b)[|a| + j].IsFor(dh, c);
    }
    if exists j :: 0 <= j < |a| && a[j].IsFor(dh, c) {
      var j :| 0 <= j < |a| && a[j].IsFor(dh, c);
      assert (a + b)[j].IsFor(dh, c);
    }
  }

  lemma OldItemsAfterJump(cfg: Config, order: seq<nat>, times: seq<real>, i: nat, next: nat, entries: seq<Entry>)
    requires |times| == |order| && i < |order| && next == i + 1 && order[i] >= Reached(order, i)
    requires Lists(cfg, order, times, i, entries)
    ensures forall e :: e in entries ==> Listed(cfg, order, times, next, e)
  {
    WaitingAfterJump(order, i, next);
  }

  lemma NewItemsAfterJump(cfg: Config, order: seq<nat>, times: seq<real>, i: nat, next: nat, items: seq<Entry>)
    requires |times| == |order| && i < |order| && next == i + 1 && order[i] >= Reached(order, i)
    requires forall e :: e in items ==>
               e.dh == cfg.dh && Reached(order, i) <= e.counter < order[i] && e.deadline == times[i] + cfg.limits.ttl
    ensures forall e :: e in items ==> Listed(cfg, order, times, next, e)
  {
    WaitingAfterJump(order, i, next);
  }

  lemma AllFoundAfterJump(cfg: Config, order: seq<nat>, times: seq<real>, i: nat, next: nat,
                          entries: seq<Entry>, items: seq<Entry>)
    requires |times| == |order| && i < |order| && next == i + 1 && order[i] >= Reached(order, i)
    requires forall k :: k in Waiting(order, i) ==> Find(entries, cfg.dh, k).Some?
    requires forall k: nat :: Reached(order, i) <= k < order[i] ==> Find(items, cfg.dh, k).Some?
    ensures forall k :: k in Waiting(order, next) ==> Find(entries + items, cfg.dh, k).Some?
  {
    WaitingAfterJump(order, i, next);
    forall k | k in Waiting(order, next)
      ensures Find(entries + items, cfg.dh, k).Some?
    {
      FindAppend(entries, items, cfg.dh, k);
    }
  }

  lemma JoinedInOrder(a: seq<Entry>, b: seq<Entry>, from: nat)
    requires Distinct(a) && Rising(a) && Distinct(b) && Rising(b)
    requires (forall x :: x in a ==> x.counter < from) && forall y :: y in b ==> from <= y.counter
    ensures Distinct(a + b) && Rising(a + b)
  {
    DistinctAppend(a, b);
    RisingAppend(a, b);
  }

  /** What the store would list after a jump if it had no bound. */
  lemma UnboundedLists(cfg: Config, order: seq<nat>, times: seq<real>, i: nat, next: nat,
                       chain: ChainKey, entries: seq<Entry>)
    requires |times| == |order| && i < |order| && next == i + 1 && order[i] >= Reached(order, i)
    requires chain.counter == Reached(order, i) && Lists(cfg, order, times, i, entries)
    ensures Lists(cfg, order, times, next,
                  entries + SkippedItems(chain, order[i], cfg.dh, times[i] + cfg.limits.ttl))
  {
    var items := SkippedItems(chain, order[i], cfg.dh, times[i] + cfg.limits.ttl);
    SkippedItemsShape(chain, order[i], cfg.dh, times[i] + cfg.limits.ttl);
    JoinedInOrder(entries, items, Reached(order, i));
    OldItemsAfterJump(cfg, order, times, i, next, entries);
    NewItemsAfterJump(cfg, order, times, i, next, items);
    AllFoundAfterJump(cfg, order, times, i, next, entries, items);
    assert forall e :: e in entries + items ==> e in entries || e in items;
  }

  /** The key of counter `k` is gone for good: passed by the chain and no longer stored. */
  ghost predicate Lost(cfg: Config, r: Receiver, k: nat) {
    k < r.chain.counter && Find(r.entries, cfg.dh, k).None?
  }

  /** The i-th state has lost a key that is still waited for. */
  ghost predicate LosesOne(cfg: Config, order: seq<nat>, times: seq<real>, i: nat)
    requires Fits(cfg, order, times) && i <= |order|
  {
    exists k :: k in Waiting(order, i) && Lost(cfg, StateAt(cfg, order, times, i), k)
  }

  /** Of the counters waited for the store has exactly the `limit` filed last. */
  ghost predicate HasLatest(entries: seq<Entry>, dh: PublicKey, waiting: set<nat>, limit: nat) {
    forall k :: k in waiting ==> (Find(entries, dh, k).Some? <==> |Later(waiting, k)| < limit)
  }

  /** On one chain the counters are filed in rising order. */
  ghost function Later(waiting: set<nat>, k: nat): set<nat> {
    set w | w in waiting && w > k
  }

  /** Whatever stands behind an item in a rising list was filed later. */
  lemma BehindIsLater(entries: seq<Entry>, dh: PublicKey, waiting: set<nat>, p: nat)
    requires Distinct(entries) && Rising(entries) && p < |entries|
    requires forall e :: e in entries ==> e.dh == dh && e.counter >= 0 && e.counter in waiting
    requires forall k :: k in waiting ==> Find(entries, dh, k).Some?
    ensures entries[p].counter >= 0 && |Later(waiting, entries[p].counter)| == |entries| - 1 - p
  {
    var k: nat := entries[p].counter;
    var behind, later := entries[p + 1..], Later(waiting, k);
    forall w | w in later
      ensures exists e :: e in behind && e.counter == w
    {
      FindIsMembership(entries, dh, w);
      var j :| 0 <= j < |entries| && entries[j].IsFor(dh, w);
      assert j > p && behind[j - p - 1] == entries[j];
    }
    CountListed(behind, dh, later);
  }

  /** Trimming from the old end leaves the latest. */
  lemma EvictLeavesLatest(entries: seq<Entry>, dh: PublicKey, waiting: set<nat>, limit: nat)
    requires Distinct(entries) && Rising(entries)
    requires forall e :: e in entries ==> e.dh == dh && e.counter >= 0 && e.counter in waiting
    requires forall k :: k in waiting ==> Find(entries, dh, k).Some?
    ensures HasLatest(Evict(entries, limit), dh, waiting, limit)
  {
    var left := Evict(entries, limit);
    var gone := |entries| - |left|;
    forall k | k in waiting
      ensures Find(left, dh, k).Some? <==> |Later(waiting, k)| < limit
    {
      FindIsMembership(entries, dh, k);
      var p :| 0 <= p < |entries| && entries[p].IsFor(dh, k);
      BehindIsLater(entries, dh, waiting, p);
      SuffixFinds(entries, gone, p);
    }
  }

  lemma SuffixFinds(entries: seq<Entry>, gone: nat, p: nat)
    requires Distinct(entries) && p < |entries| && gone <= |entries|
    ensures Find(entries[gone..], entries[p].dh, entries[p].counter).Some? <==> p >= gone
  {
    var left := entries[gone..];
    FindIsMembership(left, entries[p].dh, entries[p].counter);
    if p >= gone {
      assert left[p - gone] == entries[p];
    }
    if j :| 0 <= j < |left| && left[j].IsFor(entries[p].dh, entries[p].counter) {
      assert entries[gone + j] == left[j];
    }
  }

  lemma NotFiledYet(cfg: Config, order: seq<nat>, times: seq<real>, i: nat)
    requires Fits(cfg, order, times) && i < |order| && Exact(cfg, order, times, i)
    requires order[i] >= Reached(order, i)
    ensures Readable(StateAt(cfg, order, times, i).entries, cfg.dh, order[i], times[i]).None?
  {
    FindIsMembership(StateAt(cfg, order, times, i).entries, cfg.dh, order[i]);
  }

  lemma StateAfterJump(cfg: Config, order: seq<nat>, times: seq<real>, i: nat)
    requires Fits(cfg, order, times) && i < |order|
    requires var r := StateAt(cfg, order, times, i);
      && Readable(r.entries, cfg.dh, order[i], times[i]).None?
      && r.chain.counter <= order[i] <= r.chain.counter + MAX_SKIP_PER_CHAIN
    ensures Jumped(cfg, StateAt(cfg, order, times, i), order[i], times[i], StateAt(cfg, order, times, i + 1))
  {
    FollowsAt(cfg, order, times, i);
    NextState(cfg, order, times, i);
    JumpFiles(cfg, StateAt(cfg, order, times, i), order[i], times[i]);
  }

  lemma EvictLists(cfg: Config, order: seq<nat>, times: seq<real>, i: nat, all: seq<Entry>, r: Receiver)
    requires |times| == |order| && i <= |order| && Lists(cfg, order, times, i, all)
    requires r.entries == Evict(all, cfg.limits.maxSkip) && r.chain.counter == Reached(order, i)
    ensures |Waiting(order, i)| <= cfg.limits.maxSkip ==> Lists(cfg, order, times, i, r.entries)
    ensures |Waiting(order, i)| > cfg.limits.maxSkip ==> exists k :: k in Waiting(order, i) && Lost(cfg, r, k)
    ensures HasLatest(r.entries, cfg.dh, Waiting(order, i), cfg.limits.maxSkip)
  {
    ListsCount(cfg, order, times, i, all);
    EvictLeavesLatest(all, cfg.dh, Waiting(order, i), cfg.limits.maxSkip);
    if |all| > cfg.limits.maxSkip {
      var k := all[0].counter;
      assert all[0] in all;
      FindIsMembership(r.entries, cfg.dh, k);
      assert Lost(cfg, r, k);
    }
  }

  lemma JumpKeepsLists(cfg: Config, order: seq<nat>, times: seq<real>, i: nat, r: Receiver, after: Receiver)
    requires |times| == |order| && i < |order| && order[i] >= Reached(order, i)
    requires r.chain.counter == Reached(order, i) && Lists(cfg, order, times, i, r.entries)
    requires Jumped(cfg, r, order[i], times[i], after)
    ensures after.chain.counter == Reached(order, i + 1)
    ensures |Waiting(order, i + 1)| <= cfg.limits.maxSkip ==> Lists(cfg, order, times, i + 1, after.entries)
    ensures |Waiting(order, i + 1)| > cfg.limits.maxSkip ==>
              exists k :: Lost(cfg, after, k) && k in Waiting(order, i + 1)
    ensures HasLatest(after.entries, cfg.dh, Waiting(order, i + 1), cfg.limits.maxSkip)
  {
    var all := r.entries + SkippedItems(r.chain, order[i], cfg.dh, times[i] + cfg.limits.ttl);
    UnboundedLists(cfg, order, times, i, i + 1, r.chain, r.entries);
    WaitingAfterJump(order, i, i + 1);
    EvictLists(cfg, order, times, i + 1, all, after);
  }

  lemma JumpArrival(cfg: Config, order: seq<nat>, times: seq<real>, i: nat)
    requires Fits(cfg, order, times) && i < |order| && Exact(cfg, order, times, i)
    requires order[i] >= Reached(order, i)
    ensures Accepted(cfg, order, times, i) <==> order[i] <= Reached(order, i) + MAX_SKIP_PER_CHAIN
    ensures Accepted(cfg, order, times, i) && |Waiting(order, i + 1)| <= cfg.limits.maxSkip ==>
              Exact(cfg, order, times, i + 1)
    ensures Accepted(cfg, order, times, i) && |Waiting(order, i + 1)| > cfg.limits.maxSkip ==>
              LosesOne(cfg, order, times, i + 1)
    ensures Accepted(cfg, order, times, i) ==>
              HasLatest(StateAt(cfg, order, times, i + 1).entries, cfg.dh, Waiting(order, i + 1), cfg.limits.maxSkip)
  {
    NotFiledYet(cfg, order, times, i);
    AcceptedExactly(cfg, order, times, i);
    if Accepted(cfg, order, times, i) {
      StateAfterJump(cfg, order, times, i);
      JumpKeepsLists(cfg, order, times, i, StateAt(cfg, order, times, i), StateAt(cfg, order, times, i + 1));
    }
  }

  /** A lost key is never found again, so its message is refused whenever it comes. */
  lemma {:induction false} LostIsRefused(cfg: Config, order: seq<nat>, times: seq<real>, i: nat, j: nat, k: nat)
    requires Fits(cfg, order, times) && i <= j < |order| && Lost(cfg, StateAt(cfg, order, times, i), k)
    ensures Lost(cfg, StateAt(cfg, order, times, j), k)
    ensures order[j] == k ==> !Accepted(cfg, order, times, j)
    decreases j - i
  {
    AcceptedExactly(cfg, order, times, i);
    if i < j {
      NextState(cfg, order, times, i);
      FollowsAt(cfg, order, times, i);
      LostStays(cfg, StateAt(cfg, order, times, i), order[i], times[i], k);
      LostIsRefused(cfg, order, times, i + 1, j, k);
    }
  }

  lemma LostStays(cfg: Config, r: Receiver, counter: nat, now: real, k: nat)
    requires cfg.Sensible() && Follows(cfg, r) && counter < |cfg.sent| && Lost(cfg, r, k)
    ensures Lost(cfg, Receive(r, cfg.limits, Arrival(cfg, counter, now), cfg.PayloadAt(counter)).0, k)
  {
    WithoutFind(r.entries, cfg.dh, counter, cfg.dh, k);
    AcceptedExactlyWhen(cfg, r, counter, now);
    if Readable(r.entries, cfg.dh, counter, now).None?
       && r.chain.counter <= counter <= r.chain.counter + MAX_SKIP_PER_CHAIN {
      JumpFiles(cfg, r, counter, now);
      var items := SkippedItems(r.chain, counter, cfg.dh, now + cfg.limits.ttl);
      SkippedItemsShape(r.chain, counter, cfg.dh, now + cfg.limits.ttl);
      FindIsMembership(items, cfg.dh, k);
      FindAppend(r.entries, items, cfg.dh, k);
      FindEvicted(r.entries + items, cfg.limits.maxSkip, cfg.dh, k);
    }
  }

  lemma FindEvicted(entries: seq<Entry>, limit: nat, dh: PublicKey, c: int)
    requires Find(entries, dh, c).None?
    ensures Find(Evict(entries, limit), dh, c).None?
  {
    FindIsMembership(entries, dh, c);
    FindIsMembership(Evict(entries, limit), dh, c);
  }

  // ---------- the theorem ----------

  lemma ExactStep(cfg: Config, order: seq<nat>, times: seq<real>, i: nat)
    requires Setting(cfg, order, times) && i < |order| && Exact(cfg, order, times, i)
    requires |Waiting(order, i)| <= cfg.limits.maxSkip
    ensures Met(cfg, order, times, i) ==> Accepted(cfg, order, times, i) && Exact(cfg, order, times, i + 1)
    ensures Accepted(cfg, order, times, i) && !Met(cfg, order, times, i) ==>
              LosesOne(cfg, order, times, i + 1)
  {
    if order[i] < Reached(order, i) {
      LateArrival(cfg, order, times, i);
      WaitingAfterLate(order, i);
      Smaller(Waiting(order, i + 1), Waiting(order, i));
    } else {
      JumpArrival(cfg, order, times, i);
    }
  }

  lemma ExactAtStart(cfg: Config, order: seq<nat>, times: seq<real>)
    requires Fits(cfg, order, times)
    ensures Exact(cfg, order, times, 0) && Waiting(order, 0) == {}
  {
  }

  ghost predicate AllMet(cfg: Config, order: seq<nat>, times: seq<real>, i: nat)
    requires Fits(cfg, order, times) && i <= |order|
  {
    forall j :: 0 <= j < i ==> Met(cfg, order, times, j)
  }

  ghost predicate AllAccepted(cfg: Config, order: seq<nat>, times: seq<real>, i: nat)
    requires Fits(cfg, order, times) && i <= |order|
  {
    forall j :: 0 <= j < i ==> Accepted(cfg, order, times, j)
  }

  /** The store lists what is waited for, and there is room for it. */
  ghost predicate InOrder(cfg: Config, order: seq<nat>, times: seq<real>, i: nat)
    requires Fits(cfg, order, times) && i <= |order|
  {
    Exact(cfg, order, times, i) && |Waiting(order, i)| <= cfg.limits.maxSkip
  }

  lemma InOrderAtStart(cfg: Config, order: seq<nat>, times: seq<real>)
    requires Setting(cfg, order, times)
    ensures InOrder(cfg, order, times, 0)
  {
    ExactAtStart(cfg, order, times);
  }

  lemma MetStep(cfg: Config, order: seq<nat>, times: seq<real>, i: nat, next: nat)
    requires Setting(cfg, order, times) && i < |order| && next == i + 1
    requires InOrder(cfg, order, times, i) && Met(cfg, order, times, i)
    ensures Accepted(cfg, order, times, i) && InOrder(cfg, order, times, next)
  {
    ExactStep(cfg, order, times, i);
  }

  lemma {:induction false} MetPrefixInOrder(cfg: Config, order: seq<nat>, times: seq<real>, m: nat, i: nat)
    requires Setting(cfg, order, times) && i <= m <= |order| && AllMet(cfg, order, times, m)
    ensures InOrder(cfg, order, times, i)
  {
    if i == 0 {
      InOrderAtStart(cfg, order, times);
    } else {
      var j: nat := i - 1;
      MetPrefixInOrder(cfg, order, times, m, j);
      assert Met(cfg, order, times, j);
      MetStep(cfg, order, times, j, i);
    }
  }

  /** When the store overflows for the first time it loses the keys filed first: exactly the counters with
      `maxSkip` later ones waiting, and their messages are refused whenever they come. */
  lemma OverflowLosesOldest(cfg: Config, order: seq<nat>, times: seq<real>, i: nat, k: nat)
    requires Setting(cfg, order, times) && i < |order| && AllMet(cfg, order, times, i)
    requires Accepted(cfg, order, times, i) && order[i] >= Reached(order, i) && k in Waiting(order, i + 1)
    ensures Find(StateAt(cfg, order, times, i + 1).entries, cfg.dh, k).Some?
       <==> |Later(Waiting(order, i + 1), k)| < cfg.limits.maxSkip
    ensures |Later(Waiting(order, i + 1), k)| >= cfg.limits.maxSkip ==>
              forall j :: i < j < |order| && order[j] == k ==> !Accepted(cfg, order, times, j)
  {
    MetPrefixInOrder(cfg, order, times, i, i);
    JumpArrival(cfg, order, times, i);
    StateAfterJumpReaches(cfg, order, times, i);
    if |Later(Waiting(order, i + 1), k)| >= cfg.limits.maxSkip {
      forall j | i < j < |order| && order[j] == k
        ensures !Accepted(cfg, order, times, j)
      {
        LostIsRefused(cfg, order, times, i + 1, j, k);
      }
    }
  }

  lemma StateAfterJumpReaches(cfg: Config, order: seq<nat>, times: seq<real>, i: nat)
    requires Fits(cfg, order, times) && i < |order| && Exact(cfg, order, times, i)
    requires Accepted(cfg, order, times, i) && order[i] >= Reached(order, i)
    ensures StateAt(cfg, order, times, i + 1).chain.counter == Reached(order, i + 1)
  {
    NotFiledYet(cfg, order, times, i);
    AcceptedExactly(cfg, order, times, i);
    StateAfterJump(cfg, order, times, i);
  }

  lemma LosingOneRefusesOne(cfg: Config, order: seq<nat>, times: seq<real>, i: nat)
    requires Setting(cfg, order, times) && i <= |order| && LosesOne(cfg, order, times, i)
    ensures !AllAccepted(cfg, order, times, |order|)
  {
    var k :| k in Waiting(order, i) && Lost(cfg, StateAt(cfg, order, times, i), k);
    ReachedBounds(order, i);
    assert k in order;
    forall j | 0 <= j < i
      ensures order[j] in order[..i]
    {
      assert order[..i][j] == order[j];
    }
    var j :| 0 <= j < |order| && order[j] == k;
    LostIsRefused(cfg, order, times, i, j, k);
  }

  lemma AcceptedIsMet(cfg: Config, order: seq<nat>, times: seq<real>, i: nat)
    requires Setting(cfg, order, times) && i < |order|
    requires AllMet(cfg, order, times, i) && AllAccepted(cfg, order, times, |order|)
    ensures Met(cfg, order, times, i)
  {
    MetPrefixInOrder(cfg, order, times, i, i);
    ExactStep(cfg, order, times, i);
    assert Accepted(cfg, order, times, i);
    if LosesOne(cfg, order, times, i + 1) {
      LosingOneRefusesOne(cfg, order, times, i + 1);
    }
  }

  lemma {:induction false} AcceptedPrefixMet(cfg: Config, order: seq<nat>, times: seq<real>, i: nat)
    requires Setting(cfg, order, times) && i <= |order| && AllAccepted(cfg, order, times, |order|)
    ensures AllMet(cfg, order, times, i)
  {
    if i > 0 {
      AcceptedPrefixMet(cfg, order, times, i - 1);
      AcceptedIsMet(cfg, order, times, i - 1);
    }
  }

  /** Everything is accepted if and only if every arrival meets the three demands. */
  lemma AllAcceptedIffMet(cfg: Config, order: seq<nat>, times: seq<real>)
    requires Setting(cfg, order, times)
    ensures AllAccepted(cfg, order, times, |order|) <==> AllMet(cfg, order, times, |order|)
  {
    if AllAccepted(cfg, order, times, |order|) {
      AcceptedPrefixMet(cfg, order, times, |order|);
    }
    if AllMet(cfg, order, times, |order|) {
      forall j | 0 <= j < |order|
        ensures Accepted(cfg, order, times, j)
      {
        MetPrefixInOrder(cfg, order, times, |order|, j);
        MetStep(cfg, order, times, j, j + 1);
      }
    }
  }

  lemma EverythingReached(order: seq<nat>, n: nat)
    requires Permutation(order, n)
    ensures Reached(order, |order|) == n && Waiting(order, |order|) == {}
  {
    ReachedBounds(order, |order|);
    assert order[..|order|] == order;
    if n > 0 {
      var last: nat := n - 1;
      assert last in order;
    }
  }

  /** Then the store lists the overtaken counters throughout, and at the end both sides agree. */
  lemma AllAcceptedEndsEven(cfg: Config, order: seq<nat>, times: seq<real>)
    requires Setting(cfg, order, times) && AllAccepted(cfg, order, times, |order|)
    ensures forall i :: 0 <= i <= |order| ==> Exact(cfg, order, times, i)
    ensures StateAt(cfg, order, times, |order|) == Receiver(EncryptAll(cfg.Start(), cfg.sent).1, [])
  {
    AllAcceptedIffMet(cfg, order, times);
    forall i | 0 <= i <= |order|
      ensures Exact(cfg, order, times, i)
    {
      MetPrefixInOrder(cfg, order, times, |order|, i);
    }
    var n, end := |order|, StateAt(cfg, order, times, |order|);
    EverythingReached(order, |cfg.sent|);
    assert Exact(cfg, order, times, n);
    ListsCount(cfg, order, times, n, end.entries);
    FollowsAt(cfg, order, times, n);
    EncryptAllSeals(cfg.Start(), cfg.sent);
  }
}
