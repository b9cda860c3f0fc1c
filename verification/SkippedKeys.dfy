/**
 The store of skipped message keys, app/crypto/skipped_keys.py: least recently stored key
 first, bounded in number, each key readable once and only until its deadline.
 Clock readings are parameters.
 */
module SkippedKeys {
  import opened Wrappers
  import opened SymbolicCrypto

  /** One item of the ordered dictionary: its key is `(dh, counter)`. */
  datatype Entry = Entry(dh: PublicKey, counter: int, key: Key, deadline: real) {
    predicate IsFor(d: PublicKey, c: int) {
      dh == d && counter == c
    }
  }

  function Find(entries: seq<Entry>, dh: PublicKey, counter: int): Option<Entry> {
    if entries == [] then None
    else if entries[0].IsFor(dh, counter) then Some(entries[0])
    else Find(entries[1..], dh, counter)
  }

  function Without(entries: seq<Entry>, dh: PublicKey, counter: int): seq<Entry> {
    if entries == [] then []
    else if entries[0].IsFor(dh, counter) then Without(entries[1..], dh, counter)
    else [entries[0]] + Without(entries[1..], dh, counter)
  }

  /** Drops the oldest items until at most `limit` are left. */
  function Evict(entries: seq<Entry>, limit: nat): seq<Entry> {
    if |entries| <= limit then entries else entries[|entries| - limit..]
  }

  function Put(entries: seq<Entry>, limit: nat, e: Entry): seq<Entry> {
    Evict(Without(entries, e.dh, e.counter) + [e], limit)
  }

  /** The key handed out by a lookup, if any: it must be present and not past its deadline. */
  function Readable(entries: seq<Entry>, dh: PublicKey, counter: int, now: real): Option<Key> {
    match Find(entries, dh, counter)
    case Some(e) => if now > e.deadline then None else Some(e.key)
    case None => None
  }

  function Unexpired(entries: seq<Entry>, now: real): seq<Entry> {
    if entries == [] then []
    else if now > entries[0].deadline then Unexpired(entries[1..], now)
    else [entries[0]] + Unexpired(entries[1..], now)
  }

  function Expired(entries: seq<Entry>, now: real): seq<Entry> {
    if entries == [] then []
    else if now > entries[0].deadline then [entries[0]] + Expired(entries[1..], now)
    else Expired(entries[1..], now)
  }

  ghost predicate Distinct(entries: seq<Entry>) {
    forall i, j :: 0 <= i < j < |entries| ==> !entries[i].IsFor(entries[j].dh, entries[j].counter)
  }

  lemma {:induction false} FindIsMembership(entries: seq<Entry>, dh: PublicKey, counter: int)
    ensures Find(entries, dh, counter).Some? <==> exists i :: 0 <= i < |entries| && entries[i].IsFor(dh, counter)
    ensures Find(entries, dh, counter).Some? ==>
              var e := Find(entries, dh, counter).value; e in entries && e.IsFor(dh, counter)
  {
    if entries != [] && !entries[0].IsFor(dh, counter) {
      FindIsMembership(entries[1..], dh, counter);
      if exists i :: 0 <= i < |entries| && entries[i].IsFor(dh, counter) {
        var i :| 0 <= i < |entries| && entries[i].IsFor(dh, counter);
        assert entries[1..][i - 1].IsFor(dh, counter);
      }
    }
  }

  lemma {:induction false} FindAt(entries: seq<Entry>, i: nat)
    requires Distinct(entries) && i < |entries|
    ensures Find(entries, entries[i].dh, entries[i].counter) == Some(entries[i])
  {
    if i > 0 {
      assert !entries[0].IsFor(entries[i].dh, entries[i].counter);
      FindAt(entries[1..], i - 1);
    }
  }

  /** Removal takes out exactly the asked-for item and keeps the others in order. */
  lemma {:induction false} WithoutFind(entries: seq<Entry>, dh: PublicKey, counter: int, d: PublicKey, c: int)
    ensures Find(Without(entries, dh, counter), d, c)
         == if d == dh && c == counter then None else Find(entries, d, c)
  {
    if entries != [] {
      WithoutFind(entries[1..], dh, counter, d, c);
      if !entries[0].IsFor(dh, counter) {
        assert ([entries[0]] + Without(entries[1..], dh, counter))[1..] == Without(entries[1..], dh, counter);
      }
    }
  }

  lemma {:induction false} WithoutDistinct(entries: seq<Entry>, dh: PublicKey, counter: int)
    requires Distinct(entries)
    ensures Distinct(Without(entries, dh, counter))
    ensures forall e :: e in Without(entries, dh, counter) <==> e in entries && !e.IsFor(dh, counter)
    ensures |Without(entries, dh, counter)|
         == |entries| - if Find(entries, dh, counter).Some? then 1 else 0
  {
    if entries != [] {
      var rest := entries[1..];
      WithoutDistinct(rest, dh, counter);
      FindIsMembership(rest, dh, counter);
      assert entries == [entries[0]] + rest;
      forall e | e in rest
        ensures !entries[0].IsFor(e.dh, e.counter)
      {
        var i :| 0 <= i < |rest| && rest[i] == e;
        assert entries[i + 1] == e;
      }
    }
  }

  lemma WithoutAbsent(entries: seq<Entry>, dh: PublicKey, counter: int)
    requires Find(entries, dh, counter).None?
    ensures Without(entries, dh, counter) == entries
  {
  }

  lemma {:induction false} UnexpiredKeeps(entries: seq<Entry>, now: real)
    requires Distinct(entries)
    ensures forall e :: e in Unexpired(entries, now) <==> e in entries && now <= e.deadline
    ensures Distinct(Unexpired(entries, now))
    ensures |Unexpired(entries, now)| <= |entries|
  {
    if entries != [] {
      var rest := entries[1..];
      UnexpiredKeeps(rest, now);
      assert entries == [entries[0]] + rest;
      forall e | e in rest
        ensures !entries[0].IsFor(e.dh, e.counter)
      {
        var i :| 0 <= i < |rest| && rest[i] == e;
        assert entries[i + 1] == e;
      }
    }
  }

  lemma {:induction false} UnexpiredAppend(a: seq<Entry>, b: seq<Entry>, now: real)
    ensures Unexpired(a + b, now) == Unexpired(a, now) + Unexpired(b, now)
  {
    if a == [] {
      assert a + b == b;
    } else {
      assert (a + b)[0] == a[0] && (a + b)[1..] == a[1..] + b;
      UnexpiredAppend(a[1..], b, now);
    }
  }

  /** What is left after expiry stands in the order it stood in. */
  lemma UnexpiredKeepsOrder(entries: seq<Entry>, now: real, i: nat, j: nat)
    requires i < j < |entries| && now <= entries[i].deadline && now <= entries[j].deadline
    ensures var left := Unexpired(entries, now);
      exists a, b :: 0 <= a < b < |left| && left[a] == entries[i] && left[b] == entries[j]
  {
    var between, behind := entries[i + 1..j], entries[j + 1..];
    var tail := [entries[j]] + behind;
    assert entries == entries[..i] + ([entries[i]] + (between + tail));
    UnexpiredAppend(entries[..i], [entries[i]] + (between + tail), now);
    UnexpiredAppend(between, tail, now);
    var a := |Unexpired(entries[..i], now)|;
    var b := a + 1 + |Unexpired(between, now)|;
    assert Unexpired(entries, now)[a] == entries[i] && Unexpired(entries, now)[b] == entries[j];
  }

  /** Deleting the first expired item takes it off the list of expired ones and no other item out. */
  lemma {:induction false} DropFirstExpired(entries: seq<Entry>, now: real)
    requires Distinct(entries) && Expired(entries, now) != []
    ensures var e := Expired(entries, now)[0];
      var left := Without(entries, e.dh, e.counter);
      && Find(entries, e.dh, e.counter) == Some(e)
      && Expired(left, now) == Expired(entries, now)[1..]
      && Unexpired(left, now) == Unexpired(entries, now)
  {
    var rest := entries[1..];
    if now > entries[0].deadline {
      FindIsMembership(rest, entries[0].dh, entries[0].counter);
      WithoutAbsent(rest, entries[0].dh, entries[0].counter);
    } else {
      DropFirstExpired(rest, now);
      var e := Expired(rest, now)[0];
      FindIsMembership(rest, e.dh, e.counter);
      assert !entries[0].IsFor(e.dh, e.counter);
      assert ([entries[0]] + Without(rest, e.dh, e.counter))[1..] == Without(rest, e.dh, e.counter);
    }
  }

  lemma {:induction false} NoneExpired(entries: seq<Entry>, now: real)
    requires Expired(entries, now) == []
    ensures Unexpired(entries, now) == entries
  {
    if entries != [] {
      NoneExpired(entries[1..], now);
    }
  }

  /** What a put leaves: the new item for certain, and of the others a most recent part. */
  lemma PutKeeps(entries: seq<Entry>, limit: nat, e: Entry)
    requires Distinct(entries) && limit >= 1
    ensures Distinct(Put(entries, limit, e)) && |Put(entries, limit, e)| <= limit
    ensures Find(Put(entries, limit, e), e.dh, e.counter) == Some(e)
    ensures forall x :: x in Put(entries, limit, e) ==> x == e || (x in entries && !x.IsFor(e.dh, e.counter))
    ensures |entries| < limit ==> forall x :: x in entries && !x.IsFor(e.dh, e.counter) ==> x in Put(entries, limit, e)
  {
    var kept := Without(entries, e.dh, e.counter);
    WithoutDistinct(entries, e.dh, e.counter);
    var all := kept + [e];
    forall i | 0 <= i < |kept|
      ensures !all[i].IsFor(e.dh, e.counter)
    {
      assert kept[i] in kept;
    }
    var after := Put(entries, limit, e);
    assert after[|after| - 1] == e;
    FindAt(after, |after| - 1);
  }

  lemma {:induction false} WithoutAppend(a: seq<Entry>, b: seq<Entry>, dh: PublicKey, counter: int)
    ensures Without(a + b, dh, counter) == Without(a, dh, counter) + Without(b, dh, counter)
  {
    if a == [] {
      assert a + b == b;
    } else {
      WithoutAppend(a[1..], b, dh, counter);
      assert (a + b)[1..] == a[1..] + b;
    }
  }

  /** The list around position `i`, after the item of one key was taken out. */
  lemma WithoutAround(entries: seq<Entry>, dh: PublicKey, counter: int, i: nat)
    requires Distinct(entries) && i < |entries| && !entries[i].IsFor(dh, counter)
    ensures Without(entries, dh, counter)
         == Without(entries[..i], dh, counter) + ([entries[i]] + Without(entries[i + 1..], dh, counter))
    ensures |Without(entries[i + 1..], dh, counter)|
         == |entries| - 1 - i - if exists j :: i < j < |entries| && entries[j].IsFor(dh, counter) then 1 else 0
  {
    var tail := entries[i + 1..];
    assert entries == entries[..i] + ([entries[i]] + tail);
    WithoutAppend(entries[..i], [entries[i]] + tail, dh, counter);
    WithoutDistinct(tail, dh, counter);
    FindIsMembership(tail, dh, counter);
    if j :| i < j < |entries| && entries[j].IsFor(dh, counter) {
      assert tail[j - i - 1].IsFor(dh, counter);
    }
  }

  /** Which of the earlier items a put leaves: exactly those with fewer than `limit - 1` others behind them,
      the item that is replaced not counted. So the oldest go first. */
  lemma PutKeepsLatestIff(entries: seq<Entry>, limit: nat, e: Entry, i: nat)
    requires Distinct(entries) && limit >= 1 && i < |entries| && !entries[i].IsFor(e.dh, e.counter)
    ensures var replaced := if exists j :: i < j < |entries| && entries[j].IsFor(e.dh, e.counter) then 1 else 0;
      entries[i] in Put(entries, limit, e) <==> |entries| - 1 - i - replaced < limit - 1
  {
    var before, behind := Without(entries[..i], e.dh, e.counter), Without(entries[i + 1..], e.dh, e.counter);
    WithoutAround(entries, e.dh, e.counter, i);
    WithoutDistinct(entries, e.dh, e.counter);
    var kept := Without(entries, e.dh, e.counter);
    var all := kept + [e];
    assert kept[|before|] == entries[i];
    var after := Put(entries, limit, e);
    if |all| > limit {
      forall k | 0 <= k < |after|
        ensures after[k] == entries[i] <==> |all| - limit + k == |before|
      {
        assert after[k] == all[|all| - limit + k];
        if |all| - limit + k < |kept| {
          assert kept[|all| - limit + k] == entries[i] ==> |all| - limit + k == |before|;
        }
      }
      if |before| >= |all| - limit {
        assert after[|before| - (|all| - limit)] == entries[i];
      }
    } else {
      assert after == all && all[|before|] == entries[i];
    }
  }

  /** Where two items stand after the item of another key was taken out. */
  lemma WithoutKeepsOrder(entries: seq<Entry>, dh: PublicKey, counter: int, i: nat, j: nat) returns (a: nat, b: nat)
    requires Distinct(entries) && i < j < |entries|
    requires !entries[i].IsFor(dh, counter) && !entries[j].IsFor(dh, counter)
    ensures a < b < |Without(entries, dh, counter)|
    ensures Without(entries, dh, counter)[a] == entries[i] && Without(entries, dh, counter)[b] == entries[j]
  {
    var tail := entries[i + 1..];
    WithoutAround(entries, dh, counter, i);
    WithoutAround(tail, dh, counter, j - i - 1);
    a := |Without(entries[..i], dh, counter)|;
    b := a + 1 + |Without(tail[..j - i - 1], dh, counter)|;
    assert tail[j - i - 1] == entries[j];
  }

  /** A trim from the old end keeps what stands behind a survivor. */
  lemma EvictKeepsOrder(all: seq<Entry>, limit: nat, a: nat, b: nat)
    requires Distinct(all) && a < b < |all| - 1 && all[a] in Evict(all, limit)
    ensures var after := Evict(all, limit);
      exists x, y :: 0 <= x < y < |after| - 1 && after[x] == all[a] && after[y] == all[b]
  {
    var after := Evict(all, limit);
    var shift := |all| - |after|;
    var x :| 0 <= x < |after| && after[x] == all[a];
    assert all[shift + x] == after[x];
    assert shift + x == a;
    assert after[b - shift] == all[b];
  }

  /** A put changes no order: survivors stand as they stood, and the new item is the most recent. */
  lemma PutKeepsOrder(entries: seq<Entry>, limit: nat, e: Entry, i: nat, j: nat)
    requires Distinct(entries) && limit >= 1 && i < j < |entries|
    requires !entries[i].IsFor(e.dh, e.counter) && !entries[j].IsFor(e.dh, e.counter)
    requires entries[i] in Put(entries, limit, e)
    ensures var after := Put(entries, limit, e);
      exists x, y :: 0 <= x < y < |after| - 1 && after[x] == entries[i] && after[y] == entries[j]
    ensures Put(entries, limit, e)[|Put(entries, limit, e)| - 1] == e
  {
    var all := Without(entries, e.dh, e.counter) + [e];
    var a, b := WithoutKeepsOrder(entries, e.dh, e.counter, i, j);
    PutAllDistinct(entries, e);
    assert all[a] == entries[i] && all[b] == entries[j];
    EvictKeepsOrder(all, limit, a, b);
  }

  lemma PutAllDistinct(entries: seq<Entry>, e: Entry)
    requires Distinct(entries)
    ensures Distinct(Without(entries, e.dh, e.counter) + [e])
  {
    var kept := Without(entries, e.dh, e.counter);
    WithoutDistinct(entries, e.dh, e.counter);
    forall k | 0 <= k < |kept|
      ensures !kept[k].IsFor(e.dh, e.counter)
    {
      assert kept[k] in kept;
    }
  }

  class SkippedKeyStore {
    const maxSkip: nat
    const ttlSeconds: real
    var entries: seq<Entry>

    ghost predicate Valid()
      reads this
    {
      maxSkip >= 1 && ttlSeconds > 0.0 && Distinct(entries) && |entries| <= maxSkip
    }

    constructor (maxSkip: nat, ttlSeconds: real)
      requires maxSkip >= 1 && ttlSeconds > 0.0
      ensures Valid() && entries == [] && this.maxSkip == maxSkip && this.ttlSeconds == ttlSeconds
    {
      this.maxSkip := maxSkip;
      this.ttlSeconds := ttlSeconds;
      entries := [];
    }

    /** Construction as callers see it: limits that make no sense are refused. */
    static method Create(maxSkip: int, ttlSeconds: real) returns (r: Result<SkippedKeyStore, Error>)
      ensures maxSkip < 1 ==> r == Err(BadMaxSkip)
      ensures maxSkip >= 1 && ttlSeconds <= 0.0 ==> r == Err(BadTtl)
      ensures r.Ok? <==> maxSkip >= 1 && ttlSeconds > 0.0
      ensures r.Ok? ==> fresh(r.value) && r.value.Valid() && r.value.entries == []
      ensures r.Ok? ==> r.value.maxSkip == maxSkip && r.value.ttlSeconds == ttlSeconds
    {
      if maxSkip < 1 {
        return Err(BadMaxSkip);
      }
      if ttlSeconds <= 0.0 {
        return Err(BadTtl);
      }
      var store := new SkippedKeyStore(maxSkip, ttlSeconds);
      return Ok(store);
    }

    method PutKey(dh: PublicKey, counter: int, messageKey: Key, now: real) returns (r: Result<(), Error>)
      requires Valid()
      modifies this
      ensures Valid()
      ensures counter < 0 ==> r == Err(NegativeCounter) && entries == old(entries)
      ensures counter >= 0 ==>
                r == Ok(()) && entries == Put(old(entries), maxSkip, Entry(dh, counter, messageKey, now + ttlSeconds))
    {
      if counter < 0 {
        return Err(NegativeCounter);
      }
      ghost var e := Entry(dh, counter, messageKey, now + ttlSeconds);
      PutKeeps(entries, maxSkip, e);
      var deadline := now + ttlSeconds;
      entries := Without(entries, dh, counter) + [Entry(dh, counter, messageKey, deadline)];
      ghost var all := entries;
      while |entries| > maxSkip
        invariant maxSkip <= |entries| || entries == all
        invariant |entries| <= |all| && entries == all[|all| - |entries|..]
      {
        entries := entries[1..];
      }
      return Ok(());
    }

    /** One lookup: the item is dropped whether it was handed out or had expired. */
    method GetKey(dh: PublicKey, counter: int, now: real) returns (key: Option<Key>)
      requires Valid()
      modifies this
      ensures Valid()
      ensures key == Readable(old(entries), dh, counter, now)
      ensures entries == Without(old(entries), dh, counter)
    {
      var found := Find(entries, dh, counter);
      WithoutDistinct(entries, dh, counter);
      if found.None? {
        WithoutAbsent(entries, dh, counter);
        return None;
      }
      entries := Without(entries, dh, counter);
      if now > found.value.deadline {
        return None;
      }
      return Some(found.value.key);
    }

    /** Lists the items past their deadline, then deletes them one by one. */
    method Expire(now: real) returns (removed: nat)
      requires Valid()
      modifies this
      ensures Valid()
      ensures entries == Unexpired(old(entries), now)
      ensures removed == |old(entries)| - |entries|
    {
      var expired := Expired(entries, now);
      for n := 0 to |expired|
        invariant Valid() && |entries| == |old(entries)| - n
        invariant Expired(entries, now) == expired[n..]
        invariant Unexpired(entries, now) == Unexpired(old(entries), now)
      {
        DropFirstExpired(entries, now);
        WithoutDistinct(entries, expired[n].dh, expired[n].counter);
        assert expired[n..][0] == expired[n] && expired[n..][1..] == expired[n + 1..];
        entries := Without(entries, expired[n].dh, expired[n].counter);
      }
      NoneExpired(entries, now);
      return |expired|;
    }
  }
}
