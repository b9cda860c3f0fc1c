/**
 The embedding cache of app/bot/rag_context.py: an ordered dictionary with the most recently
 used text last, guarded by a lock that is released while the backend computes.
 */
module EmbeddingCache {
  import opened Wrappers

  type Vector = seq<real>

  datatype Item = Item(text: string, vec: Vector)

  // ---------- recency lists ----------

  function Remove(order: seq<string>, text: string): seq<string> {
    if order == [] then []
    else if order[0] == text then Remove(order[1..], text)
    else [order[0]] + Remove(order[1..], text)
  }

  /** Moves a text to the recent end, adding it if need be. */
  function Touch(order: seq<string>, text: string): seq<string> {
    Remove(order, text) + [text]
  }

  /** Keeps the `limit` most recent. */
  function Cap(order: seq<string>, limit: nat): seq<string> {
    if |order| <= limit then order else order[|order| - limit..]
  }

  ghost predicate Distinct(order: seq<string>) {
    forall i, j :: 0 <= i < j < |order| ==> order[i] != order[j]
  }

  /** The texts a cache of the given size holds after serving `calls` one by one. */
  function Cached(calls: seq<string>, limit: nat): seq<string> {
    if calls == [] then []
    else Cap(Touch(Cached(calls[..|calls| - 1], limit), calls[|calls| - 1]), limit)
  }

  /** All distinct texts, in the order of their last use. */
  function Recency(calls: seq<string>): seq<string> {
    if calls == [] then [] else Touch(Recency(calls[..|calls| - 1]), calls[|calls| - 1])
  }

  /** The distinct texts used after the last use of `text`. */
  function UsedSince(calls: seq<string>, text: string): set<string> {
    if calls == [] || calls[|calls| - 1] == text then {}
    else UsedSince(calls[..|calls| - 1], text) + {calls[|calls| - 1]}
  }

  function Hits(calls: seq<string>, limit: nat): nat {
    if calls == [] then 0
    else
      var last := |calls| - 1;
      Hits(calls[..last], limit) + if calls[last] in Cached(calls[..last], limit) then 1 else 0
  }

  lemma {:induction false} RemoveMembers(order: seq<string>, text: string)
    ensures forall x :: x in Remove(order, text) <==> x in order && x != text
    ensures |Remove(order, text)| <= |order|
    ensures text !in order ==> Remove(order, text) == order
  {
    if order != [] {
      RemoveMembers(order[1..], text);
      assert order == [order[0]] + order[1..];
    }
  }

  lemma {:induction false} RemoveDistinct(order: seq<string>, text: string)
    requires Distinct(order)
    ensures Distinct(Remove(order, text)) && Distinct(Touch(order, text))
    ensures |Remove(order, text)| == |order| - if text in order then 1 else 0
  {
    RemoveMembers(order, text);
    if order != [] {
      var rest := order[1..];
      RemoveDistinct(rest, text);
      RemoveMembers(rest, text);
      assert order == [order[0]] + rest;
      assert order[0] !in rest;
    }
  }

  lemma {:induction false} RemoveAppend(a: seq<string>, b: seq<string>, text: string)
    ensures Remove(a + b, text) == Remove(a, text) + Remove(b, text)
  {
    if a == [] {
      assert a + b == b;
    } else {
      RemoveAppend(a[1..], b, text);
      assert (a + b)[1..] == a[1..] + b;
    }
  }

  /** Forgetting texts that are too old cannot change which texts are recent later on. */
  lemma CapCommutes(order: seq<string>, text: string, limit: nat)
    requires Distinct(order) && limit >= 1
    ensures Cap(Touch(Cap(order, limit), text), limit) == Cap(Touch(order, text), limit)
  {
    if |order| > limit {
      var dropped, kept := order[..|order| - limit], order[|order| - limit..];
      assert order == dropped + kept;
      RemoveAppend(dropped, kept, text);
      RemoveDistinct(kept, text);
      RemoveMembers(kept, text);
      assert Touch(order, text) == Remove(dropped, text) + Touch(kept, text);
    }
  }

  lemma {:induction false} RecencyDistinct(calls: seq<string>)
    ensures Distinct(Recency(calls))
    ensures forall x :: x in Recency(calls) <==> x in calls
  {
    if calls != [] {
      var before := calls[..|calls| - 1];
      RecencyDistinct(before);
      RemoveDistinct(Recency(before), calls[|calls| - 1]);
      RemoveMembers(Recency(before), calls[|calls| - 1]);
      assert calls == before + [calls[|calls| - 1]];
    }
  }

  /** The cache is the recent end of the full recency list. */
  lemma {:induction false} CachedIsRecent(calls: seq<string>, limit: nat)
    requires limit >= 1
    ensures Cached(calls, limit) == Cap(Recency(calls), limit)
  {
    if calls != [] {
      var before := calls[..|calls| - 1];
      CachedIsRecent(before, limit);
      RecencyDistinct(before);
      CapCommutes(Recency(before), calls[|calls| - 1], limit);
    }
  }

  /** The part of a list behind `text`. */
  function Behind(order: seq<string>, text: string): seq<string> {
    if order == [] then []
    else if order[0] == text then order[1..]
    else Behind(order[1..], text)
  }

  lemma {:induction false} BehindTouch(order: seq<string>, text: string, touched: string)
    requires text in order && text != touched && Distinct(order)
    ensures Behind(Touch(order, touched), text) == Touch(Behind(order, text), touched)
  {
    var rest := order[1..];
    assert order == [order[0]] + rest;
    if order[0] == text {
      assert Touch(order, touched) == [text] + Touch(rest, touched);
    } else {
      BehindTouch(rest, text, touched);
      if order[0] != touched {
        assert Touch(order, touched) == [order[0]] + Touch(rest, touched);
      }
    }
  }

  lemma {:induction false} BehindLast(order: seq<string>, text: string)
    ensures Behind(Touch(order, text), text) == []
  {
    if order == [] {
      assert Touch(order, text) == [text];
    } else {
      BehindLast(order[1..], text);
      if order[0] != text {
        assert Touch(order, text) == [order[0]] + Touch(order[1..], text);
      }
    }
  }

  lemma {:induction false} BehindIsUsedSince(calls: seq<string>, text: string)
    requires text in calls
    ensures forall x :: x in Behind(Recency(calls), text) <==> x in UsedSince(calls, text)
  {
    var before, last := calls[..|calls| - 1], calls[|calls| - 1];
    assert calls == before + [last];
    RecencyDistinct(before);
    if last == text {
      BehindLast(Recency(before), text);
    } else {
      BehindIsUsedSince(before, text);
      BehindTouch(Recency(before), text, last);
      RemoveMembers(Behind(Recency(before), text), last);
    }
  }

  lemma {:induction false} BehindDistinct(order: seq<string>, text: string)
    requires Distinct(order)
    ensures Distinct(Behind(order, text))
    ensures text in order ==>
              |Behind(order, text)| < |order| && order[|order| - 1 - |Behind(order, text)|] == text
  {
    if order != [] {
      BehindDistinct(order[1..], text);
    }
  }

  lemma {:induction false} CountDistinct(order: seq<string>, texts: set<string>)
    requires Distinct(order) && forall x :: x in order <==> x in texts
    ensures |order| == |texts|
  {
    if order == [] {
      assert texts == {};
    } else {
      var rest := order[1..];
      assert order == [order[0]] + rest;
      CountDistinct(rest, texts - {order[0]});
    }
  }

  /** A text is cached exactly when fewer than `limit` other texts were used since its last use. */
  lemma CachedIffUsedLately(calls: seq<string>, limit: nat, text: string)
    requires limit >= 1
    ensures text in Cached(calls, limit) <==> text in calls && |UsedSince(calls, text)| < limit
  {
    var order := Recency(calls);
    CachedIsRecent(calls, limit);
    RecencyDistinct(calls);
    if text in calls {
      BehindDistinct(order, text);
      BehindIsUsedSince(calls, text);
      CountDistinct(Behind(order, text), UsedSince(calls, text));
      var at := |order| - 1 - |Behind(order, text)|;
      if |order| > limit {
        assert text in order[|order| - limit..] <==> at >= |order| - limit by {
          if at >= |order| - limit {
            assert order[|order| - limit..][at - (|order| - limit)] == text;
          }
        }
      }
    }
  }

  /** A larger cache holds whatever a smaller one holds, so it hits at least as often. */
  lemma {:induction false} LargerCacheHitsMore(calls: seq<string>, small: nat, large: nat)
    requires 1 <= small <= large
    ensures forall x :: x in Cached(calls, small) ==> x in Cached(calls, large)
    ensures Hits(calls, small) <= Hits(calls, large) <= |calls|
  {
    forall x | x in Cached(calls, small)
      ensures x in Cached(calls, large)
    {
      CachedIffUsedLately(calls, small, x);
      CachedIffUsedLately(calls, large, x);
    }
    if calls != [] {
      LargerCacheHitsMore(calls[..|calls| - 1], small, large);
    }
  }

  // ---------- the cache with many callers ----------

  /** `pending` are the texts whose callers are outside the lock, computing. */
  datatype Shared = Shared(order: seq<string>, hits: nat, misses: nat, pending: multiset<string>)

  datatype Section =
    | Look(text: string)       // first lock section of a call
    | Store(text: string)      // second lock section of a call that missed
    | ClearAll
    | ResetStats

  predicate Possible(s: Shared, section: Section) {
    section.Store? ==> section.text in s.pending
  }

  function Enter(s: Shared, limit: nat, section: Section): Shared {
    match section
    case Look(text) =>
      if text in s.order then s.(order := Touch(s.order, text), hits := s.hits + 1)
      else s.(misses := s.misses + 1, pending := s.pending + multiset{text})
    case Store(text) =>
      s.(order := Cap(Touch(s.order, text), limit), pending := s.pending - multiset{text})
    case ClearAll => s.(order := [])
    case ResetStats => s.(hits := 0, misses := 0)
  }

  predicate Interleaving(limit: nat, sections: seq<Section>)
    decreases |sections|, 0
  {
    sections == []
    || (Interleaving(limit, sections[..|sections| - 1])
        && Possible(AfterSections(limit, sections[..|sections| - 1]), sections[|sections| - 1]))
  }

  function AfterSections(limit: nat, sections: seq<Section>): Shared
    requires Interleaving(limit, sections)
    decreases |sections|, 1
  {
    if sections == [] then Shared([], 0, 0, multiset{})
    else Enter(AfterSections(limit, sections[..|sections| - 1]), limit, sections[|sections| - 1])
  }

  /** The calls since the last clearing in the order of their last lock section. */
  function Completed(limit: nat, sections: seq<Section>): seq<string>
    requires Interleaving(limit, sections)
  {
    if sections == [] then []
    else
      var before, last := sections[..|sections| - 1], sections[|sections| - 1];
      match last
      case Look(text) =>
        Completed(limit, before) + if text in AfterSections(limit, before).order then [text] else []
      case Store(text) => Completed(limit, before) + [text]
      case ClearAll => []
      case ResetStats => Completed(limit, before)
  }

  /** Calls started since the statistics were last reset. */
  function Started(sections: seq<Section>): nat {
    if sections == [] then 0
    else
      match sections[|sections| - 1]
      case Look(_) => Started(sections[..|sections| - 1]) + 1
      case ResetStats => 0
      case _ => Started(sections[..|sections| - 1])
  }

  lemma {:induction false} CachedBounded(calls: seq<string>, limit: nat)
    requires limit >= 1
    ensures Distinct(Cached(calls, limit)) && |Cached(calls, limit)| <= limit
  {
    CachedIsRecent(calls, limit);
    RecencyDistinct(calls);
  }

  lemma CachedOnce(calls: seq<string>, limit: nat, text: string)
    ensures Cached(calls + [text], limit) == Cap(Touch(Cached(calls, limit), text), limit)
  {
    assert (calls + [text])[..|calls|] == calls;
  }

  /** In every interleaving the cache is the one a single caller gets, taking calls as they complete. */
  lemma {:induction false} CacheLinearises(limit: nat, sections: seq<Section>)
    requires limit >= 1 && Interleaving(limit, sections)
    ensures var s := AfterSections(limit, sections);
      && s.order == Cached(Completed(limit, sections), limit)
      && Distinct(s.order) && |s.order| <= limit
      && s.hits + s.misses == Started(sections)
  {
    CachedBounded(Completed(limit, sections), limit);
    if sections != [] {
      var before, last := sections[..|sections| - 1], sections[|sections| - 1];
      CacheLinearises(limit, before);
      assert Completed(limit, before) + [] == Completed(limit, before);
      if last.Look? || last.Store? {
        CachedOnce(Completed(limit, before), limit, last.text);
        if last.Look? {
          RemoveDistinct(AfterSections(limit, before).order, last.text);
        }
      }
    }
  }

  // ---------- the object ----------

  function Texts(items: seq<Item>): (r: seq<string>)
    ensures |r| == |items| && forall i :: 0 <= i < |r| ==> r[i] == items[i].text
  {
    seq(|items|, i requires 0 <= i < |items| => items[i].text)
  }

  lemma TextsAppend(items: seq<Item>, item: Item)
    ensures Texts(items + [item]) == Texts(items) + [item.text]
  {
  }

  lemma TextsDrop(items: seq<Item>)
    requires items != []
    ensures Texts(items[1..]) == Texts(items)[1..]
  {
  }

  class CachedEmbedder {
    const backend: string -> Vector
    const maxCache: nat
    var cache: seq<Item>
    var hits: nat
    var misses: nat

    ghost predicate Valid()
      reads this
    {
      && maxCache >= 1 && |cache| <= maxCache && Distinct(Texts(cache))
      && forall i :: 0 <= i < |cache| ==> cache[i].vec == backend(cache[i].text)
    }

    constructor (backend: string -> Vector, maxCache: nat)
      requires maxCache >= 1
      ensures Valid() && cache == [] && hits == 0 && misses == 0
      ensures this.backend == backend && this.maxCache == maxCache
    {
      this.backend, this.maxCache := backend, maxCache;
      cache, hits, misses := [], 0, 0;
    }

    static method Create(backend: string -> Vector, maxCache: int) returns (r: Result<CachedEmbedder, int>)
      ensures maxCache <= 0 ==> r == Err(maxCache)
      ensures maxCache > 0 ==> r.Ok? && fresh(r.value) && r.value.Valid() && r.value.cache == []
      ensures maxCache > 0 ==> r.value.hits == 0 && r.value.misses == 0
      ensures maxCache > 0 ==> r.value.backend == backend && r.value.maxCache == maxCache
    {
      if maxCache <= 0 {
        return Err(maxCache);
      }
      var embedder := new CachedEmbedder(backend, maxCache);
      return Ok(embedder);
    }

    method Find(text: string) returns (index: int)
      requires Valid()
      ensures -1 <= index < |cache|
      ensures index >= 0 ==> cache[index].text == text
      ensures index == -1 <==> text !in Texts(cache)
    {
      index := 0;
      while index < |cache|
        invariant 0 <= index <= |cache|
        invariant forall i :: 0 <= i < index ==> cache[i].text != text
      {
        if cache[index].text == text {
          assert Texts(cache)[index] == text;
          return;
        }
        index := index + 1;
      }
      index := -1;
    }

    method MoveToEnd(index: nat)
      requires Valid() && index < |cache|
      modifies this`cache
      ensures Valid() && Texts(cache) == Touch(old(Texts(cache)), old(cache[index].text))
    {
      ghost var order := Texts(cache);
      RemoveAt(order, index);
      RemoveDistinct(order, cache[index].text);
      cache := cache[..index] + cache[index + 1..] + [cache[index]];
      assert Texts(cache) == order[..index] + order[index + 1..] + [order[index]];
    }

    /** First lock section: a hit returns at once, a miss is counted. */
    method LookSection(text: string) returns (found: Option<Vector>)
      requires Valid()
      modifies this
      ensures Valid()
      ensures found == if text in old(Texts(cache)) then Some(backend(text)) else None
      ensures found.Some? ==>
                Texts(cache) == Touch(old(Texts(cache)), text) && hits == old(hits) + 1 && misses == old(misses)
      ensures found.None? ==> cache == old(cache) && hits == old(hits) && misses == old(misses) + 1
      ensures forall pending ::
                Enter(Shared(old(Texts(cache)), old(hits), old(misses), pending), maxCache, Look(text))
                == Shared(Texts(cache), hits, misses, if found.Some? then pending else pending + multiset{text})
    {
      var index := Find(text);
      if index >= 0 {
        var vec := cache[index].vec;
        MoveToEnd(index);
        hits := hits + 1;
        return Some(vec);
      }
      misses := misses + 1;
      return None;
    }

    method InsertNew(text: string, vec: Vector)
      requires Valid() && vec == backend(text) && text !in Texts(cache)
      modifies this`cache
      ensures Valid() && Texts(cache) == Cap(old(Texts(cache)) + [text], maxCache)
    {
      TextsAppend(cache, Item(text, vec));
      cache := cache + [Item(text, vec)];
      if |cache| > maxCache {
        TextsDrop(cache);
        cache := cache[1..];
      }
    }

    /** Second lock section: somebody else may have stored the text meanwhile. */
    method StoreSection(text: string, vec: Vector) returns (result: Vector)
      requires Valid() && vec == backend(text)
      modifies this`cache
      ensures Valid() && result == backend(text)
      ensures Texts(cache) == Cap(Touch(old(Texts(cache)), text), maxCache)
      ensures forall pending ::
                Enter(Shared(old(Texts(cache)), hits, misses, pending), maxCache, Store(text))
                == Shared(Texts(cache), hits, misses, pending - multiset{text})
    {
      ghost var order := Texts(cache);
      RemoveMembers(order, text);
      RemoveDistinct(order, text);
      var index := Find(text);
      if index >= 0 {
        var existing := cache[index].vec;
        MoveToEnd(index);
        return existing;
      }
      InsertNew(text, vec);
      return vec;
    }

    method Embed(text: string) returns (vec: Vector)
      requires Valid()
      modifies this
      ensures Valid() && vec == backend(text)
      ensures Texts(cache) == Cap(Touch(old(Texts(cache)), text), maxCache)
      ensures hits == old(hits) + (if text in old(Texts(cache)) then 1 else 0)
      ensures misses == old(misses) + (if text in old(Texts(cache)) then 0 else 1)
    {
      ghost var order := Texts(cache);
      RemoveDistinct(order, text);
      var cached := LookSection(text);
      if cached.Some? {
        return cached.value;
      }
      vec := StoreSection(text, backend(text));
    }

    /** A whole trace from an empty cache: right answers, the recent texts, the counted hits. */
    method EmbedAll(calls: seq<string>) returns (vecs: seq<Vector>)
      requires Valid() && cache == [] && hits == 0 && misses == 0
      modifies this
      ensures Valid() && |vecs| == |calls|
      ensures forall i :: 0 <= i < |calls| ==> vecs[i] == backend(calls[i])
      ensures Texts(cache) == Cached(calls, maxCache)
      ensures hits == Hits(calls, maxCache) && hits + misses == |calls|
    {
      vecs := [];
      for n := 0 to |calls|
        invariant Valid() && |vecs| == n
        invariant forall i :: 0 <= i < n ==> vecs[i] == backend(calls[i])
        invariant Texts(cache) == Cached(calls[..n], maxCache)
        invariant hits == Hits(calls[..n], maxCache) && hits + misses == n
      {
        assert calls[..n + 1][..n] == calls[..n];
        var vec := Embed(calls[n]);
        vecs := vecs + [vec];
      }
      assert calls[..|calls|] == calls;
    }

    method ResetStatistics()
      modifies this`hits, this`misses
      ensures hits == 0 && misses == 0
    {
      hits, misses := 0, 0;
    }

    method Clear()
      requires Valid()
      modifies this
      ensures Valid() && cache == [] && hits == 0 && misses == 0
    {
      cache := [];
      ResetStatistics();
    }
  }

  lemma {:induction false} RemoveAt(order: seq<string>, index: nat)
    requires Distinct(order) && index < |order|
    ensures Remove(order, order[index]) == order[..index] + order[index + 1..]
  {
    var before, after := order[..index], order[index + 1..];
    assert order == before + ([order[index]] + after);
    RemoveAppend(before, [order[index]] + after, order[index]);
    RemoveMembers(before, order[index]);
    RemoveMembers(after, order[index]);
    assert ([order[index]] + after)[1..] == after;
  }
}
