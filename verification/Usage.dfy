/** The usage ring buffer of app/bot/usage_tracker.py and its group sums. */
module Usage {
  import opened Wrappers

  datatype Record = Record(userId: int, provider: string, inputTokens: nat, outputTokens: nat, timestampMs: nat)

  datatype Summary = Summary(count: nat, inputTokens: nat, outputTokens: nat)

  const ZERO := Summary(0, 0, 0)
  const MS_PER_MINUTE := 60_000
  const MS_PER_HOUR := 60 * MS_PER_MINUTE
  const MS_PER_DAY := 24 * MS_PER_HOUR

  function Add(a: Summary, b: Summary): Summary {
    Summary(a.count + b.count, a.inputTokens + b.inputTokens, a.outputTokens + b.outputTokens)
  }

  function One(r: Record): Summary {
    Summary(1, r.inputTokens, r.outputTokens)
  }

  function Total(records: seq<Record>): Summary {
    if records == [] then ZERO else Add(Total(records[..|records| - 1]), One(records[|records| - 1]))
  }

  type Millis = ms: nat | ms > 0 witness MS_PER_MINUTE

  datatype Grouping = ByUser | ByProvider | ByPeriod(ms: Millis)

  datatype Key = UserKey(userId: int) | ProviderKey(provider: string) | BucketKey(start: nat)

  function Bucket(timestampMs: nat, ms: Millis): nat {
    timestampMs / ms * ms
  }

  function PeriodMs(period: string): Millis {
    if period == "day" then MS_PER_DAY else if period == "hour" then MS_PER_HOUR else MS_PER_MINUTE
  }

  function KeyOf(g: Grouping, r: Record): Key {
    match g
    case ByUser => UserKey(r.userId)
    case ByProvider => ProviderKey(r.provider)
    case ByPeriod(ms) => BucketKey(Bucket(r.timestampMs, ms))
  }

  /** The records of one group. */
  function Select(records: seq<Record>, g: Grouping, k: Key): seq<Record> {
    if records == [] then []
    else
      var last := records[|records| - 1];
      Select(records[..|records| - 1], g, k) + if KeyOf(g, last) == k then [last] else []
  }

  function GroupTotal(records: seq<Record>, g: Grouping, k: Key): Summary {
    Total(Select(records, g, k))
  }

  /** The group totals added up in the order of the given keys. */
  function SumOver(records: seq<Record>, g: Grouping, keys: seq<Key>): Summary {
    if keys == [] then ZERO
    else Add(SumOver(records, g, keys[..|keys| - 1]), GroupTotal(records, g, keys[|keys| - 1]))
  }

  ghost predicate NoRepeats(keys: seq<Key>) {
    forall i, j :: 0 <= i < j < |keys| ==> keys[i] != keys[j]
  }

  // ---------- group sums ----------

  lemma SelectStep(init: seq<Record>, r: Record, g: Grouping, k: Key)
    ensures Select(init + [r], g, k) == if KeyOf(g, r) == k then Select(init, g, k) + [r] else Select(init, g, k)
  {
    assert (init + [r])[..|init|] == init;
    assert Select(init, g, k) + [] == Select(init, g, k);
  }

  lemma GroupTotalStep(init: seq<Record>, r: Record, g: Grouping, k: Key)
    ensures GroupTotal(init + [r], g, k)
         == if KeyOf(g, r) == k then Add(GroupTotal(init, g, k), One(r)) else GroupTotal(init, g, k)
  {
    SelectStep(init, r, g, k);
    var here := Select(init, g, k);
    assert (here + [r])[..|here|] == here;
  }

  lemma AddSwaps(a: Summary, b: Summary, c: Summary)
    ensures Add(Add(a, c), b) == Add(Add(a, b), c) == Add(a, Add(b, c))
  {
  }

  lemma SumStep(records: seq<Record>, g: Grouping, before: seq<Key>, last: Key)
    ensures SumOver(records, g, before + [last]) == Add(SumOver(records, g, before), GroupTotal(records, g, last))
  {
    assert (before + [last])[..|before|] == before;
  }

  lemma {:induction false} OneMore(init: seq<Record>, r: Record, g: Grouping, keys: seq<Key>)
    requires NoRepeats(keys)
    ensures SumOver(init + [r], g, keys)
         == if KeyOf(g, r) in keys then Add(SumOver(init, g, keys), One(r)) else SumOver(init, g, keys)
  {
    if keys != [] {
      var before, last := keys[..|keys| - 1], keys[|keys| - 1];
      assert keys == before + [last] && last !in before;
      OneMore(init, r, g, before);
      GroupTotalStep(init, r, g, last);
      SumStep(init, g, before, last);
      SumStep(init + [r], g, before, last);
      AddSwaps(SumOver(init, g, before), GroupTotal(init, g, last), One(r));
    }
  }

  lemma EmptyGroup(none: seq<Record>, g: Grouping, k: Key)
    requires none == []
    ensures GroupTotal(none, g, k) == ZERO
  {
  }

  lemma {:induction false} NothingAddsUp(none: seq<Record>, g: Grouping, keys: seq<Key>)
    requires none == []
    ensures SumOver(none, g, keys) == ZERO
  {
    if keys != [] {
      var before, last := keys[..|keys| - 1], keys[|keys| - 1];
      NothingAddsUp(none, g, before);
      EmptyGroup(none, g, last);
      SumStep(none, g, before, last);
      assert keys == before + [last];
    }
  }

  /** The groups add up to the total of the records they cover, in whatever order they are taken. */
  lemma {:induction false} GroupsAddUp(records: seq<Record>, g: Grouping, keys: seq<Key>)
    requires NoRepeats(keys) && forall r :: r in records ==> KeyOf(g, r) in keys
    ensures SumOver(records, g, keys) == Total(records)
  {
    if records == [] {
      NothingAddsUp(records, g, keys);
    } else {
      var init, r := records[..|records| - 1], records[|records| - 1];
      assert records == init + [r];
      GroupsAddUp(init, g, keys);
      OneMore(init, r, g, keys);
    }
  }

  lemma {:induction false} SelectMembers(records: seq<Record>, g: Grouping, k: Key)
    ensures forall r :: r in Select(records, g, k) <==> r in records && KeyOf(g, r) == k
  {
    if records != [] {
      var init, last := records[..|records| - 1], records[|records| - 1];
      SelectMembers(init, g, k);
      assert records == init + [last];
    }
  }

  lemma {:induction false} SelectFiner(records: seq<Record>, coarse: Grouping, fine: Grouping, k: Key, l: Key)
    requires forall r :: r in records && KeyOf(fine, r) == l ==> KeyOf(coarse, r) == k
    ensures Select(Select(records, coarse, k), fine, l) == Select(records, fine, l)
  {
    if records != [] {
      var init, last := records[..|records| - 1], records[|records| - 1];
      assert records == init + [last];
      SelectFiner(init, coarse, fine, k, l);
      SelectStep(init, last, coarse, k);
      SelectStep(init, last, fine, l);
      SelectStep(Select(init, coarse, k), last, fine, l);
    }
  }

  lemma {:induction false} SumOverFiner(records: seq<Record>, coarse: Grouping, fine: Grouping, k: Key, keys: seq<Key>)
    requires forall r :: r in records && KeyOf(fine, r) in keys ==> KeyOf(coarse, r) == k
    ensures SumOver(Select(records, coarse, k), fine, keys) == SumOver(records, fine, keys)
  {
    if keys != [] {
      var before, last := keys[..|keys| - 1], keys[|keys| - 1];
      assert keys == before + [last];
      SelectFiner(records, coarse, fine, k, last);
      SumOverFiner(records, coarse, fine, k, before);
    }
  }

  lemma ProductOrder(a: nat, b: nat, n: nat)
    requires n > 0
    ensures a * n <= b * n <==> a <= b
  {
    if a < b {
      assert (b - a) * n > 0;
    } else if a > b {
      assert (a - b) * n > 0;
    }
  }

  lemma QuotientIs(v: nat, n: nat, q: nat)
    requires n > 0 && q * n <= v < q * n + n
    ensures v / n == q
  {
    ProductOrder(q, v / n, n);
    ProductOrder(v / n, q, n);
    ProductOrder(q + 1, v / n, n);
    ProductOrder(v / n + 1, q, n);
    assert (q + 1) * n == q * n + n && (v / n + 1) * n == v / n * n + n;
  }

  lemma QuotientWithin(t: nat, n: nat, low: nat, high: nat)
    requires n > 0 && low * n <= t < high * n
    ensures low <= t / n < high && low * n <= t / n * n && t / n * n + n <= high * n
  {
    ProductOrder(low, t / n + 1, n);
    ProductOrder(high, t / n, n);
    assert (t / n + 1) * n == t / n * n + n;
    ProductOrder(low, t / n, n);
    ProductOrder(t / n + 1, high, n);
  }

  /** The coarse bucket of a fine bucket is the coarse bucket of its records. */
  lemma BucketOfBucket(t: nat, small: Millis, times: nat)
    requires times > 0
    ensures small * times > 0 && Bucket(Bucket(t, small), small * times) == Bucket(t, small * times)
  {
    ProductOrder(1, times, small);
    var big := small * times;
    var q := t / big;
    Scales(q, times, small);
    QuotientWithin(t, small, q * times, q * times + times);
    QuotientIs(t / small * small, big, q);
  }

  lemma Scales(q: nat, times: nat, small: nat)
    ensures q * times * small == q * (small * times)
    ensures (q * times + times) * small == q * (small * times) + small * times
  {
  }

  /** A coarse bucket is the sum of its non-empty fine buckets, in any order: a day of its hours,
      an hour of its minutes. */
  lemma BucketIsSumOfFiner(records: seq<Record>, small: Millis, times: nat, start: nat, fines: seq<Key>)
    requires times > 0 && small * times > 0 && NoRepeats(fines)
    requires forall k :: k in fines <==>
               k.BucketKey? && Bucket(k.start, small * times) == start
               && exists r :: r in records && KeyOf(ByPeriod(small), r) == k
    ensures SumOver(records, ByPeriod(small), fines) == GroupTotal(records, ByPeriod(small * times), BucketKey(start))
  {
    var coarse, fine := ByPeriod(small * times), ByPeriod(small);
    forall r | r in records
      ensures KeyOf(fine, r) in fines <==> KeyOf(coarse, r) == BucketKey(start)
    {
      BucketOfBucket(r.timestampMs, small, times);
    }
    SumOverFiner(records, coarse, fine, BucketKey(start), fines);
    SelectMembers(records, coarse, BucketKey(start));
    GroupsAddUp(Select(records, coarse, BucketKey(start)), fine, fines);
  }

  /** Every day bucket is the sum of its hour buckets, every hour bucket of its minute buckets. */
  lemma PeriodsNest(records: seq<Record>, start: nat, hours: seq<Key>, minutes: seq<Key>)
    requires NoRepeats(hours) && NoRepeats(minutes)
    requires forall k :: k in hours <==>
               k.BucketKey? && Bucket(k.start, MS_PER_DAY) == start
               && exists r :: r in records && KeyOf(ByPeriod(MS_PER_HOUR), r) == k
    requires forall k :: k in minutes <==>
               k.BucketKey? && Bucket(k.start, MS_PER_HOUR) == start
               && exists r :: r in records && KeyOf(ByPeriod(MS_PER_MINUTE), r) == k
    ensures SumOver(records, ByPeriod(MS_PER_HOUR), hours)
         == GroupTotal(records, ByPeriod(MS_PER_DAY), BucketKey(start))
    ensures SumOver(records, ByPeriod(MS_PER_MINUTE), minutes)
         == GroupTotal(records, ByPeriod(MS_PER_HOUR), BucketKey(start))
  {
    assert MS_PER_HOUR * 24 == MS_PER_DAY && MS_PER_MINUTE * 60 == MS_PER_HOUR;
    BucketIsSumOfFiner(records, MS_PER_HOUR, 24, start, hours);
    BucketIsSumOfFiner(records, MS_PER_MINUTE, 60, start, minutes);
  }

  // ---------- the tracker ----------

  /** The last `limit` entries; 0 keeps all. */
  function Latest(entries: seq<Record>, limit: nat): seq<Record> {
    if limit == 0 || |entries| <= limit then entries else entries[|entries| - limit..]
  }

  lemma LatestStep(entries: seq<Record>, entry: Record, limit: nat)
    ensures Latest(Latest(entries, limit) + [entry], limit) == Latest(entries + [entry], limit)
  {
  }

  function SoFar(per: map<Key, Summary>, k: Key): Summary {
    if k in per then per[k] else ZERO
  }

  ghost predicate Tallies(per: map<Key, Summary>, records: seq<Record>, g: Grouping) {
    && (forall k :: k in per <==> exists r :: r in records && KeyOf(g, r) == k)
    && forall k :: SoFar(per, k) == GroupTotal(records, g, k)
  }

  lemma TallyStep(per: map<Key, Summary>, init: seq<Record>, r: Record, g: Grouping)
    requires Tallies(per, init, g)
    ensures var key := KeyOf(g, r);
      Tallies(per[key := Add(SoFar(per, key), One(r))], init + [r], g)
  {
    var key := KeyOf(g, r);
    var next := per[key := Add(SoFar(per, key), One(r))];
    forall k
      ensures SoFar(next, k) == GroupTotal(init + [r], g, k)
    {
      GroupTotalStep(init, r, g, k);
    }
    forall k
      ensures k in next <==> exists x :: x in init + [r] && KeyOf(g, x) == k
    {
      if k in per {
        var x :| x in init && KeyOf(g, x) == k;
        assert x in init + [r];
      }
      assert r in init + [r];
    }
  }

  class UsageTracker {
    const maxRecords: nat
    var records: seq<Record>

    constructor (maxRecords: nat)
      ensures this.maxRecords == maxRecords && records == []
    {
      this.maxRecords, records := maxRecords, [];
    }

    method Append(entry: Record)
      requires maxRecords > 0 ==> |records| <= maxRecords
      modifies this
      ensures records == Latest(old(records) + [entry], maxRecords)
      ensures maxRecords > 0 ==> |records| <= maxRecords
    {
      records := records + [entry];
      if maxRecords > 0 && |records| > maxRecords {
        records := records[1..];
      }
    }

    /** Any run of records leaves the last `maxRecords` of them, in order. */
    method AppendAll(entries: seq<Record>)
      requires records == []
      modifies this
      ensures records == Latest(entries, maxRecords)
      ensures |records| == if maxRecords == 0 || |entries| <= maxRecords then |entries| else maxRecords
      ensures forall i :: 0 <= i < |records| ==> records[i] == entries[|entries| - |records| + i]
    {
      for i := 0 to |entries|
        invariant records == Latest(entries[..i], maxRecords)
      {
        assert entries[..i + 1] == entries[..i] + [entries[i]];
        LatestStep(entries[..i], entries[i], maxRecords);
        Append(entries[i]);
      }
      assert entries[..|entries|] == entries;
    }

    /** The summary loop: each key found is mapped to the total of its records. */
    method Summarize(g: Grouping) returns (per: map<Key, Summary>)
      ensures forall k :: k in per <==> exists r :: r in records && KeyOf(g, r) == k
      ensures forall k :: k in per ==> per[k] == GroupTotal(records, g, k)
    {
      per := map[];
      for i := 0 to |records|
        invariant Tallies(per, records[..i], g)
      {
        assert records[..i + 1] == records[..i] + [records[i]];
        TallyStep(per, records[..i], records[i], g);
        var key := KeyOf(g, records[i]);
        per := per[key := Add(SoFar(per, key), One(records[i]))];
      }
      assert records[..|records|] == records;
      forall k | k in per
        ensures per[k] == GroupTotal(records, g, k)
      {
        assert SoFar(per, k) == GroupTotal(records, g, k);
      }
    }

    method SummarizeByPeriod(period: string) returns (r: Result<map<Key, Summary>, string>)
      ensures r.Err? <==> period !in ["minute", "hour", "day"]
      ensures r.Ok? ==>
                forall k :: k in r.value <==> exists x :: x in records && KeyOf(ByPeriod(PeriodMs(period)), x) == k
      ensures r.Ok? ==> forall k :: k in r.value ==> r.value[k] == GroupTotal(records, ByPeriod(PeriodMs(period)), k)
    {
      if period !in ["minute", "hour", "day"] {
        return Err(period);
      }
      var per := Summarize(ByPeriod(PeriodMs(period)));
      return Ok(per);
    }

    method GrandTotal() returns (total: Summary)
      ensures total == Total(records)
    {
      total := ZERO;
      for i := 0 to |records|
        invariant total == Total(records[..i])
      {
        assert records[..i + 1][..i] == records[..i];
        total := Add(total, One(records[i]));
      }
      assert records[..|records|] == records;
    }
  }
}
