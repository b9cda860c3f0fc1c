/** What the sums of `Usage` count: the figures of the records themselves. */
module UsageFigures {
  import opened Usage

  datatype Figure = Calls | InputTokens | OutputTokens

  function Reading(r: Record, f: Figure): nat {
    match f
    case Calls => 1
    case InputTokens => r.inputTokens
    case OutputTokens => r.outputTokens
  }

  function Shown(s: Summary, f: Figure): nat {
    match f
    case Calls => s.count
    case InputTokens => s.inputTokens
    case OutputTokens => s.outputTokens
  }

  /** A figure added up over all records. */
  function SumAll(records: seq<Record>, f: Figure): nat {
    if records == [] then 0 else SumAll(records[..|records| - 1], f) + Reading(records[|records| - 1], f)
  }

  /** A figure added up over the records with one key. */
  function SumOfGroup(records: seq<Record>, g: Grouping, k: Key, f: Figure): nat {
    if records == [] then 0
    else
      var last := records[|records| - 1];
      SumOfGroup(records[..|records| - 1], g, k, f) + if KeyOf(g, last) == k then Reading(last, f) else 0
  }

  /** The total has the number of records and the two sums of their tokens. */
  lemma {:induction false} TotalIs(records: seq<Record>, f: Figure)
    ensures Shown(Total(records), f) == SumAll(records, f) && Total(records).count == |records|
  {
    if records != [] {
      TotalIs(records[..|records| - 1], f);
    }
  }

  /** A group total counts the records with that key and no others. */
  lemma {:induction false} GroupTotalIs(records: seq<Record>, g: Grouping, k: Key, f: Figure)
    ensures Shown(GroupTotal(records, g, k), f) == SumOfGroup(records, g, k, f)
  {
    if records == [] {
      EmptyGroup(records, g, k);
    } else {
      var init, last := records[..|records| - 1], records[|records| - 1];
      GroupTotalIs(init, g, k, f);
      assert records == init + [last];
      GroupTotalStep(init, last, g, k);
    }
  }

  /** Records are grouped by user, by provider, or by the whole minute, hour or day they fall into. */
  lemma KeysGroup(a: Record, b: Record, ms: Millis)
    ensures KeyOf(ByUser, a) == KeyOf(ByUser, b) <==> a.userId == b.userId
    ensures KeyOf(ByProvider, a) == KeyOf(ByProvider, b) <==> a.provider == b.provider
    ensures KeyOf(ByPeriod(ms), a).BucketKey?
    ensures var start := KeyOf(ByPeriod(ms), a).start;
      && (exists n: nat :: start == n * ms) && start <= a.timestampMs < start + ms
      && (KeyOf(ByPeriod(ms), b) == KeyOf(ByPeriod(ms), a) <==> start <= b.timestampMs < start + ms)
    ensures PeriodMs("minute") == 60_000 && PeriodMs("hour") == 3_600_000 && PeriodMs("day") == 86_400_000
  {
    assert |"day"| == 3 && |"hour"| == 4 && |"minute"| == 6;
    Multiple(a.timestampMs, ms);
    Multiple(b.timestampMs, ms);
    if Bucket(a.timestampMs, ms) <= b.timestampMs < Bucket(a.timestampMs, ms) + ms {
      QuotientIs(b.timestampMs, ms, a.timestampMs / ms);
    }
  }

  lemma Multiple(t: nat, ms: Millis)
    ensures Bucket(t, ms) == t / ms * ms && t / ms * ms <= t < t / ms * ms + ms
  {
  }
}
