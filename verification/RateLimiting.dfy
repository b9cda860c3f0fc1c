/**
 The sliding-window gate of app/bot/llm_proxy.py. It forgets stamps older than a minute, and
 whole users with nothing recent. The reference is a gate that never forgets.
 */
module RateLimiting {
  import opened FiniteSets
  import opened Wrappers

  type Buckets = map<int, seq<real>>

  const SECONDS_PER_MINUTE := 60.0

  datatype Call =
    | Allow(userId: int, now: real)
    | Remaining(userId: int, now: real)
    | PruneStale(now: real)

  datatype Answer = Permit(ok: bool) | Left(count: nat) | Pruned | BadUser

  function Since(stamps: seq<real>, cutoff: real): seq<real> {
    if stamps == [] then []
    else
      var last := stamps[|stamps| - 1];
      Since(stamps[..|stamps| - 1], cutoff) + if last >= cutoff then [last] else []
  }

  function Active(stamps: seq<real>, now: real): nat {
    |Since(stamps, now - SECONDS_PER_MINUTE)|
  }

  // ---------- the gate as it is ----------

  function Stamps(b: Buckets, userId: int): seq<real> {
    if userId in b then b[userId] else []
  }

  predicate AllBefore(stamps: seq<real>, cutoff: real) {
    forall i :: 0 <= i < |stamps| ==> stamps[i] < cutoff
  }

  function StaleUsers(b: Buckets, now: real): set<int> {
    set u | u in b && AllBefore(b[u], now - SECONDS_PER_MINUTE)
  }

  function Reply(b: Buckets, rate: nat, call: Call): Answer {
    match call
    case Allow(u, now) => if u <= 0 then BadUser else Permit(Active(Stamps(b, u), now) < rate)
    case Remaining(u, now) =>
      if u <= 0 then BadUser
      else
        var active := Active(Stamps(b, u), now);
        Left(if active <= rate then rate - active else 0)
    case PruneStale(_) => Pruned
  }

  function After(b: Buckets, rate: nat, call: Call): Buckets {
    match call
    case Allow(u, now) =>
      if u <= 0 then b
      else
        var recent := Since(Stamps(b, u), now - SECONDS_PER_MINUTE);
        b[u := if |recent| >= rate then recent else recent + [now]]
    case Remaining(_, _) => b
    case PruneStale(now) => b - StaleUsers(b, now)
  }

  function Run(calls: seq<Call>, rate: nat): Buckets {
    if calls == [] then map[] else After(Run(calls[..|calls| - 1], rate), rate, calls[|calls| - 1])
  }

  // ---------- the gate that never forgets ----------

  function Remember(h: seq<real>, rate: nat, userId: int, call: Call): seq<real> {
    if call.Allow? && call.userId == userId && userId > 0 && Active(h, call.now) < rate then h + [call.now] else h
  }

  /** Every stamp ever accepted for the user. */
  function History(calls: seq<Call>, rate: nat, userId: int): seq<real> {
    if calls == [] then []
    else Remember(History(calls[..|calls| - 1], rate, userId), rate, userId, calls[|calls| - 1])
  }

  function FullReply(calls: seq<Call>, rate: nat, call: Call): Answer {
    if call.PruneStale? then Pruned
    else Reply(map[call.userId := History(calls, rate, call.userId)], rate, call)
  }

  // ---------- windows ----------

  lemma SinceStep(stamps: seq<real>, last: real, cutoff: real)
    ensures Since(stamps + [last], cutoff)
         == if last >= cutoff then Since(stamps, cutoff) + [last] else Since(stamps, cutoff)
  {
    assert (stamps + [last])[..|stamps|] == stamps;
  }

  /** Dropping what lies before `early` drops nothing from `late` on. */
  predicate SafeToDrop(stamps: seq<real>, early: real, late: real) {
    forall i :: 0 <= i < |stamps| && stamps[i] >= late ==> stamps[i] >= early
  }

  lemma {:induction false} SinceTwice(stamps: seq<real>, early: real, late: real)
    requires SafeToDrop(stamps, early, late)
    ensures Since(Since(stamps, early), late) == Since(stamps, late)
  {
    if stamps != [] {
      var init, last := stamps[..|stamps| - 1], stamps[|stamps| - 1];
      assert stamps == init + [last];
      SinceTwice(init, early, late);
      SinceStep(init, last, early);
      SinceStep(init, last, late);
      SinceStep(Since(init, early), last, late);
    }
  }

  lemma {:induction false} SinceNone(stamps: seq<real>, cutoff: real)
    requires AllBefore(stamps, cutoff)
    ensures Since(stamps, cutoff) == []
  {
    if stamps != [] {
      var init, last := stamps[..|stamps| - 1], stamps[|stamps| - 1];
      assert stamps == init + [last];
      SinceNone(init, cutoff);
    }
  }

  lemma {:induction false} SinceMembers(stamps: seq<real>, cutoff: real)
    ensures forall x :: x in Since(stamps, cutoff) ==> x in stamps
  {
    if stamps != [] {
      SinceMembers(stamps[..|stamps| - 1], cutoff);
    }
  }

  // ---------- when forgetting shows ----------

  /** The clock readings of a trace. */
  function Readings(calls: seq<Call>): (r: seq<real>)
    ensures |r| == |calls| && forall i :: 0 <= i < |r| ==> r[i] == calls[i].now
  {
    seq(|calls|, i requires 0 <= i < |calls| => calls[i].now)
  }

  /** A reading over a minute before a later one is back within the minute of a still later one. */
  predicate Returns(t: seq<real>, i: nat, j: nat, k: nat)
    requires i < j < k < |t|
  {
    t[i] < t[j] - SECONDS_PER_MINUTE && t[k] - SECONDS_PER_MINUTE <= t[i]
  }

  ghost predicate SomeReturns(t: seq<real>) {
    exists i: nat, j: nat, k: nat :: i < j < k < |t| && Returns(t, i, j, k)
  }

  /** Nothing older than a minute at one of these calls is as recent as `cutoff`. */
  ghost predicate LeavesAlone(calls: seq<Call>, cutoff: real) {
    forall i, j :: 0 <= i < j < |calls| && calls[i].now < calls[j].now - SECONDS_PER_MINUTE ==> calls[i].now < cutoff
  }

  lemma {:induction false} StampsAreReadings(calls: seq<Call>, rate: nat, userId: int)
    ensures forall x :: x in Stamps(Run(calls, rate), userId) ==> exists i :: 0 <= i < |calls| && calls[i].now == x
  {
    if calls != [] {
      var before, last := calls[..|calls| - 1], calls[|calls| - 1];
      StampsAreReadings(before, rate, userId);
      SinceMembers(Stamps(Run(before, rate), userId), last.now - SECONDS_PER_MINUTE);
      forall x | x in Stamps(Run(calls, rate), userId)
        ensures exists i :: 0 <= i < |calls| && calls[i].now == x
      {
        if x in Stamps(Run(before, rate), userId) {
          var i :| 0 <= i < |before| && before[i].now == x;
          assert calls[i].now == x;
        } else {
          assert calls[|calls| - 1].now == x;
        }
      }
    }
  }

  /** What a call forgets is, if nothing returns, too old for the window that matters. */
  lemma ForgottenIsOld(calls: seq<Call>, rate: nat, userId: int, cutoff: real)
    requires calls != [] && LeavesAlone(calls, cutoff)
    ensures SafeToDrop(Stamps(Run(calls[..|calls| - 1], rate), userId),
                       calls[|calls| - 1].now - SECONDS_PER_MINUTE, cutoff)
  {
    var before := calls[..|calls| - 1];
    var stamps := Stamps(Run(before, rate), userId);
    StampsAreReadings(before, rate, userId);
    forall n | 0 <= n < |stamps| && stamps[n] >= cutoff
      ensures stamps[n] >= calls[|calls| - 1].now - SECONDS_PER_MINUTE
    {
      assert stamps[n] in stamps;
      var i :| 0 <= i < |before| && before[i].now == stamps[n];
      assert calls[i].now == stamps[n];
    }
  }

  /** Admission by the two gates, seen through the window that matters. */
  lemma AllowKeeps(stored: seq<real>, all: seq<real>, early: real, cutoff: real, now: real)
    requires Since(stored, early) == Since(all, early) && Since(stored, cutoff) == Since(all, cutoff)
    requires SafeToDrop(stored, early, cutoff)
    ensures var recent := Since(stored, early);
      && Since(recent, cutoff) == Since(all, cutoff)
      && Since(recent + [now], cutoff) == Since(all + [now], cutoff)
  {
    SinceTwice(stored, early, cutoff);
    SinceStep(Since(stored, early), now, cutoff);
    SinceStep(all, now, cutoff);
  }

  lemma AllowCallKeeps(b: Buckets, h: seq<real>, rate: nat, userId: int, now: real, cutoff: real)
    requires userId > 0 && Since(Stamps(b, userId), cutoff) == Since(h, cutoff)
    requires var early := now - SECONDS_PER_MINUTE;
      Since(Stamps(b, userId), early) == Since(h, early) && SafeToDrop(Stamps(b, userId), early, cutoff)
    ensures Since(Stamps(After(b, rate, Allow(userId, now)), userId), cutoff)
         == Since(Remember(h, rate, userId, Allow(userId, now)), cutoff)
  {
    AllowKeeps(Stamps(b, userId), h, now - SECONDS_PER_MINUTE, cutoff, now);
  }

  lemma PruneCallKeeps(b: Buckets, h: seq<real>, rate: nat, userId: int, now: real, cutoff: real)
    requires Since(Stamps(b, userId), cutoff) == Since(h, cutoff)
    requires SafeToDrop(Stamps(b, userId), now - SECONDS_PER_MINUTE, cutoff)
    ensures Since(Stamps(After(b, rate, PruneStale(now)), userId), cutoff) == Since(h, cutoff)
  {
    if userId in StaleUsers(b, now) {
      assert AllBefore(b[userId], cutoff);
      SinceNone(b[userId], cutoff);
    }
  }

  /** One call keeps what both gates see through the window that matters. */
  lemma CallKeeps(b: Buckets, h: seq<real>, rate: nat, userId: int, call: Call, cutoff: real)
    requires Since(Stamps(b, userId), cutoff) == Since(h, cutoff)
    requires var early := call.now - SECONDS_PER_MINUTE;
      Since(Stamps(b, userId), early) == Since(h, early) && SafeToDrop(Stamps(b, userId), early, cutoff)
    ensures Since(Stamps(After(b, rate, call), userId), cutoff) == Since(Remember(h, rate, userId, call), cutoff)
  {
    match call
    case Allow(u, now) =>
      if u == userId && u > 0 {
        AllowCallKeeps(b, h, rate, userId, now, cutoff);
      }
    case Remaining(_, _) =>
    case PruneStale(now) => PruneCallKeeps(b, h, rate, userId, now, cutoff);
  }

  lemma {:induction false} RecentIsKept(calls: seq<Call>, rate: nat, userId: int, cutoff: real)
    requires !SomeReturns(Readings(calls)) && LeavesAlone(calls, cutoff)
    ensures Since(Stamps(Run(calls, rate), userId), cutoff) == Since(History(calls, rate, userId), cutoff)
  {
    if calls != [] {
      var before, last := calls[..|calls| - 1], calls[|calls| - 1];
      PrefixReturns(calls, |calls| - 1);
      LastLeavesAlone(calls);
      RecentIsKept(before, rate, userId, cutoff);
      RecentIsKept(before, rate, userId, last.now - SECONDS_PER_MINUTE);
      ForgottenIsOld(calls, rate, userId, cutoff);
      CallKeeps(Run(before, rate), History(before, rate, userId), rate, userId, last, cutoff);
    }
  }

  lemma PrefixReturns(calls: seq<Call>, n: nat)
    requires n <= |calls| && !SomeReturns(Readings(calls))
    ensures !SomeReturns(Readings(calls[..n]))
  {
    var t, u := Readings(calls), Readings(calls[..n]);
    forall i: nat, j: nat, k: nat | i < j < k < |u|
      ensures !Returns(u, i, j, k)
    {
      assert !Returns(t, i, j, k);
    }
  }

  lemma LastLeavesAlone(calls: seq<Call>)
    requires calls != [] && !SomeReturns(Readings(calls))
    ensures LeavesAlone(calls[..|calls| - 1], calls[|calls| - 1].now - SECONDS_PER_MINUTE)
  {
    var before, t := calls[..|calls| - 1], Readings(calls);
    forall i, j | 0 <= i < j < |before| && before[i].now < before[j].now - SECONDS_PER_MINUTE
      ensures before[i].now < calls[|calls| - 1].now - SECONDS_PER_MINUTE
    {
      assert !Returns(t, i, j, |calls| - 1);
    }
  }

  /** The n-th call is answered as by the gate that never forgets. */
  predicate AnsweredFully(calls: seq<Call>, rate: nat, n: nat)
    requires n < |calls|
  {
    Reply(Run(calls[..n], rate), rate, calls[n]) == FullReply(calls[..n], rate, calls[n])
  }

  ghost predicate AllAnsweredFully(calls: seq<Call>, rate: nat) {
    forall n: nat :: n < |calls| ==> AnsweredFully(calls, rate, n)
  }

  lemma NoReturnAnswers(calls: seq<Call>, rate: nat, n: nat)
    requires n < |calls| && !SomeReturns(Readings(calls))
    ensures AnsweredFully(calls, rate, n)
  {
    var upTo, call := calls[..n + 1], calls[n];
    assert upTo[..n] == calls[..n] && upTo[n] == call;
    PrefixReturns(calls, n);
    PrefixReturns(calls, n + 1);
    LastLeavesAlone(upTo);
    if !call.PruneStale? {
      RecentIsKept(calls[..n], rate, call.userId, call.now - SECONDS_PER_MINUTE);
    }
  }

  /** Calls at the given readings: asking to be let in at three of them, looking on at the others. */
  function Witness(t: seq<real>, i: nat, j: nat, k: nat): (calls: seq<Call>)
    ensures |calls| == |t| && Readings(calls) == t
  {
    var calls := seq(|t|, n requires 0 <= n < |t| => if n in [i, j, k] then Allow(1, t[n]) else Remaining(1, t[n]));
    assert Readings(calls) == t;
    calls
  }

  /** What the gate stores for user 1, and what has been accepted from that user. */
  ghost predicate Seen(calls: seq<Call>, stored: seq<real>, accepted: seq<real>) {
    Stamps(Run(calls, 2), 1) == stored && History(calls, 2, 1) == accepted
  }

  lemma FirstAdmitted(calls: seq<Call>, a: real)
    requires Seen(calls, [], [])
    ensures Seen(calls + [Allow(1, a)], [a], [a])
  {
    assert (calls + [Allow(1, a)])[..|calls|] == calls;
    assert Since([], a - SECONDS_PER_MINUTE) == [];
  }

  lemma SecondAdmitted(calls: seq<Call>, a: real, b: real)
    requires Seen(calls, [a], [a]) && a < b - SECONDS_PER_MINUTE
    ensures Seen(calls + [Allow(1, b)], [b], [a, b])
  {
    assert (calls + [Allow(1, b)])[..|calls|] == calls;
    SinceNone([a], b - SECONDS_PER_MINUTE);
  }

  lemma LookingOn(calls: seq<Call>, now: real, stored: seq<real>, accepted: seq<real>)
    requires Seen(calls, stored, accepted)
    ensures Seen(calls + [Remaining(1, now)], stored, accepted)
  {
    assert (calls + [Remaining(1, now)])[..|calls|] == calls;
  }

  lemma {:induction false} WitnessRuns(t: seq<real>, i: nat, j: nat, k: nat, n: nat)
    requires i < j < k < |t| && n <= k && t[i] < t[j] - SECONDS_PER_MINUTE
    ensures var calls := Witness(t, i, j, k)[..n];
      if n <= i then Seen(calls, [], [])
      else if n <= j then Seen(calls, [t[i]], [t[i]])
      else Seen(calls, [t[j]], [t[i], t[j]])
  {
    if n > 0 {
      var before := Witness(t, i, j, k)[..n - 1];
      assert Witness(t, i, j, k)[..n] == before + [Witness(t, i, j, k)[n - 1]];
      WitnessRuns(t, i, j, k, n - 1);
      if n == i + 1 {
        FirstAdmitted(before, t[i]);
      } else if n == j + 1 {
        SecondAdmitted(before, t[i], t[j]);
      } else if n <= i {
        LookingOn(before, t[n - 1], [], []);
      } else if n <= j {
        LookingOn(before, t[n - 1], [t[i]], [t[i]]);
      } else {
        LookingOn(before, t[n - 1], [t[j]], [t[i], t[j]]);
      }
    }
  }

  lemma StoredLess(calls: seq<Call>, a: real, b: real, c: real)
    requires Seen(calls, [b], [a, b]) && a < b - SECONDS_PER_MINUTE && c - SECONDS_PER_MINUTE <= a
    ensures Reply(Run(calls, 2), 2, Allow(1, c)) == Permit(true)
    ensures FullReply(calls, 2, Allow(1, c)) == Permit(false)
  {
    var early := c - SECONDS_PER_MINUTE;
    assert [a, b] == [a] + [b] && [a] == [] + [a] && [b] == [] + [b];
    SinceStep([a], b, early);
    SinceStep([], a, early);
    SinceStep([], b, early);
  }

  lemma ReturnDisagrees(t: seq<real>, i: nat, j: nat, k: nat)
    requires i < j < k < |t| && Returns(t, i, j, k)
    ensures !AnsweredFully(Witness(t, i, j, k), 2, k)
  {
    WitnessRuns(t, i, j, k, k);
    StoredLess(Witness(t, i, j, k)[..k], t[i], t[j], t[k]);
  }

  /** Every trace, whoever calls and whatever the rate, is answered as if nothing were forgotten. */
  ghost predicate ForgettingNeverShows(t: seq<real>) {
    forall calls: seq<Call>, rate: nat :: Readings(calls) == t ==> AllAnsweredFully(calls, rate)
  }

  /** The clock readings alone decide whether forgetting can show: it cannot exactly when no reading
      that lies over a minute before a later one is back within the minute of a still later one. */
  lemma ForgettingShowsIff(t: seq<real>)
    ensures ForgettingNeverShows(t) <==> !SomeReturns(t)
  {
    if SomeReturns(t) {
      var i: nat, j: nat, k: nat :| i < j < k < |t| && Returns(t, i, j, k);
      ReturnDisagrees(t, i, j, k);
      assert !AllAnsweredFully(Witness(t, i, j, k), 2);
    } else {
      forall calls: seq<Call>, rate: nat | Readings(calls) == t
        ensures AllAnsweredFully(calls, rate)
      {
        forall n: nat | n < |calls|
          ensures AnsweredFully(calls, rate, n)
        {
          NoReturnAnswers(calls, rate, n);
        }
      }
    }
  }

  predicate InOrder(calls: seq<Call>) {
    forall i, j :: 0 <= i <= j < |calls| ==> calls[i].now <= calls[j].now
  }

  lemma InOrderNeverReturns(calls: seq<Call>)
    requires InOrder(calls)
    ensures !SomeReturns(Readings(calls))
  {
    forall i: nat, j: nat, k: nat | i < j < k < |calls|
      ensures !Returns(Readings(calls), i, j, k)
    {
      assert calls[j].now <= calls[k].now;
    }
  }

  /** With a clock that does not run backwards every call is answered as if nothing were forgotten. */
  lemma ForgettingIsInvisible(calls: seq<Call>, rate: nat, call: Call)
    requires InOrder(calls + [call])
    ensures Reply(Run(calls, rate), rate, call) == FullReply(calls, rate, call)
  {
    var all := calls + [call];
    InOrderNeverReturns(all);
    ForgettingShowsIff(Readings(all));
    assert AllAnsweredFully(all, rate);
    assert AnsweredFully(all, rate, |calls|);
    assert all[..|calls|] == calls;
  }

  lemma ThreeReadings(a: real, b: real, c: real)
    ensures ForgettingNeverShows([a, b, c]) <==> !(a < b - SECONDS_PER_MINUTE && c - SECONDS_PER_MINUTE <= a)
  {
    var t := [a, b, c];
    ForgettingShowsIff(t);
    assert Returns(t, 0, 1, 2) <==> a < b - SECONDS_PER_MINUTE && c - SECONDS_PER_MINUTE <= a;
    if SomeReturns(t) {
      var i: nat, j: nat, k: nat :| i < j < k < |t| && Returns(t, i, j, k);
      assert i == 0 && j == 1 && k == 2;
    }
  }

  /** A clock set back by 80 s can let a stamp dropped at 200 s be missed at 120 s; by 39 s it cannot. */
  lemma ClockSetBack()
    ensures !ForgettingNeverShows([100.0, 200.0, 120.0])
    ensures ForgettingNeverShows([100.0, 200.0, 161.0])
  {
    ThreeReadings(100.0, 200.0, 120.0);
    ThreeReadings(100.0, 200.0, 161.0);
  }

  // ---------- what the window guarantees ----------

  /** The times at which the forgetful gate itself said yes. */
  function Permitted(calls: seq<Call>, rate: nat, userId: int): seq<real> {
    if calls == [] then []
    else
      var before, last := calls[..|calls| - 1], calls[|calls| - 1];
      Permitted(before, rate, userId)
      + if last.Allow? && last.userId == userId && Reply(Run(before, rate), rate, last) == Permit(true)
        then [last.now] else []
  }

  lemma {:induction false} PermittedIsHistory(calls: seq<Call>, rate: nat, userId: int)
    requires InOrder(calls)
    ensures Permitted(calls, rate, userId) == History(calls, rate, userId)
  {
    if calls != [] {
      var before, last := calls[..|calls| - 1], calls[|calls| - 1];
      assert InOrder(before + [last]) by {
        assert before + [last] == calls;
      }
      PermittedIsHistory(before, rate, userId);
      ForgettingIsInvisible(before, rate, last);
    }
  }

  ghost predicate Ascending(stamps: seq<real>) {
    forall i, j :: 0 <= i <= j < |stamps| ==> stamps[i] <= stamps[j]
  }

  lemma {:induction false} SinceOfAscending(stamps: seq<real>, cutoff: real, i: nat)
    requires Ascending(stamps) && i < |stamps| && stamps[i] >= cutoff
    ensures |Since(stamps, cutoff)| >= |stamps| - i
  {
    if i < |stamps| - 1 {
      SinceOfAscending(stamps[..|stamps| - 1], cutoff, i);
    }
  }

  lemma {:induction false} HistoryAscends(calls: seq<Call>, rate: nat, userId: int)
    requires InOrder(calls)
    ensures var h := History(calls, rate, userId);
      Ascending(h) && forall i :: 0 <= i < |h| ==> h[i] <= calls[|calls| - 1].now
  {
    if calls != [] {
      HistoryAscends(calls[..|calls| - 1], rate, userId);
    }
  }

  lemma {:induction false} HistorySpread(calls: seq<Call>, rate: nat, userId: int, i: nat)
    requires InOrder(calls) && i + rate < |History(calls, rate, userId)|
    ensures var h := History(calls, rate, userId); h[i + rate] - h[i] > SECONDS_PER_MINUTE
  {
    var before, last := calls[..|calls| - 1], calls[|calls| - 1];
    var h := History(before, rate, userId);
    if i + rate < |h| {
      HistorySpread(before, rate, userId, i);
    } else if rate > 0 && h[i] >= last.now - SECONDS_PER_MINUTE {
      HistoryAscends(before, rate, userId);
      SinceOfAscending(h, last.now - SECONDS_PER_MINUTE, i);
    }
  }

  /** Among any rate + 1 permitted calls of a user the first and the last are over a minute apart. */
  lemma WindowHolds(calls: seq<Call>, rate: nat, userId: int, i: nat)
    requires InOrder(calls) && i + rate < |Permitted(calls, rate, userId)|
    ensures var p := Permitted(calls, rate, userId); p[i + rate] - p[i] > SECONDS_PER_MINUTE
  {
    PermittedIsHistory(calls, rate, userId);
    HistorySpread(calls, rate, userId, i);
  }

  /** Which of the stamps lie in the minute before `now`. */
  function LastMinute(stamps: seq<real>, now: real): set<nat> {
    set i: nat | i < |stamps| && stamps[i] >= now - 60.0
  }

  lemma {:induction false} SinceCounts(stamps: seq<real>, now: real)
    ensures |Since(stamps, now - 60.0)| == |LastMinute(stamps, now)|
  {
    if stamps != [] {
      var init, last: nat := stamps[..|stamps| - 1], |stamps| - 1;
      SinceCounts(init, now);
      if stamps[last] >= now - 60.0 {
        assert LastMinute(stamps, now) == LastMinute(init, now) + {last};
      } else {
        assert LastMinute(stamps, now) == LastMinute(init, now);
      }
    }
  }

  /** In order of time, a call is permitted exactly when fewer than `rate` calls of its user were permitted in
      the minute before; what is left is the rate less their number, and 0 at least. */
  lemma PermittedIffRoom(calls: seq<Call>, rate: nat, call: Call)
    requires InOrder(calls + [call]) && !call.PruneStale? && call.userId > 0
    ensures var recent := |LastMinute(Permitted(calls, rate, call.userId), call.now)|;
      Reply(Run(calls, rate), rate, call)
      == if call.Allow? then Permit(recent < rate) else Left(if recent < rate then rate - recent else 0)
  {
    ForgettingIsInvisible(calls, rate, call);
    assert calls == (calls + [call])[..|calls|];
    assert InOrder(calls);
    PermittedIsHistory(calls, rate, call.userId);
    SinceCounts(History(calls, rate, call.userId), call.now);
  }

  lemma HistoryStep(calls: seq<Call>, last: Call, rate: nat, userId: int)
    ensures History(calls + [last], rate, userId) == Remember(History(calls, rate, userId), rate, userId, last)
  {
    assert (calls + [last])[..|calls|] == calls;
  }

  lemma {:induction false} HistoryIgnoresPruning(before: seq<Call>, now: real, later: seq<Call>, rate: nat, userId: int)
    ensures History(before + [PruneStale(now)] + later, rate, userId) == History(before + later, rate, userId)
  {
    if later == [] {
      HistoryStep(before, PruneStale(now), rate, userId);
      assert before + [PruneStale(now)] + later == before + [PruneStale(now)];
      assert before + later == before;
    } else {
      var init, last := later[..|later| - 1], later[|later| - 1];
      HistoryIgnoresPruning(before, now, init, rate, userId);
      HistoryStep(before + [PruneStale(now)] + init, last, rate, userId);
      HistoryStep(before + init, last, rate, userId);
      assert before + [PruneStale(now)] + later == (before + [PruneStale(now)] + init) + [last];
      assert before + later == (before + init) + [last];
    }
  }

  lemma SkippedReturns(before: seq<Call>, out: Call, later: seq<Call>)
    requires !SomeReturns(Readings(before + [out] + later))
    ensures !SomeReturns(Readings(before + later))
  {
    var t, u := Readings(before + [out] + later), Readings(before + later);
    forall i: nat, j: nat, k: nat | i < j < k < |u|
      ensures !Returns(u, i, j, k)
    {
      var i', j', k': nat := Past(|before|, i), Past(|before|, j), Past(|before|, k);
      assert t[i'] == u[i] && t[j'] == u[j] && t[k'] == u[k];
      assert !Returns(t, i', j', k');
    }
  }

  /** Where an index lands when one more item is put in at `at`. */
  function Past(at: nat, i: nat): nat {
    if i < at then i else i + 1
  }

  /** A clean-up run put in anywhere changes no later answer, as long as nothing forgotten returns. */
  lemma PruningIsInvisible(before: seq<Call>, now: real, later: seq<Call>, rate: nat, call: Call)
    requires !SomeReturns(Readings(before + [PruneStale(now)] + (later + [call])))
    ensures Reply(Run(before + [PruneStale(now)] + later, rate), rate, call)
         == Reply(Run(before + later, rate), rate, call)
  {
    var with, without := before + [PruneStale(now)] + (later + [call]), before + (later + [call]);
    SkippedReturns(before, PruneStale(now), later + [call]);
    NoReturnAnswers(with, rate, |with| - 1);
    NoReturnAnswers(without, rate, |without| - 1);
    assert with[..|with| - 1] == before + [PruneStale(now)] + later;
    assert without[..|without| - 1] == before + later;
    if !call.PruneStale? {
      HistoryIgnoresPruning(before, now, later, rate, call.userId);
    }
  }

  // ---------- the object ----------

  lemma PrunedAre(b: Buckets, now: real)
    ensures var left := b - StaleUsers(b, now);
      && (forall u :: u in left <==> u in b && exists i :: 0 <= i < |b[u]| && b[u][i] >= now - 60.0)
      && |StaleUsers(b, now)| == |b| - |left|
  {
    var left, stale := b - StaleUsers(b, now), StaleUsers(b, now);
    assert left.Keys == b.Keys - stale && stale <= b.Keys;
    assert |left| == |left.Keys| && |b| == |b.Keys|;
  }

  class RateLimitGate {
    const ratePerMinute: nat
    var buckets: Buckets

    constructor (ratePerMinute: nat)
      requires ratePerMinute > 0
      ensures this.ratePerMinute == ratePerMinute && buckets == map[]
    {
      this.ratePerMinute := ratePerMinute;
      buckets := map[];
    }

    static method Create(ratePerMinute: int) returns (r: Result<RateLimitGate, int>)
      ensures ratePerMinute <= 0 ==> r == Err(ratePerMinute)
      ensures ratePerMinute > 0 ==> r.Ok? && fresh(r.value)
      ensures ratePerMinute > 0 ==> r.value.ratePerMinute == ratePerMinute && r.value.buckets == map[]
    {
      if ratePerMinute <= 0 {
        return Err(ratePerMinute);
      }
      var gate := new RateLimitGate(ratePerMinute);
      return Ok(gate);
    }

    method Allow(userId: int, now: real) returns (answer: Answer)
      modifies this
      ensures answer == Reply(old(buckets), ratePerMinute, Call.Allow(userId, now))
      ensures buckets == After(old(buckets), ratePerMinute, Call.Allow(userId, now))
      ensures userId > 0 ==>
                (answer.ok <==> Reply(old(buckets), ratePerMinute, Call.Remaining(userId, now)).count > 0)
    {
      if userId <= 0 {
        return BadUser;
      }
      if userId !in buckets {
        buckets := buckets[userId := []];
      }
      buckets := buckets[userId := Since(buckets[userId], now - SECONDS_PER_MINUTE)];
      if |buckets[userId]| >= ratePerMinute {
        return Permit(false);
      }
      buckets := buckets[userId := buckets[userId] + [now]];
      return Permit(true);
    }

    method Remaining(userId: int, now: real) returns (answer: Answer)
      ensures answer == Reply(buckets, ratePerMinute, Call.Remaining(userId, now))
    {
      if userId <= 0 {
        return BadUser;
      }
      var active := |Since(Stamps(buckets, userId), now - SECONDS_PER_MINUTE)|;
      return Left(if ratePerMinute - active > 0 then ratePerMinute - active else 0);
    }

    method PruneStale(now: real) returns (evicted: nat)
      modifies this
      ensures buckets == After(old(buckets), ratePerMinute, Call.PruneStale(now))
      ensures forall u :: u in buckets <==>
                u in old(buckets) && exists i :: 0 <= i < |old(buckets)[u]| && old(buckets)[u][i] >= now - 60.0
      ensures forall u :: u in buckets ==> buckets[u] == old(buckets)[u]
      ensures evicted == |old(buckets)| - |buckets|
    {
      ghost var was := buckets;
      var stale := StaleUsers(buckets, now);
      evicted := |stale|;
      var left := stale;
      while left != {}
        invariant left <= stale
        invariant buckets == was - (stale - left)
      {
        Inhabited(left);
        var u :| u in left;
        buckets := buckets - {u};
        left := left - {u};
      }
      PrunedAre(was, now);
    }
  }
}
