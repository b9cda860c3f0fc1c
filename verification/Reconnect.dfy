/**
 The reconnect loop of app/net/signaling_client.py. What the network does at each attempt is a
 script; a script that runs out leaves the loop waiting.
 */
module Reconnect {
  import opened ClientView
  import opened Wrappers

  /** One turn of the loop: told to stop while asleep or while connecting, no connection, or a connection,
      which may be dropped again before the re-JOIN is through. */
  datatype Attempt = CalledOff(dialing: bool) | Refused | Accepted(sendWorks: bool, drops: bool)

  datatype JoinResult = NotSent | BadIdentity | Joined

  datatype Verdict = NotRunning | Waiting | Stopped | GaveUp | Back

  datatype Settings = Settings(baseDelay: real, maxDelay: real, multiplier: real, maxAttempts: nat)

  function Min(a: real, b: real): real {
    if a <= b then a else b
  }

  /** One exponential step. */
  function Grow(s: Settings): real -> real {
    (delay: real) => delay * s.multiplier
  }

  function Capped(grow: real -> real, base: real, cap: real, k: nat): real {
    if k == 0 then base else Min(grow(Capped(grow, base, cap, k - 1)), cap)
  }

  function Uncapped(grow: real -> real, base: real, k: nat): real {
    if k == 0 then base else grow(Uncapped(grow, base, k - 1))
  }

  /** The sleep before attempt `k`, as the loop computes it: grown and capped after every failure. */
  function Sleep(s: Settings, k: nat): real {
    Capped(Grow(s), s.baseDelay, s.maxDelay, k)
  }

  function Power(b: real, k: nat): real {
    if k == 0 then 1.0 else b * Power(b, k - 1)
  }

  function Formula(s: Settings, k: nat): real {
    Min(s.baseDelay * Power(s.multiplier, k), s.maxDelay)
  }

  ghost predicate Monotone(grow: real -> real) {
    forall x, y :: x <= y ==> grow(x) <= grow(y)
  }

  ghost predicate Shrinks(grow: real -> real) {
    forall x :: x >= 0.0 ==> 0.0 <= grow(x) && grow(x) <= x
  }

  lemma {:induction false} ShrinkingStaysBelow(grow: real -> real, base: real, k: nat)
    requires Shrinks(grow) && base >= 0.0
    ensures 0.0 <= Uncapped(grow, base, k) && Uncapped(grow, base, k) <= base
  {
    if k > 0 {
      ShrinkingStaysBelow(grow, base, k - 1);
    }
  }

  /** Capping at every step is capping once at the end. */
  lemma {:induction false} CappedOnce(grow: real -> real, base: real, cap: real, k: nat)
    requires 0.0 <= base <= cap && Monotone(grow) && (grow(cap) >= cap || Shrinks(grow))
    ensures Capped(grow, base, cap, k) == Min(Uncapped(grow, base, k), cap)
  {
    if k > 0 {
      CappedOnce(grow, base, cap, k - 1);
      if grow(cap) < cap {
        ShrinkingStaysBelow(grow, base, k - 1);
      }
    }
  }

  lemma NonNegative(a: real, b: real)
    requires a >= 0.0 && b >= 0.0
    ensures a * b >= 0.0
  {
  }

  lemma GrowFacts(s: Settings, x: real, y: real)
    requires s.multiplier >= 0.0
    ensures x <= y ==> Grow(s)(x) <= Grow(s)(y)
    ensures x >= 0.0 && s.multiplier <= 1.0 ==> 0.0 <= Grow(s)(x) && Grow(s)(x) <= x
    ensures x >= 0.0 && s.multiplier >= 1.0 ==> Grow(s)(x) >= x
  {
    if x <= y {
      NonNegative(y - x, s.multiplier);
    }
    if x >= 0.0 {
      NonNegative(x, s.multiplier);
      if s.multiplier <= 1.0 {
        NonNegative(x, 1.0 - s.multiplier);
      } else {
        NonNegative(x, s.multiplier - 1.0);
      }
    }
  }

  lemma {:induction false} UncappedIsPower(s: Settings, k: nat)
    ensures Uncapped(Grow(s), s.baseDelay, k) == s.baseDelay * Power(s.multiplier, k)
  {
    if k > 0 {
      UncappedIsPower(s, k - 1);
      Regroup(s.baseDelay, s.multiplier, Power(s.multiplier, k - 1));
    }
  }

  lemma Regroup(a: real, m: real, p: real)
    ensures a * (m * p) == a * p * m
  {
  }

  lemma GrowIsRegular(s: Settings)
    requires s.maxDelay >= 0.0 && s.multiplier >= 0.0
    ensures Monotone(Grow(s)) && (Grow(s)(s.maxDelay) >= s.maxDelay || Shrinks(Grow(s)))
  {
    forall x, y
      ensures x <= y ==> Grow(s)(x) <= Grow(s)(y)
      ensures x >= 0.0 && s.multiplier <= 1.0 ==> 0.0 <= Grow(s)(x) && Grow(s)(x) <= x
    {
      GrowFacts(s, x, y);
    }
    GrowFacts(s, s.maxDelay, s.maxDelay);
  }

  lemma SleepIsCapped(s: Settings, k: nat)
    requires 0.0 <= s.baseDelay <= s.maxDelay && s.multiplier >= 0.0
    ensures Sleep(s, k) == Min(Uncapped(Grow(s), s.baseDelay, k), s.maxDelay)
  {
    GrowIsRegular(s);
    CappedOnce(Grow(s), s.baseDelay, s.maxDelay, k);
  }

  lemma SleepIsFormula(s: Settings, k: nat)
    requires 0.0 <= s.baseDelay <= s.maxDelay && s.multiplier >= 0.0
    ensures Sleep(s, k) == Formula(s, k)
  {
    SleepIsCapped(s, k);
    UncappedIsPower(s, k);
  }

  /** Every sleep is base times multiplier to the k, capped, exactly when the base is within the cap. */
  lemma BackoffIff(s: Settings)
    requires s.baseDelay >= 0.0 && s.multiplier >= 0.0
    ensures (forall k: nat :: Sleep(s, k) == Formula(s, k)) <==> s.baseDelay <= s.maxDelay
  {
    if s.baseDelay <= s.maxDelay {
      forall k: nat
        ensures Sleep(s, k) == Formula(s, k)
      {
        SleepIsFormula(s, k);
      }
    } else {
      assert Power(s.multiplier, 0) == 1.0;
      assert Sleep(s, 0) != Formula(s, 0);
    }
  }

  /** Refusals before anything else happens. */
  function Refusals(script: seq<Attempt>): (n: nat)
    ensures n <= |script| && forall i :: 0 <= i < n ==> script[i] == Refused
    ensures n < |script| ==> script[n] != Refused
  {
    if script == [] || script[0] != Refused then 0 else 1 + Refusals(script[1..])
  }

  /** How the loop ends on a script and how often it sleeps: after `maxAttempts` refusals it gives up. */
  function Course(s: Settings, script: seq<Attempt>): (Verdict, nat) {
    var n := Refusals(script);
    if s.maxAttempts > 0 && n >= s.maxAttempts then (GaveUp, s.maxAttempts)
    else if n == |script| then (Waiting, n)
    else (if script[n].CalledOff? then Stopped else Back, n + 1)
  }

  lemma {:induction false} RefusalsAtLeast(script: seq<Attempt>, n: nat)
    requires n <= |script| && forall i :: 0 <= i < n ==> script[i] == Refused
    ensures Refusals(script) >= n
  {
    if n > 0 {
      RefusalsAtLeast(script[1..], n - 1);
    }
  }

  /** The first `n` turns are refusals. */
  predicate RefusedFor(script: seq<Attempt>, n: nat) {
    n <= |script| && forall i :: 0 <= i < n ==> script[i] == Refused
  }

  /** The loop gives up exactly after as many refusals in a row as a positive limit allows; it connects or
      stops at the first turn that is no refusal, if that comes earlier; and it sleeps once a turn. */
  lemma CourseIff(s: Settings, script: seq<Attempt>)
    ensures var (verdict, sleeps) := Course(s, script);
      && (verdict == GaveUp <==> s.maxAttempts > 0 && RefusedFor(script, s.maxAttempts))
      && (verdict == GaveUp ==> sleeps == s.maxAttempts)
      && (verdict == Waiting <==> RefusedFor(script, |script|) && (s.maxAttempts == 0 || |script| < s.maxAttempts))
      && (verdict == Waiting ==> sleeps == |script|)
      && (verdict == Back || verdict == Stopped ==>
            && 0 < sleeps <= |script| && RefusedFor(script, sleeps - 1)
            && (if verdict == Back then script[sleeps - 1].Accepted? else script[sleeps - 1].CalledOff?))
      && verdict != NotRunning
  {
    if s.maxAttempts > 0 && RefusedFor(script, s.maxAttempts) {
      RefusalsAtLeast(script, s.maxAttempts);
    }
    if RefusedFor(script, |script|) {
      RefusalsAtLeast(script, |script|);
    }
  }

  function Given(id: Option<string>): bool {
    id.Some? && id.value != ""
  }

  class SignalingClient {
    const settings: Settings
    var state: ConnectionState
    var shouldReconnect: bool
    var lastRoomId: Option<string>
    var lastPeerId: Option<string>
    var joins: seq<(string, string)>      // the JOIN frames sent so far
    var receiving: bool                   // a receive loop reads the present socket
    var looping: bool                     // the reconnect task has not finished

    constructor (settings: Settings)
      ensures this.settings == settings && state == Disconnected && !shouldReconnect
      ensures lastRoomId == None && lastPeerId == None && joins == [] && !receiving && !looping
    {
      this.settings := settings;
      state, shouldReconnect, lastRoomId, lastPeerId, joins := Disconnected, false, None, None, [];
      receiving, looping := false, false;
    }

    method ConnectOnce(works: bool) returns (ok: bool)
      modifies this`state, this`receiving
      ensures ok == works && state == (if works then Connected else Connecting) && receiving == works
    {
      state := Connecting;
      receiving := false;
      if works {
        state := Connected;
        receiving := true;
      }
      return works;
    }

    method Connect(works: bool) returns (ok: bool)
      modifies this`state, this`shouldReconnect, this`receiving
      ensures ok == works && shouldReconnect && receiving == works && state == if works then Connected else Failed
    {
      shouldReconnect := true;
      ok := ConnectOnce(works);
      if !ok {
        state := Failed;
      }
    }

    /** A frame that cannot be sent leaves the recorded identity alone; so does an empty identifier,
        which is refused only after the frame has gone out. */
    method Join(roomId: string, peerId: string, sendWorks: bool) returns (result: JoinResult)
      modifies this`joins, this`lastRoomId, this`lastPeerId
      ensures result == if !sendWorks then NotSent else if roomId == "" || peerId == "" then BadIdentity else Joined
      ensures joins == if result == NotSent then old(joins) else old(joins) + [(roomId, peerId)]
      ensures (lastRoomId, lastPeerId)
           == if result == Joined then (Some(roomId), Some(peerId)) else (old(lastRoomId), old(lastPeerId))
    {
      if !sendWorks {
        return NotSent;
      }
      joins := joins + [(roomId, peerId)];
      if roomId == "" || peerId == "" {
        return BadIdentity;
      }
      lastRoomId, lastPeerId := Some(roomId), Some(peerId);
      return Joined;
    }

    method Disconnect()
      modifies this
      ensures !shouldReconnect && state == Disconnected && joins == old(joins)
      ensures lastRoomId == None && lastPeerId == None && !receiving && !looping
    {
      shouldReconnect, receiving, looping := false, false, false;
      state, lastRoomId, lastPeerId := Disconnected, None, None;
    }

    /** The end of the receive loop: a wanted connection gets a reconnect task, unless one is unfinished. */
    method ReceiveEnds()
      modifies this`receiving, this`looping, this`state
      ensures !receiving && looping == (old(looping) || shouldReconnect)
      ensures state == if shouldReconnect || old(state) == Failed then old(state) else Disconnected
    {
      receiving := false;
      if shouldReconnect {
        looping := true;
      } else if state != Failed {
        state := Disconnected;
      }
    }

    /** The end of the loop after a connection: one JOIN with the recorded identity, if there is one; if
        the socket is dropped meanwhile, the loop is still unfinished then, and ends all the same. */
    method Restore(sendWorks: bool, drops: bool)
      requires looping && shouldReconnect && receiving
      modifies this`joins, this`lastRoomId, this`lastPeerId, this`receiving, this`looping, this`state
      ensures state == old(state) && !looping
      ensures (lastRoomId, lastPeerId) == (old(lastRoomId), old(lastPeerId))
      ensures receiving == !(drops && Given(lastRoomId) && Given(lastPeerId))
      ensures joins == if sendWorks && Given(lastRoomId) && Given(lastPeerId)
                       then old(joins) + [(lastRoomId.value, lastPeerId.value)] else old(joins)
    {
      if Given(lastRoomId) && Given(lastPeerId) {
        var _ := Join(lastRoomId.value, lastPeerId.value, sendWorks);
        if drops {
          ReceiveEnds();
        }
      }
      looping := false;
    }

    /** Follows the script: so many refusals, so many sleeps, then the verdict; a connection is
        followed by a JOIN with the recorded identity and by nothing else. */
    method ReconnectLoop(script: seq<Attempt>) returns (sleeps: seq<real>, verdict: Verdict)
      requires looping
      modifies this
      ensures !old(shouldReconnect) ==> verdict == NotRunning && sleeps == [] && state == old(state)
      ensures old(shouldReconnect) ==> (verdict, |sleeps|) == Course(settings, script)
      ensures forall k :: 0 <= k < |sleeps| ==> sleeps[k] == Sleep(settings, k)
      ensures verdict == GaveUp ==> state == Failed
      ensures verdict == Stopped ==> state == if script[|sleeps| - 1].dialing then Connecting else Reconnecting
      ensures verdict == Back ==> state == Connected
      ensures (lastRoomId, lastPeerId) == (old(lastRoomId), old(lastPeerId))
      ensures shouldReconnect == (old(shouldReconnect) && verdict != Stopped)
      ensures verdict in {Stopped, GaveUp} ==> !receiving && !looping
      ensures verdict == Back ==>
                !looping && receiving == !(script[|sleeps| - 1].drops && Given(lastRoomId) && Given(lastPeerId))
      ensures joins ==
              if verdict == Back && script[|sleeps| - 1].sendWorks && Given(lastRoomId) && Given(lastPeerId)
              then old(joins) + [(lastRoomId.value, lastPeerId.value)] else old(joins)
    {
      sleeps := [];
      var attempt, delay := 0, settings.baseDelay;
      while shouldReconnect && attempt < |script|
        invariant attempt == |sleeps| <= |script| && forall i :: 0 <= i < attempt ==> script[i] == Refused
        invariant forall k :: 0 <= k < |sleeps| ==> sleeps[k] == Sleep(settings, k)
        invariant delay == Sleep(settings, attempt)
        invariant settings.maxAttempts > 0 ==> attempt < settings.maxAttempts
        invariant shouldReconnect == old(shouldReconnect) && joins == old(joins)
        invariant looping
        invariant lastRoomId == old(lastRoomId) && lastPeerId == old(lastPeerId)
        invariant !shouldReconnect ==> state == old(state) && attempt == 0
        decreases |script| - attempt
      {
        RefusalsAtLeast(script, attempt);
        state := Reconnecting;
        sleeps := sleeps + [delay];
        if script[attempt].CalledOff? {
          if script[attempt].dialing {
            state := Connecting;
          }
          shouldReconnect, receiving, looping := false, false, false;
          return sleeps, Stopped;
        }
        var ok := ConnectOnce(script[attempt].Accepted?);
        if ok {
          Restore(script[attempt].sendWorks, script[attempt].drops);
          return sleeps, Back;
        }
        attempt := attempt + 1;
        RefusalsAtLeast(script, attempt);
        if settings.maxAttempts > 0 && attempt >= settings.maxAttempts {
          state, looping := Failed, false;
          return sleeps, GaveUp;
        }
        delay := Min(Grow(settings)(delay), settings.maxDelay);
      }
      RefusalsAtLeast(script, attempt);
      looping := shouldReconnect;
      return sleeps, if shouldReconnect then Waiting else NotRunning;
    }
  }
}
