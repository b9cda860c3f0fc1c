/**
 Who looks after the client's connection in app/net/signaling_client.py: the receive loop of the present
 socket and the reconnect loop, as a state machine over the points where either of them is suspended.
 */
module Supervision {
  import opened ClientView

  /** Where the reconnect task stands; `Off` when there is none or it has finished. */
  datatype Loop = Off | Asleep(refused: nat) | Dialing(refused: nat) | Rejoining

  /** `wanted` is the client's wish to be reconnected, `receiving` says that a receive loop is reading. */
  datatype Line = Line(wanted: bool, receiving: bool, state: ConnectionState, loop: Loop, identified: bool)

  const UNUSED := Line(false, false, Disconnected, Off, false)

  datatype Step =
    | Connect(works: bool)      // the first connection of a session
    | Identify                  // a JOIN that was sent and recorded
    | Drop                      // the receive loop ends by itself
    | Wake                      // the backoff sleep is over
    | Dialed(works: bool)       // the attempt to connect is over
    | Rejoined                  // the re-JOIN is sent, or could not be
    | Disconnect

  predicate Enabled(l: Line, step: Step) {
    match step
    case Connect(_) => !l.receiving && l.loop.Off?
    case Identify => l.receiving
    case Drop => l.receiving
    case Wake => l.loop.Asleep?
    case Dialed(_) => l.loop.Dialing?
    case Rejoined => l.loop.Rejoining?
    case Disconnect => true
  }

  /** A loop is only started if there is none. */
  function Scheduled(l: Line): Line {
    if l.loop.Off? then l.(loop := Asleep(0), state := Reconnecting) else l
  }

  /** `maxAttempts` is the limit on refusals, none when 0. */
  function Next(maxAttempts: nat, l: Line, step: Step): Line
    requires Enabled(l, step)
  {
    match step
    case Connect(works) => l.(wanted := true, receiving := works, state := if works then Connected else Failed)
    case Identify => l.(identified := true)
    case Drop =>
      var ended := l.(receiving := false);
      if l.wanted then Scheduled(ended)
      else if l.state != Failed then ended.(state := Disconnected)
      else ended
    case Wake => if l.wanted then l.(loop := Dialing(l.loop.refused), state := Connecting) else l.(loop := Off)
    case Dialed(works) =>
      var refused := l.loop.refused + 1;
      if works then l.(receiving := true, state := Connected, loop := if l.identified then Rejoining else Off)
      else if maxAttempts > 0 && refused >= maxAttempts then l.(state := Failed, loop := Off)
      else l.(state := Reconnecting, loop := Asleep(refused))
    case Rejoined => l.(loop := Off)
    case Disconnect => UNUSED
  }

  predicate IsRun(maxAttempts: nat, steps: seq<Step>)
    decreases |steps|, 0
  {
    steps == []
    || (IsRun(maxAttempts, steps[..|steps| - 1])
        && Enabled(After(maxAttempts, steps[..|steps| - 1]), steps[|steps| - 1]))
  }

  /** The line after a run from the beginning. */
  function After(maxAttempts: nat, steps: seq<Step>): Line
    requires IsRun(maxAttempts, steps)
    decreases |steps|, 1
  {
    if steps == [] then UNUSED
    else Next(maxAttempts, After(maxAttempts, steps[..|steps| - 1]), steps[|steps| - 1])
  }

  /** The attempts refused since the loop was started. */
  function RefusedSince(steps: seq<Step>): nat {
    if steps == [] then 0
    else
      match steps[|steps| - 1]
      case Drop => 0
      case Dialed(works) => RefusedSince(steps[..|steps| - 1]) + if works then 0 else 1
      case _ => RefusedSince(steps[..|steps| - 1])
  }

  /** The loop knows how often it was refused. */
  lemma {:induction false} LoopCounts(maxAttempts: nat, steps: seq<Step>)
    requires IsRun(maxAttempts, steps)
    ensures var loop := After(maxAttempts, steps).loop;
      loop.Asleep? || loop.Dialing? ==> loop.refused == RefusedSince(steps)
  {
    if steps != [] {
      LoopCounts(maxAttempts, steps[..|steps| - 1]);
      AlwaysOrderly(maxAttempts, steps[..|steps| - 1]);
    }
  }

  /** A refused attempt is followed by another one, unless it uses up a positive limit. */
  lemma RetriesIff(maxAttempts: nat, steps: seq<Step>)
    requires IsRun(maxAttempts, steps) && steps != [] && steps[|steps| - 1] == Dialed(false)
    ensures var l := After(maxAttempts, steps);
      && (l.loop.Asleep? <==> maxAttempts == 0 || RefusedSince(steps) < maxAttempts)
      && (l.loop.Asleep? || (l.loop.Off? && l.state == Failed))
  {
    LoopCounts(maxAttempts, steps[..|steps| - 1]);
  }

  /** A wanted connection is being read, is being restored, or has been reported as failed. */
  predicate Tended(l: Line) {
    l.wanted ==> l.receiving || !l.loop.Off? || l.state == Failed
  }

  /** A loop runs only while wanted, at most one of the two loops is at work except during the re-JOIN,
      and the re-JOIN reports a connection. */
  predicate Orderly(l: Line) {
    && (!l.loop.Off? ==> l.wanted)
    && (l.loop.Asleep? || l.loop.Dialing? ==> !l.receiving)
    && (l.loop.Rejoining? || l.receiving ==> l.state == Connected)
  }

  lemma {:induction false} AlwaysOrderly(maxAttempts: nat, steps: seq<Step>)
    requires IsRun(maxAttempts, steps)
    ensures Orderly(After(maxAttempts, steps))
  {
    if steps != [] {
      AlwaysOrderly(maxAttempts, steps[..|steps| - 1]);
    }
  }

  lemma {:induction false} RunPrefix(maxAttempts: nat, steps: seq<Step>, n: nat)
    requires IsRun(maxAttempts, steps) && n <= |steps|
    ensures IsRun(maxAttempts, steps[..n])
    decreases |steps|
  {
    if n < |steps| {
      RunPrefix(maxAttempts, steps[..|steps| - 1], n);
      assert steps[..|steps| - 1][..n] == steps[..n];
    } else {
      assert steps[..n] == steps;
    }
  }

  lemma RunStep(maxAttempts: nat, steps: seq<Step>, n: nat)
    requires IsRun(maxAttempts, steps) && n < |steps|
    ensures IsRun(maxAttempts, steps[..n]) && IsRun(maxAttempts, steps[..n + 1])
    ensures Enabled(After(maxAttempts, steps[..n]), steps[n])
    ensures After(maxAttempts, steps[..n + 1]) == Next(maxAttempts, After(maxAttempts, steps[..n]), steps[n])
  {
    RunPrefix(maxAttempts, steps, n);
    RunPrefix(maxAttempts, steps, n + 1);
    assert steps[..n + 1][..n] == steps[..n];
  }

  predicate TendedAfter(maxAttempts: nat, steps: seq<Step>, n: nat)
    requires n <= |steps|
  {
    IsRun(maxAttempts, steps[..n]) && Tended(After(maxAttempts, steps[..n]))
  }

  ghost predicate AlwaysTended(maxAttempts: nat, steps: seq<Step>) {
    forall n :: 0 <= n <= |steps| ==> TendedAfter(maxAttempts, steps, n)
  }

  /** The re-JOIN ends at step `n`, with its socket already dropped. */
  predicate DroppedMeanwhile(maxAttempts: nat, steps: seq<Step>, n: nat)
    requires n < |steps|
  {
    steps[n] == Rejoined && IsRun(maxAttempts, steps[..n]) && !After(maxAttempts, steps[..n]).receiving
  }

  ghost predicate NeverDroppedMeanwhile(maxAttempts: nat, steps: seq<Step>) {
    forall n :: 0 <= n < |steps| ==> !DroppedMeanwhile(maxAttempts, steps, n)
  }

  /** Only the end of a re-JOIN on a dropped socket leaves a wanted connection to nobody, and it always
      does: the drop found the loop unfinished, and the loop does not look again. */
  lemma StepTendedIff(maxAttempts: nat, l: Line, step: Step)
    requires Orderly(l) && Tended(l) && Enabled(l, step)
    ensures Tended(Next(maxAttempts, l, step)) <==> !(step == Rejoined && !l.receiving)
    ensures step == Rejoined && !l.receiving ==> Next(maxAttempts, l, step).state == Connected
  {
  }

  lemma {:induction false} TendedSoFar(maxAttempts: nat, steps: seq<Step>, n: nat)
    requires IsRun(maxAttempts, steps) && NeverDroppedMeanwhile(maxAttempts, steps) && n <= |steps|
    ensures TendedAfter(maxAttempts, steps, n)
  {
    if n > 0 {
      var m: nat := n - 1;
      TendedSoFar(maxAttempts, steps, m);
      RunStep(maxAttempts, steps, m);
      AlwaysOrderly(maxAttempts, steps[..m]);
      assert !DroppedMeanwhile(maxAttempts, steps, m);
      StepTendedIff(maxAttempts, After(maxAttempts, steps[..m]), steps[m]);
    }
  }

  /** Throughout a run a wanted connection is tended if and only if no socket was dropped during a
      re-JOIN on it that then ended. */
  lemma AlwaysTendedIff(maxAttempts: nat, steps: seq<Step>)
    requires IsRun(maxAttempts, steps)
    ensures AlwaysTended(maxAttempts, steps) <==> NeverDroppedMeanwhile(maxAttempts, steps)
  {
    if NeverDroppedMeanwhile(maxAttempts, steps) {
      forall n | 0 <= n <= |steps|
        ensures TendedAfter(maxAttempts, steps, n)
      {
        TendedSoFar(maxAttempts, steps, n);
      }
    }
    if AlwaysTended(maxAttempts, steps) {
      forall n | 0 <= n < |steps|
        ensures !DroppedMeanwhile(maxAttempts, steps, n)
      {
        assert TendedAfter(maxAttempts, steps, n) && TendedAfter(maxAttempts, steps, n + 1);
        RunStep(maxAttempts, steps, n);
        AlwaysOrderly(maxAttempts, steps[..n]);
        StepTendedIff(maxAttempts, After(maxAttempts, steps[..n]), steps[n]);
      }
    }
  }

  const LOST := [Connect(true), Identify, Drop, Wake, Dialed(true), Drop, Rejoined]

  /** One such run: reported as connected, wanted, and nobody reads or restores. */
  lemma DropDuringRejoin(maxAttempts: nat)
    ensures IsRun(maxAttempts, LOST) && After(maxAttempts, LOST) == Line(true, false, Connected, Off, true)
    ensures !AlwaysTended(maxAttempts, LOST)
  {
    var up := [] + [Connect(true)] + [Identify];
    Extend(maxAttempts, [], Connect(true));
    Extend(maxAttempts, [] + [Connect(true)], Identify);
    Extend(maxAttempts, up, Drop);
    Extend(maxAttempts, up + [Drop], Wake);
    Extend(maxAttempts, up + [Drop] + [Wake], Dialed(true));
    Extend(maxAttempts, up + [Drop] + [Wake] + [Dialed(true)], Drop);
    Extend(maxAttempts, up + [Drop] + [Wake] + [Dialed(true)] + [Drop], Rejoined);
    assert LOST == up + [Drop] + [Wake] + [Dialed(true)] + [Drop] + [Rejoined];
    assert LOST[..7] == LOST;
    assert !TendedAfter(maxAttempts, LOST, 7);
  }

  lemma Extend(maxAttempts: nat, steps: seq<Step>, last: Step)
    requires IsRun(maxAttempts, steps) && Enabled(After(maxAttempts, steps), last)
    ensures IsRun(maxAttempts, steps + [last])
    ensures After(maxAttempts, steps + [last]) == Next(maxAttempts, After(maxAttempts, steps), last)
  {
    assert (steps + [last])[..|steps|] == steps;
  }
}
