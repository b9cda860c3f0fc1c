/**
 The server of `Membership` with its broadcasts waiting as in `Broadcasts`: what clients read, over every
 interleaving of handlers and of broadcasts going out.
 */
module Delivery {
  import opened Wrappers
  import opened Protocol
  import opened ClientView
  import opened Membership
  import opened MembershipProofs
  import opened Broadcasts

  datatype Net = Net(s: State, q: Queue)

  const START := Net(INITIAL, Queue(map[], []))

  datatype Event = Do(step: Step) | Deliver

  /** The step vacates its connection's seat, which it has to announce. */
  predicate Leaves(s: State, step: Step)
    requires Enabled(s, step)
  {
    match step
    case JoinRequest(c, roomId, peerId) => roomId != "" && peerId != "" && s.conns[c].roomId.Some?
    case LeaveRequest(c, _, _) => s.conns[c].roomId.Some?
    case Hangup(c) => s.conns[c].roomId.Some?
    case _ => false
  }

  /** Whom a step broadcasts to, and what. */
  function Broadcast(s: State, step: Step): (set<ConnId>, Envelope)
    requires Enabled(s, step)
  {
    if step.Announce? then
      var k := s.conns[step.c];
      (if k.phase.room in s.rooms then Targets(s.rooms[k.phase.room], k.peerId) else {}, PeerJoined(k.peerId))
    else if Leaves(s, step) && Placed(s, step.c) then
      var k := s.conns[step.c];
      (Targets(s.rooms[s.registered[k.roomId.value]], k.peerId), PeerLeft(k.peerId))
    else ({}, Notice(""))
  }

  predicate CanHappen(n: Net, e: Event) {
    match e
    case Deliver => n.q.tasks != []
    case Do(step) =>
      Enabled(n.s, step) && Polite(n.s, step) && (step.Connect? || step.Close? || !Waiting(n.q.tasks, step.c))
  }

  function Happens(n: Net, e: Event): Net
    requires CanHappen(n, e)
  {
    match e
    case Deliver => Net(n.s, SendOldest(n.s.conns, n.q))
    case Do(step) => Net(Next(n.s, step), Advance(n.s.conns, n.q, MoveOf(n.s, step)))
  }

  // ---------- the steps as moves ----------

  lemma NothingAdded(s: State, t: State, c: ConnId, d: ConnId)
    requires d in s.conns && d in t.conns && t.conns[d].outbox == s.conns[d].outbox
    requires t.conns[d].open ==> s.conns[d].open
    requires d != c ==> t.conns[d] == s.conns[d]
    ensures TouchedDirectly(s.conns, t.conns, c, d)
  {
    assert s.conns[d].outbox + [] == s.conns[d].outbox;
    assert Touched(s.conns, t.conns, c, d, []);
  }

  lemma OneAdded(s: State, t: State, c: ConnId, d: ConnId, e: Envelope)
    requires d in s.conns && d in t.conns && Direct(e) && PeersFit(s.conns, c, d, [e])
    requires t.conns[d].open == s.conns[d].open && (d != c ==> SameSeat(s.conns[d], t.conns[d]))
    requires t.conns[d].outbox == if s.conns[d].open then s.conns[d].outbox + [e] else s.conns[d].outbox
    ensures TouchedDirectly(s.conns, t.conns, c, d)
  {
    assert Touched(s.conns, t.conns, c, d, [e]);
  }

  lemma JoinTouches(s: State, c: ConnId, roomId: string, peerId: string, d: ConnId)
    requires Seats(s) && c in s.conns && d in s.conns && !Seated(s.conns[c])
    ensures TouchedDirectly(s.conns, BeginJoin(s, c, roomId, peerId).conns, c, d)
  {
    var t, u := BeginJoin(s, c, roomId, peerId), LookupRoom(s, roomId);
    var ref := u.registered[roomId];
    if d == c && ref in u.rooms {
      forall q | q in u.rooms[ref]
        ensures HasSeat(s.conns, q)
      {
        assert Owned(s, ref, q);
      }
      OneAdded(s, t, c, d, Peers(OthersIn(u.rooms[ref], peerId)));
    } else {
      NothingAdded(s, t, c, d);
    }
  }

  lemma LeaveTouches(s: State, c: ConnId, resume: Resume, d: ConnId)
    requires c in s.conns && Placed(s, c) && d in s.conns
    ensures var k := s.conns[c];
      Touched(s.conns, LeaveOwn(s, c, resume).conns, c, d,
              if d in Targets(s.rooms[s.registered[k.roomId.value]], k.peerId) then [PeerLeft(k.peerId)] else [])
  {
    TargetsRemoved(s.rooms[s.registered[s.conns[c].roomId.value]], s.conns[c].peerId);
  }

  lemma AnnounceTouches(s: State, c: ConnId, d: ConnId)
    requires Enabled(s, Announce(c)) && d in s.conns
    ensures var (targets, frame) := Broadcast(s, Announce(c));
      Touched(s.conns, Next(s, Announce(c)).conns, c, d, if d in targets then [frame] else [])
  {
  }

  lemma NoticeTouches(s: State, c: ConnId, code: string, d: ConnId)
    requires c in s.conns && d in s.conns
    ensures TouchedDirectly(s.conns, s.conns[c := Receives(s.conns[c], Notice(code))], c, d)
  {
    var t := s.(conns := s.conns[c := Receives(s.conns[c], Notice(code))]);
    if d == c {
      OneAdded(s, t, c, d, Notice(code));
    } else {
      NothingAdded(s, t, c, d);
    }
  }

  lemma RelayTouches(s: State, c: ConnId, frame: Payload, d: ConnId)
    requires c in s.conns && d in s.conns
    ensures TouchedDirectly(s.conns, RelayFrame(s, c, frame).conns, c, d)
  {
    var k, t := s.conns[c], RelayFrame(s, c, frame);
    NoticeTouches(s, c, "NOT_JOINED", d);
    NoticeTouches(s, c, "MISSING_FIELD", d);
    NoticeTouches(s, c, "ROOM_NOT_FOUND", d);
    NoticeTouches(s, c, "PEER_NOT_FOUND", d);
    if k.roomId.Some? && Relayable(frame) && k.roomId.value in s.registered && s.registered[k.roomId.value] in s.rooms {
      var m, to := s.rooms[s.registered[k.roomId.value]], frame[TO].text;
      if to in m && m[to] in s.conns && s.conns[m[to]].open {
        if d == m[to] {
          OneAdded(s, t, c, d, Relayed(RelayedWire(frame, k.peerId, to)));
        } else {
          NothingAdded(s, t, c, d);
        }
      }
    }
  }

  lemma ResumeTouches(u: State, c: ConnId, resume: Resume, d: ConnId)
    requires Seats(u) && c in u.conns && d in u.conns && !Seated(u.conns[c])
    ensures TouchedDirectly(u.conns, FinishLeave(u, c, resume).conns, c, d)
  {
    if resume.ThenJoin? {
      JoinTouches(u, c, resume.roomId, resume.peerId, d);
    } else {
      NothingAdded(u, FinishLeave(u, c, resume), c, d);
    }
  }

  lemma RecheckTouches(s: State, c: ConnId, d: ConnId)
    requires Structure(s) && Enabled(s, Recheck(c)) && d in s.conns
    ensures TouchedDirectly(s.conns, Next(s, Recheck(c)).conns, c, d)
  {
    var p := s.conns[c].phase;
    var u := CollectIfEmpty(s, p.room, p.leftRoom);
    CollectSeats(s, c);
    ResumeTouches(u, c, p.resume, d);
  }

  /** A step as a move of its handler. */
  function MoveOf(s: State, step: Step): Move
    requires Enabled(s, step)
  {
    var (targets, frame) := Broadcast(s, step);
    Move(step.c, Next(s, step).conns, targets, frame)
  }

  /** The step is a broadcast and touches `d` by that, or it adds at most one direct frame. */
  lemma StepTells(s: State, step: Step, d: ConnId)
    requires Structure(s) && Enabled(s, step) && Polite(s, step) && d in s.conns
    ensures Told(s.conns, MoveOf(s, step), d)
  {
    var t := Next(s, step);
    if Leaves(s, step) {
      var resume := if step.JoinRequest? then ThenJoin(step.roomId, step.peerId)
                    else if step.LeaveRequest? then ThenForget else ThenDone;
      assert Placed(s, step.c) && t == LeaveOwn(s, step.c, resume);
      LeaveTouches(s, step.c, resume, d);
      assert AtMostDirect([]);
    } else {
      match step
      case Announce(c) =>
        AnnounceTouches(s, c, d);
        assert AtMostDirect([]);
      case JoinRequest(c, roomId, peerId) =>
        if roomId == "" || peerId == "" {
          NoticeTouches(s, c, "MISSING_FIELD", d);
        } else {
          JoinTouches(s, c, roomId, peerId, d);
        }
      case LeaveRequest(c, _, _) => NoticeTouches(s, c, "NOT_JOINED", d);
      case Recheck(c) => RecheckTouches(s, c, d);
      case RelayRequest(c, payload) => RelayTouches(s, c, payload, d);
      case _ => NothingAdded(s, t, step.c, d);
    }
  }

  /** A seated connection that does not leave keeps its seat. */
  lemma StaysSeated(s: State, step: Step)
    requires Enabled(s, step) && step.c in s.conns && Seated(s.conns[step.c]) && !Leaves(s, step)
    ensures step.c in Next(s, step).conns
    ensures var k, l := s.conns[step.c], Next(s, step).conns[step.c];
      Seated(l) && l.roomId == k.roomId && l.peerId == k.peerId
  {
  }

  lemma LeaverIsLeaving(s: State, step: Step)
    requires Structure(s) && Enabled(s, step) && Polite(s, step) && Leaves(s, step)
    ensures Placed(s, step.c) && step.c in Next(s, step).conns
    ensures var k, l := s.conns[step.c], Next(s, step).conns[step.c]; l.phase.Leaving? && l.peerId == k.peerId
  {
    assert Placed(s, step.c);
  }

  /** A fellow of the one who leaves is told. */
  lemma FellowIsTold(s: State, step: Step, d: ConnId)
    requires Structure(s) && Enabled(s, step) && Polite(s, step) && Leaves(s, step)
    requires d in s.conns && d != step.c && InRoomWith(s.conns, step.c, d) && Seated(s.conns[d])
    ensures d in Broadcast(s, step).0
  {
    var k := s.conns[step.c];
    assert Placed(s, step.c) && Placed(s, d);
    TargetsAreMembers(s, s.registered[k.roomId.value], k.peerId, d);
  }

  /** A broadcast goes to fellows, and comes from a connection with a place. */
  lemma TargetsAreFellows(s: State, step: Step, d: ConnId)
    requires Structure(s) && Enabled(s, step) && d in Broadcast(s, step).0
    ensures step.c in s.conns && Placed(s, step.c)
    ensures Owned(s, s.registered[s.conns[step.c].roomId.value], s.conns[step.c].peerId)
    ensures d in s.conns && d != step.c && InRoomWith(s.conns, d, step.c)
  {
    var c := step.c;
    assert Placed(s, c);
    var home := s.registered[s.conns[c].roomId.value];
    assert Owned(s, home, s.conns[c].peerId);
    var p :| p in s.rooms[home] && p != s.conns[c].peerId && s.rooms[home][p] == d;
    assert Owned(s, home, p);
    TargetsAreMembers(s, home, s.conns[c].peerId, d);
  }

  /** Every step is a proper move of its handler. */
  lemma StepIsProper(s: State, step: Step)
    requires Structure(s) && Enabled(s, step) && Polite(s, step)
    ensures Proper(s.conns, MoveOf(s, step))
  {
    var mv := MoveOf(s, step);
    forall d | d in s.conns
      ensures Told(s.conns, mv, d)
    {
      StepTells(s, step, d);
    }
    forall d | d in mv.after && d !in s.conns
      ensures mv.after[d].outbox == []
    {
      OnlyConnectAdds(s, step, d);
    }
    if mv.targets != {} {
      StepAnnounces(s, step);
    }
    if mv.c in s.conns && Seated(s.conns[mv.c]) {
      StepStaysOrTells(s, step);
    }
  }

  lemma StepAnnounces(s: State, step: Step)
    requires Structure(s) && Enabled(s, step) && Polite(s, step) && Broadcast(s, step).0 != {}
    ensures Announces(s.conns, MoveOf(s, step))
  {
    forall d | d in Broadcast(s, step).0
      ensures step.c in s.conns && d != step.c && InRoomWith(s.conns, d, step.c)
      ensures s.conns[step.c].peerId != ""
    {
      TargetsAreFellows(s, step, d);
    }
    if Leaves(s, step) {
      LeaverIsLeaving(s, step);
    }
  }

  lemma StepStaysOrTells(s: State, step: Step)
    requires Structure(s) && Enabled(s, step) && Polite(s, step) && step.c in s.conns && Seated(s.conns[step.c])
    ensures StaysOrTells(s.conns, MoveOf(s, step))
  {
    if Leaves(s, step) {
      LeaverIsLeaving(s, step);
      forall d | d in s.conns && d != step.c && Seated(s.conns[d]) && s.conns[d].roomId == s.conns[step.c].roomId
        ensures d in Broadcast(s, step).0
      {
        FellowIsTold(s, step, d);
      }
    } else {
      StaysSeated(s, step);
    }
  }

  lemma StepIsFree(n: Net, step: Step)
    requires CanHappen(n, Do(step))
    ensures Free(n.s.conns, n.q, MoveOf(n.s, step))
  {
  }

  // ---------- whole runs ----------

  predicate IsRun(events: seq<Event>)
    decreases |events|, 0
  {
    events == []
    || (IsRun(events[..|events| - 1]) && CanHappen(NetAfter(events[..|events| - 1]), events[|events| - 1]))
  }

  function NetAfter(events: seq<Event>): Net
    requires IsRun(events)
    decreases |events|, 1
  {
    if events == [] then START else Happens(NetAfter(events[..|events| - 1]), events[|events| - 1])
  }

  /** In every run the server's state keeps its invariant and the waiting broadcasts are apt. */
  ghost predicate Good(known: set<string>, n: Net) {
    Inv(known, n.s) && AllApt(n.s.conns, n.q.tasks)
  }

  lemma EventKeepsGood(known: set<string>, n: Net, e: Event)
    requires Good(known, n) && CanHappen(n, e)
    ensures Good(known, Happens(n, e))
  {
    match e
    case Deliver => SendingKeepsApt(n.s.conns, n.q);
    case Do(step) =>
      NextKeeps(known, n.s, step);
      StepIsProper(n.s, step);
      StepIsFree(n, step);
      AdvanceKeepsApt(n.s.conns, n.q, MoveOf(n.s, step));
  }

  lemma {:induction false} RunKeepsGood(known: set<string>, events: seq<Event>)
    requires IsRun(events)
    ensures Good(known, NetAfter(events))
    decreases |events|
  {
    if events != [] {
      RunKeepsGood(known, events[..|events| - 1]);
      EventKeepsGood(known, NetAfter(events[..|events| - 1]), events[|events| - 1]);
    }
  }

  lemma {:induction false} IsRunPrefix(events: seq<Event>, i: nat)
    requires IsRun(events) && i <= |events|
    ensures IsRun(events[..i])
    decreases |events|
  {
    if i < |events| {
      IsRunPrefix(events[..|events| - 1], i);
      assert events[..|events| - 1][..i] == events[..i];
    } else {
      assert events[..i] == events;
    }
  }

  lemma RunLast(before: seq<Event>, e: Event)
    requires IsRun(before + [e])
    ensures IsRun(before) && CanHappen(NetAfter(before), e)
    ensures NetAfter(before + [e]) == Happens(NetAfter(before), e)
  {
    assert (before + [e])[..|before|] == before;
  }

  lemma PrefixGrows(events: seq<Event>, i: nat)
    requires i < |events|
    ensures events[..i + 1] == events[..i] + [events[i]]
  {
  }

  lemma RunEvent(events: seq<Event>, i: nat)
    requires IsRun(events) && i < |events|
    ensures IsRun(events[..i]) && IsRun(events[..i + 1]) && CanHappen(NetAfter(events[..i]), events[i])
    ensures NetAfter(events[..i + 1]) == Happens(NetAfter(events[..i]), events[i])
  {
    IsRunPrefix(events, i + 1);
    PrefixGrows(events, i);
    RunLast(events[..i], events[i]);
  }

  /** The event is no PEERS frame that overtakes a departure it does not know of. */
  predicate DiscreetEvent(n: Net, e: Event)
    requires CanHappen(n, e)
  {
    e.Do? ==> Discreet(n.s.conns, n.q, MoveOf(n.s, e.step))
  }

  predicate DiscreetAt(events: seq<Event>, i: nat)
    requires i < |events|
  {
    IsRun(events[..i]) && CanHappen(NetAfter(events[..i]), events[i]) && DiscreetEvent(NetAfter(events[..i]), events[i])
  }

  predicate AllDiscreet(events: seq<Event>) {
    forall i :: 0 <= i < |events| ==> DiscreetAt(events, i)
  }

  ghost predicate InSync(known: set<string>, n: Net) {
    Synced(known, n.s.conns, n.q)
  }

  /** An event keeps the wire in step exactly when it is discreet. */
  lemma EventSyncsIff(known: set<string>, n: Net, e: Event)
    requires Good(known, n) && InSync(known, n) && CanHappen(n, e)
    ensures InSync(known, Happens(n, e)) <==> DiscreetEvent(n, e)
  {
    match e
    case Deliver => SendingKeepsSynced(known, n.s.conns, n.q);
    case Do(step) =>
      var mv := MoveOf(n.s, step);
      StepIsProper(n.s, step);
      StepIsFree(n, step);
      if Discreet(n.s.conns, n.q, mv) {
        AdvanceKeepsSynced(known, n.s.conns, n.q, mv);
      } else {
        IndiscreetUnsynced(known, n.s.conns, n.q, mv);
      }
  }

  ghost predicate SyncedAfter(known: set<string>, events: seq<Event>, i: nat)
    requires i <= |events|
  {
    IsRun(events[..i]) && InSync(known, NetAfter(events[..i]))
  }

  ghost predicate AlwaysSynced(known: set<string>, events: seq<Event>) {
    forall i :: 0 <= i <= |events| ==> SyncedAfter(known, events, i)
  }

  /** From one point of a run to the next. */
  lemma NextSyncedIff(known: set<string>, events: seq<Event>, i: nat)
    requires IsRun(events) && i < |events| && SyncedAfter(known, events, i)
    ensures SyncedAfter(known, events, i + 1) <==> DiscreetAt(events, i)
  {
    RunEvent(events, i);
    RunKeepsGood(known, events[..i]);
    EventSyncsIff(known, NetAfter(events[..i]), events[i]);
  }

  lemma {:induction false} DiscreetSynced(known: set<string>, events: seq<Event>, i: nat)
    requires IsRun(events) && AllDiscreet(events) && i <= |events|
    ensures SyncedAfter(known, events, i)
  {
    if i > 0 {
      DiscreetSynced(known, events, i - 1);
      NextSyncedIff(known, events, i - 1);
      assert DiscreetAt(events, i - 1);
    }
  }

  /** However the events interleave: the wire and the server's order of frames tell every open connection
      the same, throughout a run, if and only if no PEERS frame of it names somebody whose departure is
      still to reach the connection that gets it. */
  lemma AlwaysSyncedIff(known: set<string>, events: seq<Event>)
    requires IsRun(events)
    ensures AlwaysSynced(known, events) <==> AllDiscreet(events)
  {
    if AllDiscreet(events) {
      forall i | 0 <= i <= |events|
        ensures SyncedAfter(known, events, i)
      {
        DiscreetSynced(known, events, i);
      }
    }
    if AlwaysSynced(known, events) {
      forall i | 0 <= i < |events|
        ensures DiscreetAt(events, i)
      {
        assert SyncedAfter(known, events, i) && SyncedAfter(known, events, i + 1);
        NextSyncedIff(known, events, i);
      }
    }
  }

  /** On the wire too: what a client will have read holds no stranger and lacks only arrivals that no
      handler has announced; with nothing under way, what it has read is its room. */
  lemma WireConverges(known: set<string>, events: seq<Event>, d: ConnId)
    requires IsRun(events) && AllDiscreet(events)
    requires var s := NetAfter(events).s; d in s.conns && s.conns[d].open && Seated(s.conns[d])
    ensures RightOnWire(known, NetAfter(events), d)
  {
    var n := NetAfter(events);
    assert events[..|events|] == events;
    DiscreetSynced(known, events, |events|);
    RunKeepsGood(known, events);
    RightWhenSynced(known, n, d);
  }

  ghost predicate RightOnWire(known: set<string>, n: Net, d: ConnId) {
    && d in n.q.wire && d in n.s.conns && Placed(n.s, d)
    && WillKnow(known, n.q, d) <= Fellows(n.s, d)
    && (forall p :: p in Fellows(n.s, d) && p !in WillKnow(known, n.q, d) ==> Unannounced(n.s, d, p))
    && (Quiet(n.s) && n.q.tasks == [] ==> View(known, n.q.wire[d]) == Fellows(n.s, d))
  }

  lemma RightWhenSynced(known: set<string>, n: Net, d: ConnId)
    requires Inv(known, n.s) && InSync(known, n) && d in n.s.conns && n.s.conns[d].open && Seated(n.s.conns[d])
    ensures RightOnWire(known, n, d)
  {
    assert Placed(n.s, d) && ViewRight(known, n.s, d);
    assert SyncedAt(known, n.s.conns, n.q, d);
    if Quiet(n.s) && n.q.tasks == [] {
      assert n.q.wire[d] + [] == n.q.wire[d];
      var m := n.s.rooms[n.s.registered[n.s.conns[d].roomId.value]];
      forall p | p in Fellows(n.s, d)
        ensures p in WillKnow(known, n.q, d)
      {
        assert m[p] in n.s.conns ==> !n.s.conns[m[p]].phase.Joining?;
      }
    }
  }

  /** With ids of their own for all connections every run is discreet. */
  lemma UnsharedRunIsDiscreet(events: seq<Event>)
    requires IsRun(events)
    requires forall i :: 0 <= i < |events| ==> IsRun(events[..i]) && NoSharedName(NetAfter(events[..i]).s.conns)
    ensures AllDiscreet(events)
  {
    forall i | 0 <= i < |events|
      ensures DiscreetAt(events, i)
    {
      RunEvent(events, i);
      RunKeepsGood({}, events[..i]);
      var n := NetAfter(events[..i]);
      if events[i].Do? {
        StepIsProper(n.s, events[i].step);
        UnsharedIsDiscreet(n.s.conns, n.q, MoveOf(n.s, events[i].step));
      }
    }
  }

  // ---------- how it goes wrong ----------

  /** `c` and `d` are alone in a room, `e` goes by c's id in another one, and nothing is under way. */
  predicate TwoAndADouble(n: Net, c: ConnId, d: ConnId, e: ConnId) {
    && n.q.tasks == [] && c != d && {c, d, e} <= n.s.conns.Keys && n.s.conns[d].open
    && (forall x :: x in {c, d, e} ==> n.s.conns[x].phase.Idle? && Placed(n.s, x))
    && n.s.conns[d].roomId == n.s.conns[c].roomId && Fellows(n.s, d) == {n.s.conns[c].peerId}
    && n.s.conns[e].roomId != n.s.conns[c].roomId && n.s.conns[e].peerId == n.s.conns[c].peerId
    && n.s.conns[e].roomId != Some("") && Unused(n.s, n.s.conns[e].roomId.value, n.s.conns[d].peerId)
  }

  /** The others after `c` has gone and the news waits for `d`. */
  lemma FirstGoes(n: Net, c: ConnId, d: ConnId, e: ConnId)
    requires Structure(n.s) && TwoAndADouble(n, c, d, e)
    ensures CanHappen(n, Do(LeaveRequest(c, "", "")))
    ensures var m, home := Happens(n, Do(LeaveRequest(c, "", ""))), n.s.registered[n.s.conns[c].roomId.value];
      && m.q.tasks == [Batch(c, {d}, PeerLeft(n.s.conns[c].peerId))]
      && m.s.registered == n.s.registered
      && m.s.rooms == n.s.rooms[home := map[n.s.conns[d].peerId := d]]
      && d in m.s.conns && SameSeat(n.s.conns[d], m.s.conns[d]) && m.s.conns[d].open
  {
    var k, l := n.s.conns[c], n.s.conns[d];
    var home := n.s.registered[k.roomId.value];
    var room := n.s.rooms[home];
    assert room.Keys == {k.peerId, l.peerId};
    assert RemoveMember(room, k.peerId) == map[l.peerId := d];
    assert Targets(room, k.peerId) == {d} by {
      assert l.peerId in room && room[l.peerId] == d;
    }
    StepTells(n.s, LeaveRequest(c, "", ""), d);
  }

  /** Then `d`, alone in its room, asks for another: it is told to nobody and the news still waits. */
  lemma SecondGoes(n: Net, d: ConnId, q: string, home: RoomRef)
    requires d in n.s.conns && n.s.conns[d].phase.Idle? && Placed(n.s, d) && !Waiting(n.q.tasks, d)
    requires home == n.s.registered[n.s.conns[d].roomId.value] && q != "" && n.s.conns[d].peerId != ""
    requires n.s.rooms[home] == map[n.s.conns[d].peerId := d]
    ensures CanHappen(n, Do(JoinRequest(d, q, n.s.conns[d].peerId)))
    ensures var k, m := n.s.conns[d], Happens(n, Do(JoinRequest(d, q, n.s.conns[d].peerId)));
      && m.q.tasks == n.q.tasks && m.s.registered == n.s.registered && m.s.rooms == n.s.rooms[home := map[]]
      && d in m.s.conns && m.s.conns[d].open == k.open && m.s.conns[d].roomId == k.roomId
      && m.s.conns[d].phase == Leaving(home, k.roomId.value, ThenJoin(q, k.peerId))
  {
    var k := n.s.conns[d];
    assert RemoveMember(n.s.rooms[home], k.peerId) == map[];
    assert Targets(n.s.rooms[home], k.peerId) == {};
  }

  /** And is given the members of that room. */
  lemma ThirdComes(n: Net, d: ConnId, q: string, b: string, home: RoomRef)
    requires d in n.s.conns && n.s.conns[d].open && !Waiting(n.q.tasks, d)
    requires exists r :: n.s.conns[d].phase == Leaving(home, r, ThenJoin(q, b)) && r != q
    requires q in n.s.registered && n.s.registered[q] in n.s.rooms && b !in n.s.rooms[n.s.registered[q]]
    ensures CanHappen(n, Do(Recheck(d)))
    ensures NewFrames(n.s.conns, Next(n.s, Recheck(d)).conns, d) == [Peers(n.s.rooms[n.s.registered[q]].Keys)]
  {
    assert OthersIn(n.s.rooms[n.s.registered[q]], b) == n.s.rooms[n.s.registered[q]].Keys;
  }

  /** `d` can move to the room `q` at once and is then given a PEERS frame that is not discreet. */
  predicate MovesIndiscreetly(n: Net, d: ConnId, q: string) {
    && d in n.s.conns
    && var move := Do(JoinRequest(d, q, n.s.conns[d].peerId));
       && CanHappen(n, move) && CanHappen(Happens(n, move), Do(Recheck(d)))
       && !DiscreetEvent(Happens(n, move), Do(Recheck(d)))
  }

  lemma MoveOvertakes(n: Net, c: ConnId, d: ConnId, q: string, home: RoomRef, a: string)
    requires d in n.s.conns && n.s.conns[d].phase.Idle? && Placed(n.s, d) && n.s.conns[d].open && c != d
    requires home == n.s.registered[n.s.conns[d].roomId.value] && q != "" && n.s.conns[d].peerId != ""
    requires n.s.rooms[home] == map[n.s.conns[d].peerId := d] && n.q.tasks == [Batch(c, {d}, PeerLeft(a))]
    requires n.s.conns[d].roomId != Some(q) && q in n.s.registered && n.s.registered[q] != home
    requires n.s.registered[q] in n.s.rooms && a in n.s.rooms[n.s.registered[q]]
    requires n.s.conns[d].peerId !in n.s.rooms[n.s.registered[q]]
    ensures MovesIndiscreetly(n, d, q)
  {
    var b := n.s.conns[d].peerId;
    SecondGoes(n, d, q, home);
    var m := Happens(n, Do(JoinRequest(d, q, b)));
    ThirdComes(m, d, q, b, home);
    assert m.q.tasks[0] == Batch(c, {d}, PeerLeft(a));
  }

  /** When one of two peers alone in a room leaves, and the other moves to a room where the id of the first
      is in use, all before the news goes out, the news arrives last and strikes the namesake out. */
  lemma NewsArrivesLast(n: Net, c: ConnId, d: ConnId, e: ConnId)
    requires Structure(n.s) && TwoAndADouble(n, c, d, e)
    ensures CanHappen(n, Do(LeaveRequest(c, "", "")))
    ensures MovesIndiscreetly(Happens(n, Do(LeaveRequest(c, "", ""))), d, n.s.conns[e].roomId.value)
  {
    var q, b, a := n.s.conns[e].roomId.value, n.s.conns[d].peerId, n.s.conns[c].peerId;
    var home := n.s.registered[n.s.conns[c].roomId.value];
    assert Owned(n.s, home, b);
    FirstGoes(n, c, d, e);
    MoveOvertakes(Happens(n, Do(LeaveRequest(c, "", ""))), c, d, q, home, a);
  }
}
