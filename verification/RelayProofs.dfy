/** Who stands behind a relayed frame, over whole runs; and which requests the invariant cannot bear. */
module RelayProofs {
  import opened Wrappers
  import opened Protocol
  import opened ClientView
  import opened Membership
  import opened MembershipProofs

  /** In state `s` the step relays frame `e` from a member of c's room to c. */
  ghost predicate RelaysTo(s: State, step: Step, c: ConnId, e: Envelope) {
    && step.RelayRequest? && step.c in s.conns && c in s.conns
    && Seated(s.conns[step.c]) && Placed(s, step.c) && Seated(s.conns[c]) && Placed(s, c)
    && s.conns[step.c].roomId == s.conns[c].roomId
    && e == Relayed(RelayedWire(step.frame, s.conns[step.c].peerId, s.conns[c].peerId))
  }

  /** From one state to the next a connection gets at most one more frame, a relayed one only so. */
  ghost predicate Grows(s: State, step: Step, t: State, c: ConnId)
    requires c in s.conns && c in t.conns
  {
    || t.conns[c].outbox == s.conns[c].outbox
    || (t.conns[c].outbox != []
        && var last := |t.conns[c].outbox| - 1;
           t.conns[c].outbox[..last] == s.conns[c].outbox
           && (t.conns[c].outbox[last].Relayed? ==> RelaysTo(s, step, c, t.conns[c].outbox[last])))
  }

  lemma SendGrows(s: State, step: Step, targets: set<ConnId>, e: Envelope, d: ConnId)
    requires d in s.conns
    requires d in targets && e.Relayed? ==> RelaysTo(s, step, d, e)
    ensures Grows(s, step, s.(conns := Send(s.conns, targets, e)), d)
  {
  }

  lemma NoticeGrows(s: State, step: Step, c: ConnId, code: string, d: ConnId)
    requires c in s.conns && d in s.conns
    ensures Grows(s, step, s.(conns := s.conns[c := Receives(s.conns[c], Notice(code))]), d)
  {
  }

  lemma BeginJoinGrows(s: State, step: Step, c: ConnId, roomId: string, peerId: string, d: ConnId)
    requires c in s.conns && d in s.conns
    ensures d in BeginJoin(s, c, roomId, peerId).conns && Grows(s, step, BeginJoin(s, c, roomId, peerId), d)
  {
  }

  lemma BeginLeaveGrows(s: State, step: Step, c: ConnId, roomId: string, peerId: string, resume: Resume, d: ConnId)
    requires c in s.conns && d in s.conns
    ensures d in BeginLeave(s, c, roomId, peerId, resume).conns
    ensures Grows(s, step, BeginLeave(s, c, roomId, peerId, resume), d)
  {
    if resume.ThenJoin? {
      BeginJoinGrows(s, step, c, resume.roomId, resume.peerId, d);
    }
  }

  /** The peer a relayable frame names is a fellow member of the sender's room. */
  lemma RelayFindsFellow(s: State, c: ConnId, frame: Payload)
    requires Structure(s) && c in s.conns && s.conns[c].phase.Idle? && s.conns[c].roomId.Some?
    requires Relayable(frame)
    ensures Placed(s, c)
    ensures var m := s.rooms[s.registered[s.conns[c].roomId.value]];
      frame[TO].text in m ==>
        var d := m[frame[TO].text];
        d in s.conns
        && RelaysTo(s, RelayRequest(c, frame), d, Relayed(RelayedWire(frame, s.conns[c].peerId, frame[TO].text)))
  {
    assert Placed(s, c);
    var home := s.registered[s.conns[c].roomId.value];
    if frame[TO].text in s.rooms[home] {
      assert Owned(s, home, frame[TO].text);
      assert Placed(s, s.rooms[home][frame[TO].text]);
    }
  }

  lemma RelayGrows(s: State, c: ConnId, frame: Payload, d: ConnId)
    requires Structure(s) && c in s.conns && s.conns[c].phase.Idle? && d in s.conns
    ensures d in RelayFrame(s, c, frame).conns && Grows(s, RelayRequest(c, frame), RelayFrame(s, c, frame), d)
  {
    var k, step := s.conns[c], RelayRequest(c, frame);
    NoticeGrows(s, step, c, "NOT_JOINED", d);
    NoticeGrows(s, step, c, "MISSING_FIELD", d);
    NoticeGrows(s, step, c, "PEER_NOT_FOUND", d);
    if k.roomId.Some? && Relayable(frame) {
      RelayFindsFellow(s, c, frame);
      var m, to := s.rooms[s.registered[k.roomId.value]], frame[TO].text;
      if to in m {
        SendGrows(s, step, {m[to]}, Relayed(RelayedWire(frame, k.peerId, to)), d);
      }
    }
  }

  lemma RequestGrows(s: State, step: Step, d: ConnId)
    requires Enabled(s, step) && d in s.conns && (step.JoinRequest? || step.LeaveRequest? || step.Hangup?)
    ensures d in Next(s, step).conns && Grows(s, step, Next(s, step), d)
  {
    var c, k := step.c, s.conns[step.c];
    if step.JoinRequest? && step.roomId != "" && step.peerId != "" && k.roomId.None? {
      BeginJoinGrows(s, step, c, step.roomId, step.peerId, d);
    } else if k.roomId.Some? {
      var room := if step.LeaveRequest? && step.roomId != "" then step.roomId else k.roomId.value;
      var peer := if step.LeaveRequest? && step.peerId != "" then step.peerId else k.peerId;
      var resume := if step.JoinRequest? then ThenJoin(step.roomId, step.peerId)
                    else if step.LeaveRequest? then ThenForget else ThenDone;
      BeginLeaveGrows(s, step, c, room, peer, resume, d);
    }
  }

  lemma NextGrows(s: State, step: Step, d: ConnId)
    requires Structure(s) && Enabled(s, step) && d in s.conns
    ensures d in Next(s, step).conns && Grows(s, step, Next(s, step), d)
  {
    match step
    case Connect(_) =>
    case JoinRequest(_, _, _) => RequestGrows(s, step, d);
    case LeaveRequest(_, _, _) => RequestGrows(s, step, d);
    case Hangup(_) => RequestGrows(s, step, d);
    case Announce(_) =>
    case Recheck(c) =>
      var p := s.conns[c].phase;
      if p.resume.ThenJoin? {
        BeginJoinGrows(CollectIfEmpty(s, p.room, p.leftRoom), step, c, p.resume.roomId, p.resume.peerId, d);
      }
    case RelayRequest(c, frame) => RelayGrows(s, c, frame, d);
    case Close(_) =>
  }

  lemma {:induction false} RunPrefix(s: State, steps: seq<Step>, i: nat)
    requires Run(s, steps) && i <= |steps|
    ensures Run(s, steps[..i])
    decreases |steps|
  {
    if i < |steps| {
      RunPrefix(s, steps[..|steps| - 1], i);
      assert steps[..|steps| - 1][..i] == steps[..i];
    } else {
      assert steps[..i] == steps;
    }
  }

  /** Step `i` of the run relayed `e` to c. */
  ghost predicate RelayedAt(steps: seq<Step>, i: nat, c: ConnId, e: Envelope)
    requires i < |steps|
  {
    Run(INITIAL, steps[..i]) && RelaysTo(Exec(INITIAL, steps[..i]), steps[i], c, e)
  }

  ghost predicate HasSender(steps: seq<Step>, c: ConnId, e: Envelope) {
    exists i :: 0 <= i < |steps| && RelayedAt(steps, i, c, e)
  }

  lemma SenderStays(steps: seq<Step>, c: ConnId, e: Envelope)
    requires steps != [] && HasSender(steps[..|steps| - 1], c, e)
    ensures HasSender(steps, c, e)
  {
    var before := steps[..|steps| - 1];
    var i :| 0 <= i < |before| && RelayedAt(before, i, c, e);
    assert before[..i] == steps[..i];
    assert RelayedAt(steps, i, c, e);
  }

  /** The frames of one connection one step later: the old ones, and possibly one more. */
  lemma FrameIsOldOrRelayed(s: State, step: Step, t: State, c: ConnId, n: nat)
    requires c in s.conns && c in t.conns && Grows(s, step, t, c)
    requires n < |t.conns[c].outbox| && t.conns[c].outbox[n].Relayed?
    ensures var e := t.conns[c].outbox[n];
      (n < |s.conns[c].outbox| && s.conns[c].outbox[n] == e) || RelaysTo(s, step, c, e)
  {
    var after := t.conns[c].outbox;
    if after != s.conns[c].outbox && n < |after| - 1 {
      assert after[..|after| - 1][n] == after[n];
    }
  }

  /** Every relayed frame in any outbox was sent by a member of the same room, under its own name. */
  lemma {:induction false} RelayedHaveSenders(steps: seq<Step>, c: ConnId, n: nat)
    requires Run(INITIAL, steps) && c in Exec(INITIAL, steps).conns
    requires n < |Exec(INITIAL, steps).conns[c].outbox| && Exec(INITIAL, steps).conns[c].outbox[n].Relayed?
    ensures HasSender(steps, c, Exec(INITIAL, steps).conns[c].outbox[n])
    decreases |steps|
  {
    var before := steps[..|steps| - 1];
    var last, s, e := steps[|steps| - 1], Exec(INITIAL, before), Exec(INITIAL, steps).conns[c].outbox[n];
    if c !in s.conns {
      OnlyConnectAdds(s, last, c);
    } else {
      assert Structure(s) by {
        RunKeeps({}, before);
      }
      NextGrows(s, last, c);
      FrameIsOldOrRelayed(s, last, Next(s, last), c, n);
      if RelaysTo(s, last, c, e) {
        assert RelayedAt(steps, |steps| - 1, c, e);
      } else {
        RelayedHaveSenders(before, c, n);
        SenderStays(steps, c, e);
      }
    }
  }

  /** On the wire: the sender's registered id as `from`, the receiver's as `to`, the rest untouched. */
  lemma RelayAttribution(steps: seq<Step>, c: ConnId, n: nat)
    requires Run(INITIAL, steps) && c in Exec(INITIAL, steps).conns
    requires n < |Exec(INITIAL, steps).conns[c].outbox| && Exec(INITIAL, steps).conns[c].outbox[n].Relayed?
    ensures exists i :: 0 <= i < |steps| && FairRelay(steps, i, c, Exec(INITIAL, steps).conns[c].outbox[n].wire)
  {
    RelayedHaveSenders(steps, c, n);
    var e := Exec(INITIAL, steps).conns[c].outbox[n];
    var i :| 0 <= i < |steps| && RelayedAt(steps, i, c, e);
    var s := Exec(INITIAL, steps[..i]);
    RelayStampsSender(steps[i].frame, s.conns[steps[i].c].peerId, s.conns[c].peerId);
    assert FairRelay(steps, i, c, e.wire);
  }

  ghost predicate FairRelay(steps: seq<Step>, i: nat, c: ConnId, wire: Payload)
    requires i < |steps|
  {
    && Run(INITIAL, steps[..i]) && steps[i].RelayRequest?
    && var s := Exec(INITIAL, steps[..i]);
       && steps[i].c in s.conns && c in s.conns && Seated(s.conns[steps[i].c]) && Seated(s.conns[c])
       && s.conns[steps[i].c].roomId == s.conns[c].roomId
       && FROM_WIRE in wire && wire[FROM_WIRE] == Text(s.conns[steps[i].c].peerId)
       && TO in wire && wire[TO] == Text(s.conns[c].peerId)
       && FROM_INTERNAL !in wire
       && forall key :: key !in {FROM_WIRE, FROM_INTERNAL, TO} ==>
            (key in wire <==> key in steps[i].frame) && (key in wire ==> wire[key] == steps[i].frame[key])
  }

  // ---------- requests the invariant cannot bear ----------

  /** Joining keeps the structure exactly when the id is not in use in that room. */
  lemma JoinNeedsUnusedId(s: State, c: ConnId, roomId: string, peerId: string)
    requires Structure(s) && c in s.conns && s.conns[c].phase.Idle? && s.conns[c].roomId.None?
    requires roomId != "" && peerId != ""
    ensures Structure(BeginJoin(s, c, roomId, peerId)) <==> Unused(s, roomId, peerId)
  {
    if Unused(s, roomId, peerId) {
      IdleOwesNothing(s, c);
      JoinSeats(s, c, roomId, peerId);
    } else {
      var home := s.registered[roomId];
      var d := s.rooms[home][peerId];
      assert Owned(s, home, peerId);
      var t := BeginJoin(s, c, roomId, peerId);
      assert Seated(t.conns[d]) && !Placed(t, d);
    }
  }

  /** The state once a LEAVE and the check it owes are through. */
  function AfterLeave(s: State, c: ConnId, roomId: string, peerId: string): State
    requires c in s.conns && s.conns[c].phase.Idle?
  {
    var t := Next(s, LeaveRequest(c, roomId, peerId));
    if c in t.conns && t.conns[c].phase.Leaving? then Next(t, Recheck(c)) else t
  }

  lemma ForgetKeeps(u: State, c: ConnId)
    requires Structure(u) && c in u.conns && u.conns[c].phase.Leaving? && u.conns[c].phase.resume.ThenForget?
    ensures Structure(Next(u, Recheck(c)))
  {
    CollectSeats(u, c);
    var v := CollectIfEmpty(u, u.conns[c].phase.room, u.conns[c].phase.leftRoom);
    UnseatedSeats(v, c, v.conns[c].(roomId := None, phase := Idle));
  }

  lemma OwnLeaveKeeps(s: State, c: ConnId, roomId: string, peerId: string)
    requires Structure(s) && c in s.conns && s.conns[c].phase.Idle? && s.conns[c].roomId.Some? && Placed(s, c)
    requires Polite(s, LeaveRequest(c, roomId, peerId))
    ensures Structure(AfterLeave(s, c, roomId, peerId))
  {
    var u := LeaveOwn(s, c, ThenForget);
    assert u == Next(s, LeaveRequest(c, roomId, peerId));
    assert c in u.conns && u.conns[c].phase.Leaving? && u.conns[c].phase.resume.ThenForget?;
    LeaveOwnSeats(s, c, ThenForget);
    ForgetKeeps(u, c);
  }

  /** A LEAVE in another name forgets the sender's room but not the sender's place in it. */
  lemma ForeignLeaveStrands(s: State, c: ConnId, roomId: string, peerId: string)
    requires Structure(s) && c in s.conns && s.conns[c].phase.Idle? && s.conns[c].roomId.Some? && Placed(s, c)
    requires !Polite(s, LeaveRequest(c, roomId, peerId))
    ensures var t, home := AfterLeave(s, c, roomId, peerId), s.registered[s.conns[c].roomId.value];
      && c in t.conns && t.conns[c].roomId == None
      && home in t.rooms && s.conns[c].peerId in t.rooms[home] && t.rooms[home][s.conns[c].peerId] == c
  {
    var k := s.conns[c];
    var room, peer := if roomId == "" then k.roomId.value else roomId, if peerId == "" then k.peerId else peerId;
    ForeignLeaveKeepsEntry(s, c, room, peer);
    var u := BeginLeave(s, c, room, peer, ThenForget);
    assert Next(s, LeaveRequest(c, roomId, peerId)) == u;
    if u.conns[c].phase.Leaving? {
      ForgettingKeepsRooms(u, c);
    }
  }

  lemma ForeignLeaveKeepsEntry(s: State, c: ConnId, room: string, peer: string)
    requires Registry(s) && c in s.conns && s.conns[c].phase.Idle? && Placed(s, c)
    requires room != s.conns[c].roomId.value || peer != s.conns[c].peerId
    ensures var u, home := BeginLeave(s, c, room, peer, ThenForget), s.registered[s.conns[c].roomId.value];
      && c in u.conns
      && home in u.rooms && s.conns[c].peerId in u.rooms[home] && u.rooms[home][s.conns[c].peerId] == c
      && (if u.conns[c].phase.Leaving? then u.conns[c].phase.resume.ThenForget? else u.conns[c].roomId == None)
  {
  }

  lemma ForgettingKeepsRooms(u: State, c: ConnId)
    requires c in u.conns && u.conns[c].phase.Leaving? && u.conns[c].phase.resume.ThenForget?
    ensures var t := Next(u, Recheck(c)); c in t.conns && t.conns[c].roomId == None && t.rooms == u.rooms
  {
  }

  /** A LEAVE keeps the structure exactly when it names its own sender, outright or by omission. */
  lemma LeaveMustNameSelf(s: State, c: ConnId, roomId: string, peerId: string)
    requires Structure(s) && c in s.conns && s.conns[c].phase.Idle? && s.conns[c].roomId.Some?
    ensures Structure(AfterLeave(s, c, roomId, peerId)) <==> Polite(s, LeaveRequest(c, roomId, peerId))
  {
    assert Placed(s, c);
    if Polite(s, LeaveRequest(c, roomId, peerId)) {
      OwnLeaveKeeps(s, c, roomId, peerId);
    } else {
      ForeignLeaveStrands(s, c, roomId, peerId);
      assert !Owned(AfterLeave(s, c, roomId, peerId), s.registered[s.conns[c].roomId.value], s.conns[c].peerId);
    }
  }

  // ---------- two short runs that get there ----------

  lemma Extend(steps: seq<Step>, last: Step)
    requires Run(INITIAL, steps) && Enabled(Exec(INITIAL, steps), last) && Polite(Exec(INITIAL, steps), last)
    ensures Run(INITIAL, steps + [last]) && Exec(INITIAL, steps + [last]) == Next(Exec(INITIAL, steps), last)
  {
    assert (steps + [last])[..|steps|] == steps;
  }

  function FirstJoin(roomId: string, peerId: string): seq<Step> {
    [] + [Connect(0)] + [JoinRequest(0, roomId, peerId)] + [Announce(0)]
  }

  lemma OneMember(roomId: string, peerId: string)
    requires roomId != "" && peerId != ""
    ensures Run(INITIAL, FirstJoin(roomId, peerId))
    ensures var s := Exec(INITIAL, FirstJoin(roomId, peerId));
      && s.conns == map[0 := Conn(peerId, Some(roomId), true, Idle, [Peers({})])]
      && s.rooms == map[0 := map[peerId := 0]] && s.registered == map[roomId := 0]
  {
    var dialed, joined := [] + [Connect(0)], [] + [Connect(0)] + [JoinRequest(0, roomId, peerId)];
    Extend([], Connect(0));
    var s := Exec(INITIAL, dialed);
    assert s == INITIAL.(conns := map[0 := Conn("", None, true, Idle, [])]);
    Extend(dialed, JoinRequest(0, roomId, peerId));
    var t := Exec(INITIAL, joined);
    FirstSeat(s, roomId, peerId);
    assert t == BeginJoin(s, 0, roomId, peerId);
    Extend(joined, Announce(0));
    assert Targets(map[peerId := 0], peerId) == {};
  }

  lemma FirstSeat(s: State, roomId: string, peerId: string)
    requires s == INITIAL.(conns := map[0 := Conn("", None, true, Idle, [])])
    ensures BeginJoin(s, 0, roomId, peerId)
         == State(map[0 := Conn(peerId, Some(roomId), true, Joining(0), [Peers({})])],
                  map[0 := map[peerId := 0]], map[roomId := 0], 1)
  {
    var t := LookupRoom(s, roomId);
    assert t.rooms == map[0 := map[]] && t.registered == map[roomId := 0];
    assert OthersIn(t.rooms[0], peerId) == {};
    assert AddMember(t.rooms[0], peerId, 0) == map[peerId := 0];
    assert [] + [Peers({})] == [Peers({})];
  }

  /** A second client that joins the room under the id of the first takes its place in it: the first is
      told of nothing and no longer found. */
  lemma SecondJoinUnseats(roomId: string, peerId: string)
    requires roomId != "" && peerId != ""
    ensures var steps, again := FirstJoin(roomId, peerId) + [Connect(1)], JoinRequest(1, roomId, peerId);
      && Run(INITIAL, steps) && Enabled(Exec(INITIAL, steps), again)
      && var t := Next(Exec(INITIAL, steps), again);
         && t.rooms == map[0 := map[peerId := 1]]
         && 0 in t.conns && t.conns[0].outbox == [Peers({})]
         && 0 in t.conns && Seated(t.conns[0]) && !Placed(t, 0) && !Structure(t)
  {
    OneMember(roomId, peerId);
    var s := Exec(INITIAL, FirstJoin(roomId, peerId));
    Extend(FirstJoin(roomId, peerId), Connect(1));
    var t := Next(Next(s, Connect(1)), JoinRequest(1, roomId, peerId));
    assert AddMember(map[peerId := 0], peerId, 1) == map[peerId := 1];
    assert t.rooms == map[0 := map[peerId := 1]];
    assert t.conns[0] == s.conns[0];
  }

  /** A LEAVE that names a room its sender is not in leaves the sender's entry behind without an owner. */
  lemma ForeignLeaveUnowned(roomId: string, peerId: string, other: string)
    requires roomId != "" && peerId != "" && other != "" && other != roomId
    ensures var steps := FirstJoin(roomId, peerId);
      && Run(INITIAL, steps) && Enabled(Exec(INITIAL, steps), LeaveRequest(0, other, peerId))
      && var t := Next(Exec(INITIAL, steps), LeaveRequest(0, other, peerId));
         t.rooms == map[0 := map[peerId := 0]] && t.conns[0].roomId == None && !Owned(t, 0, peerId) && !Structure(t)
  {
    OneMember(roomId, peerId);
  }
}
