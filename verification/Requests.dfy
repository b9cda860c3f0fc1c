/**
 What each request of a client brings about, in the frames that connections receive and nothing else:
 who is told what, and that nobody else is told anything.
 */
module Requests {
  import opened Wrappers
  import opened Protocol
  import opened ClientView
  import opened Membership
  import opened MembershipProofs

  type Conns = map<ConnId, Conn>

  /** Every connection but `c` is as before, apart from the frame given to those told. */
  ghost predicate OthersGet(conns: Conns, after: Conns, c: ConnId, told: set<ConnId>, e: Envelope) {
    && after.Keys == conns.Keys
    && forall d :: d in conns && d != c ==>
         after[d] == if d in told && conns[d].open then conns[d].(outbox := conns[d].outbox + [e]) else conns[d]
  }

  /** The connections with a seat in the room. */
  function SeatedIn(conns: Conns, roomId: string): set<ConnId> {
    set d | d in conns && Seated(conns[d]) && conns[d].roomId == Some(roomId)
  }

  function NamesIn(conns: Conns, roomId: string): set<string> {
    set d | d in SeatedIn(conns, roomId) :: conns[d].peerId
  }

  /** Only `c` hears of it: one notice. */
  ghost predicate OnlyNotice(s: State, t: State, c: ConnId, code: string)
    requires c in s.conns
  {
    t == if s.conns[c].open then s.(conns := s.conns[c := s.conns[c].(outbox := s.conns[c].outbox + [Notice(code)])])
         else s
  }

  // ---------- relaying ----------

  /** An offer or answer with a session description, or a candidate, for the peer `to`. */
  predicate WellFormed(frame: Payload, to: string) {
    && to != "" && "to" in frame && frame["to"] == Text(to)
    && "type" in frame
    && (((frame["type"] == Text("OFFER") || frame["type"] == Text("ANSWER")) && "sdp" in frame && frame["sdp"].Text?)
        || (frame["type"] == Text("ICE") && "candidate" in frame && frame["candidate"].Object?))
  }

  /** The frame as sent, but with the server's word for who sent it. */
  ghost predicate AsSent(wire: Payload, frame: Payload, from: string) {
    && "from" in wire && wire["from"] == Text(from) && "from_" !in wire
    && forall key :: key != "from" && key != "from_" ==>
         (key in wire <==> key in frame) && (key in wire ==> wire[key] == frame[key])
  }

  lemma WellFormedIsRelayable(frame: Payload, to: string)
    requires WellFormed(frame, to)
    ensures Relayable(frame) && frame[TO].text == to
  {
    assert |"ICE"| == 3 && |"OFFER"| == 5 && |"ANSWER"| == 6;
    assert frame["type"] == Text(frame["type"].text);
    if frame["type"].text == "ICE" {
      assert frame["type"] == Text("ICE");
    }
  }

  lemma RelayableIsWellFormed(frame: Payload)
    requires Relayable(frame)
    ensures WellFormed(frame, frame[TO].text)
  {
    assert frame["type"] == Text(frame["type"].text);
    if frame["type"].text != "OFFER" && frame["type"].text != "ANSWER" {
      assert frame["type"].text == "ICE";
    }
  }

  /** A well-formed frame for an open fellow is delivered to it, once, with the sender's id, and changes
      nothing else. */
  lemma RelayDelivered(s: State, c: ConnId, d: ConnId, frame: Payload)
    requires Structure(s) && {c, d} <= s.conns.Keys && s.conns[c].phase.Idle? && Seated(s.conns[d])
    requires s.conns[c].roomId.Some? && s.conns[d].roomId == s.conns[c].roomId && s.conns[d].open
    requires WellFormed(frame, s.conns[d].peerId)
    ensures var t, out := Next(s, RelayRequest(c, frame)), s.conns[d].outbox;
      exists wire :: AsSent(wire, frame, s.conns[c].peerId)
                     && t == s.(conns := s.conns[d := s.conns[d].(outbox := out + [Relayed(wire)])])
  {
    assert Placed(s, c) && Placed(s, d);
    var from, to := s.conns[c].peerId, s.conns[d].peerId;
    WellFormedIsRelayable(frame, to);
    RelayStampsSender(frame, from, to);
    var wire := RelayedWire(frame, from, to);
    assert AsSent(wire, frame, from);
    var out := s.conns[d].outbox;
    assert Send(s.conns, {d}, Relayed(wire)) == s.conns[d := s.conns[d].(outbox := out + [Relayed(wire)])];
  }

  /** `c` has an open fellow, or itself, under that id. */
  ghost predicate Finds(s: State, c: ConnId, to: string)
    requires c in s.conns
  {
    exists d :: d in s.conns && Seated(s.conns[d]) && s.conns[d].roomId == s.conns[c].roomId
                && s.conns[d].open && s.conns[d].peerId == to
  }

  /** Without such a fellow the sender alone gets one notice. */
  lemma RelayFindsNobody(s: State, c: ConnId, frame: Payload, to: string)
    requires Structure(s) && c in s.conns && s.conns[c].phase.Idle? && s.conns[c].roomId.Some?
    requires WellFormed(frame, to) && !Finds(s, c, to)
    ensures OnlyNotice(s, Next(s, RelayRequest(c, frame)), c, "PEER_NOT_FOUND")
  {
    WellFormedIsRelayable(frame, to);
    assert Placed(s, c);
    var home := s.registered[s.conns[c].roomId.value];
    if to in s.rooms[home] {
      assert Owned(s, home, to);
      assert Placed(s, s.rooms[home][to]);
      assert !s.conns[s.rooms[home][to]].open;
    }
  }

  /** So does the sender of a frame that is not well-formed, and a sender without a room. */
  lemma RelayRefused(s: State, c: ConnId, frame: Payload)
    requires c in s.conns && s.conns[c].phase.Idle?
    requires s.conns[c].roomId.None? || forall to :: !WellFormed(frame, to)
    ensures OnlyNotice(s, Next(s, RelayRequest(c, frame)), c,
                       if s.conns[c].roomId.None? then "NOT_JOINED" else "MISSING_FIELD")
  {
    if Relayable(frame) {
      RelayableIsWellFormed(frame);
    }
  }

  // ---------- joining ----------

  lemma RoomNames(s: State, roomId: string)
    requires Registry(s) && Seats(s)
    ensures (if roomId in s.registered then s.rooms[s.registered[roomId]].Keys else {}) == NamesIn(s.conns, roomId)
  {
    forall d | d in SeatedIn(s.conns, roomId)
      ensures Placed(s, d)
    {
    }
    if roomId in s.registered {
      var m := s.rooms[s.registered[roomId]];
      forall p | p in m
        ensures m[p] in SeatedIn(s.conns, roomId) && s.conns[m[p]].peerId == p
      {
        assert Owned(s, s.registered[roomId], p);
      }
    }
  }

  /** `c` has taken a seat and was told who sits there; nobody else has heard of it yet. */
  ghost predicate TakesSeat(conns: Conns, after: Conns, c: ConnId, roomId: string, peerId: string)
    requires c in conns
  {
    && OthersGet(conns, after, c, {}, Notice(""))
    && after[c].phase.Joining?
    && var k := conns[c];
       var outbox := if k.open then k.outbox + [Peers(NamesIn(conns, roomId))] else k.outbox;
       after[c] == k.(peerId := peerId, roomId := Some(roomId), phase := after[c].phase, outbox := outbox)
  }

  lemma BeginJoinSeats(s: State, c: ConnId, roomId: string, peerId: string)
    requires Registry(s) && Seats(s) && c in s.conns && peerId !in NamesIn(s.conns, roomId)
    ensures TakesSeat(s.conns, BeginJoin(s, c, roomId, peerId).conns, c, roomId, peerId)
  {
    RoomNames(s, roomId);
    var u := LookupRoom(s, roomId);
    var m := u.rooms[u.registered[roomId]];
    assert m.Keys == NamesIn(s.conns, roomId);
    assert OthersIn(m, peerId) == m.Keys;
  }

  /** A connection without a seat takes one. */
  lemma JoinAnswered(s: State, c: ConnId, roomId: string, peerId: string)
    requires Structure(s) && c in s.conns && s.conns[c].phase.Idle? && s.conns[c].roomId.None?
    requires roomId != "" && peerId != "" && peerId !in NamesIn(s.conns, roomId)
    ensures TakesSeat(s.conns, Next(s, JoinRequest(c, roomId, peerId)).conns, c, roomId, peerId)
  {
    BeginJoinSeats(s, c, roomId, peerId);
  }

  lemma JoinRefused(s: State, c: ConnId, roomId: string, peerId: string)
    requires c in s.conns && s.conns[c].phase.Idle? && (roomId == "" || peerId == "")
    ensures OnlyNotice(s, Next(s, JoinRequest(c, roomId, peerId)), c, "MISSING_FIELD")
  {
  }

  /** Then the others in the room hear of the arrival, once each. */
  lemma ArrivalTold(s: State, c: ConnId)
    requires Structure(s) && c in s.conns && s.conns[c].phase.Joining?
    ensures var after, k := Next(s, Announce(c)).conns, s.conns[c];
      && k.roomId.Some? && OthersGet(s.conns, after, c, SeatedIn(s.conns, k.roomId.value), PeerJoined(k.peerId))
      && after[c] == k.(phase := Idle)
  {
    assert Placed(s, c);
    FellowsAreTargets(s, c);
  }

  lemma FellowsAreTargets(s: State, c: ConnId)
    requires Registry(s) && Seats(s) && c in s.conns && Placed(s, c) && Seated(s.conns[c])
    ensures var k := s.conns[c];
      Targets(s.rooms[s.registered[k.roomId.value]], k.peerId) == SeatedIn(s.conns, k.roomId.value) - {c}
  {
    var k := s.conns[c];
    var home := s.registered[k.roomId.value];
    forall d | d in Targets(s.rooms[home], k.peerId)
      ensures d in s.conns
    {
      var p :| p in s.rooms[home] && p != k.peerId && s.rooms[home][p] == d;
      assert Owned(s, home, p);
    }
    forall d | d in s.conns
      ensures d in Targets(s.rooms[home], k.peerId) <==> d != c && d in SeatedIn(s.conns, k.roomId.value)
    {
      TargetsAreMembers(s, home, k.peerId, d);
      if d in SeatedIn(s.conns, k.roomId.value) {
        assert Placed(s, d);
      }
    }
  }

  // ---------- leaving ----------

  /** The step gives up the seat of its connection. */
  predicate GivesUp(s: State, step: Step)
    requires Enabled(s, step)
  {
    match step
    case JoinRequest(c, roomId, peerId) => roomId != "" && peerId != "" && s.conns[c].roomId.Some?
    case LeaveRequest(c, roomId, peerId) => s.conns[c].roomId.Some? && Polite(s, step)
    case Hangup(c) => s.conns[c].roomId.Some?
    case _ => false
  }

  /** `c` has lost its seat, and the others in the room hear of it, once each. */
  ghost predicate LosesSeat(conns: Conns, after: Conns, c: ConnId, resume: Resume)
    requires c in conns && conns[c].roomId.Some?
  {
    && OthersGet(conns, after, c, SeatedIn(conns, conns[c].roomId.value), PeerLeft(conns[c].peerId))
    && after[c].phase.Leaving? && after[c].phase.resume == resume
    && after[c] == conns[c].(phase := after[c].phase)
  }

  lemma LeavingLosesSeat(s: State, c: ConnId, resume: Resume)
    requires Structure(s) && c in s.conns && s.conns[c].phase.Idle? && s.conns[c].roomId.Some?
    ensures LosesSeat(s.conns, LeaveOwn(s, c, resume).conns, c, resume)
  {
    var k := s.conns[c];
    assert Placed(s, c);
    TargetsRemoved(s.rooms[s.registered[k.roomId.value]], k.peerId);
    FellowsAreTargets(s, c);
  }

  /** So it is for who leaves by a LEAVE, by joining again or by hanging up. */
  lemma DepartureTold(s: State, step: Step)
    requires Structure(s) && Enabled(s, step) && GivesUp(s, step)
    ensures LosesSeat(s.conns, Next(s, step).conns, step.c,
                      match step
                      case JoinRequest(_, roomId, peerId) => ThenJoin(roomId, peerId)
                      case LeaveRequest(_, _, _) => ThenForget
                      case _ => ThenDone)
  {
    match step
    case JoinRequest(c, roomId, peerId) => LeavingLosesSeat(s, c, ThenJoin(roomId, peerId));
    case LeaveRequest(c, _, _) => LeavingLosesSeat(s, c, ThenForget);
    case Hangup(c) => LeavingLosesSeat(s, c, ThenDone);
  }

  lemma LeaveRefused(s: State, c: ConnId, roomId: string, peerId: string)
    requires c in s.conns && s.conns[c].phase.Idle? && s.conns[c].roomId.None?
    ensures OnlyNotice(s, Next(s, LeaveRequest(c, roomId, peerId)), c, "NOT_JOINED")
  {
  }

  /** After a LEAVE the connection is free again, after hanging up it is done; nobody is told more. */
  lemma LeaveFollowed(s: State, c: ConnId)
    requires c in s.conns && s.conns[c].phase.Leaving? && !s.conns[c].phase.resume.ThenJoin?
    ensures var t, k := Next(s, Recheck(c)), s.conns[c];
      var after := if k.phase.resume.ThenForget? then k.(roomId := None, phase := Idle) else k.(phase := Done);
      t.conns == s.conns[c := after]
  {
  }

  /** A JOIN from another room ends like one without a seat. */
  lemma JoinFollowed(s: State, c: ConnId)
    requires Structure(s) && c in s.conns && s.conns[c].phase.Leaving? && s.conns[c].phase.resume.ThenJoin?
    requires s.conns[c].phase.resume.peerId !in NamesIn(s.conns, s.conns[c].phase.resume.roomId)
    ensures var resume := s.conns[c].phase.resume;
      TakesSeat(s.conns, Next(s, Recheck(c)).conns, c, resume.roomId, resume.peerId)
  {
    var phase := s.conns[c].phase;
    CollectSeats(s, c);
    BeginJoinSeats(CollectIfEmpty(s, phase.room, phase.leftRoom), c, phase.resume.roomId, phase.resume.peerId);
  }
}
