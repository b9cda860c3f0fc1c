/**
 The signaling server as a state machine over its atomic segments: the stretches of
 server/signaling.py and server/room.py between two sends. Any connection's next segment may
 come next. Rooms are objects with an identity, because a room can be collected and created
 anew while some handler still holds the old one.
 */
module Membership {
  import opened Wrappers
  import opened Protocol
  import opened ClientView

  type ConnId = nat
  type RoomRef = nat
  type Members = map<string, ConnId>

  /** What a handler does once `RoomRegistry.leave` returns to it. */
  datatype Resume = ThenForget | ThenJoin(roomId: string, peerId: string) | ThenDone

  datatype Phase =
    | Idle
    | Joining(room: RoomRef)                                       // PEERS sent, PEER_JOINED still to come
    | Leaving(room: RoomRef, leftRoom: string, resume: Resume)     // PEER_LEFT sent, the empty-room check owed
    | Done

  datatype Conn = Conn(peerId: string, roomId: Option<string>, open: bool, phase: Phase, outbox: seq<Envelope>)

  datatype State = State(
    conns: map<ConnId, Conn>,
    rooms: map<RoomRef, Members>,
    registered: map<string, RoomRef>,
    nextRef: RoomRef)

  const INITIAL := State(map[], map[], map[], 0)

  datatype Step =
    | Connect(c: ConnId)
    | JoinRequest(c: ConnId, roomId: string, peerId: string)
    | LeaveRequest(c: ConnId, roomId: string, peerId: string)
    | Announce(c: ConnId)
    | Recheck(c: ConnId)
    | RelayRequest(c: ConnId, frame: Payload)
    | Close(c: ConnId)
    | Hangup(c: ConnId)

  // ---------- the pieces of the segments ----------

  /** Room.add_peer: the other ids already there, and the room with the peer in it. */
  function OthersIn(m: Members, peerId: string): set<string> {
    m.Keys - {peerId}
  }

  function AddMember(m: Members, peerId: string, c: ConnId): Members {
    m[peerId := c]
  }

  function RemoveMember(m: Members, peerId: string): Members {
    m - {peerId}
  }

  /** The connections a broadcast goes to. */
  function Targets(m: Members, except: string): set<ConnId> {
    set p | p in m && p != except :: m[p]
  }

  /** Peer.send_json: a closed socket loses the frame. */
  function Receives(k: Conn, e: Envelope): Conn {
    if k.open then k.(outbox := k.outbox + [e]) else k
  }

  function Send(conns: map<ConnId, Conn>, targets: set<ConnId>, e: Envelope): map<ConnId, Conn> {
    map c | c in conns :: if c in targets then Receives(conns[c], e) else conns[c]
  }

  function LookupRoom(s: State, roomId: string): State {
    if roomId in s.registered then s
    else s.(rooms := s.rooms[s.nextRef := map[]], registered := s.registered[roomId := s.nextRef],
            nextRef := s.nextRef + 1)
  }

  /** RoomRegistry.join up to the PEERS reply. */
  function BeginJoin(s: State, c: ConnId, roomId: string, peerId: string): State
    requires c in s.conns
  {
    var t := LookupRoom(s, roomId);
    var ref := t.registered[roomId];
    if ref !in t.rooms then s
    else
      var m := t.rooms[ref];
      var k := t.conns[c].(peerId := peerId, roomId := Some(roomId), phase := Joining(ref));
      t.(rooms := t.rooms[ref := AddMember(m, peerId, c)],
         conns := t.conns[c := Receives(k, Peers(OthersIn(m, peerId)))])
  }

  function FinishLeave(s: State, c: ConnId, resume: Resume): State
    requires c in s.conns
  {
    match resume
    case ThenForget => s.(conns := s.conns[c := s.conns[c].(roomId := None, phase := Idle)])
    case ThenDone => s.(conns := s.conns[c := s.conns[c].(phase := Done)])
    case ThenJoin(roomId, peerId) => BeginJoin(s, c, roomId, peerId)
  }

  /** RoomRegistry.leave up to the end of the PEER_LEFT broadcast. */
  function BeginLeave(s: State, c: ConnId, roomId: string, peerId: string, resume: Resume): State
    requires c in s.conns
  {
    if roomId !in s.registered || s.registered[roomId] !in s.rooms then FinishLeave(s, c, resume)
    else
      var ref := s.registered[roomId];
      if peerId !in s.rooms[ref] then FinishLeave(s, c, resume)
      else
        var m := RemoveMember(s.rooms[ref], peerId);
        var conns := Send(s.conns, Targets(m, peerId), PeerLeft(peerId));
        s.(rooms := s.rooms[ref := m], conns := conns[c := conns[c].(phase := Leaving(ref, roomId, resume))])
  }

  function CollectIfEmpty(s: State, ref: RoomRef, roomId: string): State {
    if ref in s.rooms && s.rooms[ref] == map[] && roomId in s.registered
       && s.registered[roomId] in s.rooms && s.rooms[s.registered[roomId]] == map[]
    then s.(registered := s.registered - {roomId})
    else s
  }

  function RelayFrame(s: State, c: ConnId, frame: Payload): State
    requires c in s.conns
  {
    var k := s.conns[c];
    var refused := (code: string) => s.(conns := s.conns[c := Receives(k, Notice(code))]);
    if k.roomId.None? then refused("NOT_JOINED")
    else if !Relayable(frame) then refused("MISSING_FIELD")
    else if k.roomId.value !in s.registered || s.registered[k.roomId.value] !in s.rooms then refused("ROOM_NOT_FOUND")
    else
      var m, to := s.rooms[s.registered[k.roomId.value]], frame[TO].text;
      if to !in m || m[to] !in s.conns || !s.conns[m[to]].open then refused("PEER_NOT_FOUND")
      else s.(conns := Send(s.conns, {m[to]}, Relayed(RelayedWire(frame, k.peerId, to))))
  }

  // ---------- the steps ----------

  predicate Enabled(s: State, step: Step) {
    match step
    case Connect(c) => c !in s.conns
    case JoinRequest(c, _, _) => c in s.conns && s.conns[c].phase.Idle?
    case LeaveRequest(c, _, _) => c in s.conns && s.conns[c].phase.Idle?
    case Announce(c) => c in s.conns && s.conns[c].phase.Joining?
    case Recheck(c) => c in s.conns && s.conns[c].phase.Leaving?
    case RelayRequest(c, _) => c in s.conns && s.conns[c].phase.Idle?
    case Close(c) => c in s.conns
    case Hangup(c) => c in s.conns && s.conns[c].phase.Idle?
  }

  function Next(s: State, step: Step): State
    requires Enabled(s, step)
  {
    match step
    case Connect(c) => s.(conns := s.conns[c := Conn("", None, true, Idle, [])])
    case JoinRequest(c, roomId, peerId) =>
      var k := s.conns[c];
      if roomId == "" || peerId == "" then s.(conns := s.conns[c := Receives(k, Notice("MISSING_FIELD"))])
      else if k.roomId.Some? then BeginLeave(s, c, k.roomId.value, k.peerId, ThenJoin(roomId, peerId))
      else BeginJoin(s, c, roomId, peerId)
    case LeaveRequest(c, roomId, peerId) =>
      var k := s.conns[c];
      if k.roomId.None? then s.(conns := s.conns[c := Receives(k, Notice("NOT_JOINED"))])
      else
        BeginLeave(s, c, if roomId == "" then k.roomId.value else roomId,
                   if peerId == "" then k.peerId else peerId, ThenForget)
    case Announce(c) =>
      var k := s.conns[c];
      var targets := if k.phase.room in s.rooms then Targets(s.rooms[k.phase.room], k.peerId) else {};
      var conns := Send(s.conns, targets, PeerJoined(k.peerId));
      s.(conns := conns[c := conns[c].(phase := Idle)])
    case Recheck(c) =>
      var p := s.conns[c].phase;
      FinishLeave(CollectIfEmpty(s, p.room, p.leftRoom), c, p.resume)
    case RelayRequest(c, frame) => RelayFrame(s, c, frame)
    case Close(c) => s.(conns := s.conns[c := s.conns[c].(open := false)])
    case Hangup(c) =>
      var k := s.conns[c];
      if k.roomId.Some? then BeginLeave(s, c, k.roomId.value, k.peerId, ThenDone)
      else s.(conns := s.conns[c := k.(phase := Done)])
  }

  // ---------- what callers have to respect ----------

  predicate Unused(s: State, roomId: string, peerId: string) {
    roomId in s.registered && s.registered[roomId] in s.rooms ==> peerId !in s.rooms[s.registered[roomId]]
  }

  /** The one join a step may complete uses an id free in that room; a LEAVE names its own sender. */
  predicate Polite(s: State, step: Step)
    requires Enabled(s, step)
  {
    match step
    case JoinRequest(c, roomId, peerId) => s.conns[c].roomId.None? ==> Unused(s, roomId, peerId)
    case LeaveRequest(c, roomId, peerId) =>
      var k := s.conns[c];
      k.roomId.Some? ==> (roomId == "" || roomId == k.roomId.value) && (peerId == "" || peerId == k.peerId)
    case Recheck(c) =>
      var resume := s.conns[c].phase.resume;
      resume.ThenJoin? ==> Unused(s, resume.roomId, resume.peerId)
    case _ => true
  }

  // ---------- the structural invariant ----------

  /** The handler regards its peer as a member of `roomId`. */
  predicate Seated(k: Conn) {
    k.roomId.Some? && (k.phase.Idle? || k.phase.Joining?)
  }

  predicate SameSeat(k: Conn, l: Conn) {
    k.peerId == l.peerId && k.roomId == l.roomId && k.phase == l.phase
  }

  /** The connection is found under its id in the room registered under its room id. */
  predicate Placed(s: State, c: ConnId)
    requires c in s.conns
  {
    var k := s.conns[c];
    && k.roomId.Some?
    && k.roomId.value in s.registered
    && s.registered[k.roomId.value] in s.rooms
    && k.peerId in s.rooms[s.registered[k.roomId.value]]
    && s.rooms[s.registered[k.roomId.value]][k.peerId] == c
    && (k.phase.Joining? ==> k.phase.room == s.registered[k.roomId.value])
  }

  /** The room entry belongs to a seated connection of that id, and the room is registered. */
  predicate Owned(s: State, ref: RoomRef, peerId: string)
    requires ref in s.rooms && peerId in s.rooms[ref]
  {
    var c := s.rooms[ref][peerId];
    && peerId != ""
    && c in s.conns
    && Seated(s.conns[c])
    && s.conns[c].peerId == peerId
    && s.conns[c].roomId.value in s.registered
    && s.registered[s.conns[c].roomId.value] == ref
  }

  /** Some leave of this room still owes its empty-room check. */
  ghost predicate RecheckOwed(s: State, roomId: string, ref: RoomRef) {
    exists c :: c in s.conns && s.conns[c].phase.Leaving? && s.conns[c].phase.room == ref
                && s.conns[c].phase.leftRoom == roomId
  }

  ghost predicate Registry(s: State) {
    && (forall r :: r in s.registered ==> s.registered[r] in s.rooms)
    && (forall ref :: ref in s.rooms ==> ref < s.nextRef)
    && (forall r, q :: r in s.registered && q in s.registered && s.registered[r] == s.registered[q] ==> r == q)
  }

  /** A join waiting behind a leave has passed its field checks. */
  predicate Resumable(phase: Phase) {
    phase.Leaving? && phase.resume.ThenJoin? ==> phase.resume.roomId != "" && phase.resume.peerId != ""
  }

  ghost predicate Seats(s: State) {
    && (forall c :: c in s.conns && Seated(s.conns[c]) ==> Placed(s, c))
    && (forall ref, p :: ref in s.rooms && p in s.rooms[ref] ==> Owned(s, ref, p))
    && (forall c :: c in s.conns ==> Resumable(s.conns[c].phase))
    && (forall c :: c in s.conns && s.conns[c].phase.Joining? ==> s.conns[c].roomId.Some?)
  }

  predicate EmptyRoom(s: State, roomId: string) {
    roomId in s.registered && s.registered[roomId] in s.rooms && s.rooms[s.registered[roomId]] == map[]
  }

  ghost predicate EmptyOwed(s: State) {
    forall r :: EmptyRoom(s, r) ==> RecheckOwed(s, r, s.registered[r])
  }

  ghost predicate Structure(s: State) {
    Registry(s) && Seats(s) && EmptyOwed(s)
  }

  // ---------- the views ----------

  /** The members of c's room other than c. */
  function Fellows(s: State, c: ConnId): set<string>
    requires c in s.conns && Placed(s, c)
  {
    OthersIn(s.rooms[s.registered[s.conns[c].roomId.value]], s.conns[c].peerId)
  }

  /** `p`'s arrival in c's room has still to be announced. */
  predicate Unannounced(s: State, c: ConnId, p: string)
    requires c in s.conns && Placed(s, c)
  {
    var m := s.rooms[s.registered[s.conns[c].roomId.value]];
    p in m && m[p] in s.conns && s.conns[m[p]].phase.Joining?
  }

  /** What a client would know after reading everything sent to it. */
  function Knows(known: set<string>, s: State, c: ConnId): set<string>
    requires c in s.conns
  {
    View(known, s.conns[c].outbox)
  }

  /** No ghosts in the view, and only unannounced arrivals missing from it. */
  ghost predicate ViewRight(known: set<string>, s: State, c: ConnId)
    requires c in s.conns && Placed(s, c)
  {
    && Knows(known, s, c) <= Fellows(s, c)
    && forall p :: p in Fellows(s, c) && p !in Knows(known, s, c) ==> Unannounced(s, c, p)
  }

  ghost predicate Views(known: set<string>, s: State) {
    forall c :: c in s.conns && s.conns[c].open && Seated(s.conns[c]) ==> Placed(s, c) && ViewRight(known, s, c)
  }

  ghost predicate Inv(known: set<string>, s: State) {
    Structure(s) && Views(known, s)
  }
}
