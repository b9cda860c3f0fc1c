/**
 The objects of server/room.py and the state machine step for step: the segments a handler runs
 between two sends, each proved to move the objects as `Membership.Next` moves the state.
 */
module SignalingObjects {
  import opened Wrappers
  import opened Protocol
  import opened ClientView
  import opened Membership
  import opened Rooms

  /** All sockets, all rooms ever made, and where each handler stands. */
  datatype World = World(peers: map<ConnId, Peer>, rooms: map<RoomRef, Room>, phases: map<ConnId, Phase>)

  ghost predicate Filed(sockets: map<ConnId, Peer>) {
    forall c :: c in sockets ==> sockets[c].conn == c
  }

  /** Every socket as the state machine records it. */
  ghost function Records(sockets: map<ConnId, Peer>, phases: map<ConnId, Phase>): map<ConnId, Conn>
    reads set c | c in sockets :: sockets[c]
    requires sockets.Keys == phases.Keys
  {
    map c | c in sockets :: sockets[c].Record(phases[c])
  }

  ghost predicate SamePeers(w: World, s: State)
    reads set c | c in w.peers :: w.peers[c]
  {
    w.peers.Keys == w.phases.Keys && Filed(w.peers) && Records(w.peers, w.phases) == s.conns
  }

  /** Who sits in each room object. */
  ghost function Doors(rooms: map<RoomRef, Room>): map<RoomRef, map<string, Peer>>
    reads set r | r in rooms :: rooms[r]
  {
    map r | r in rooms :: rooms[r].peers
  }

  /** Only these sockets are among them. */
  ghost predicate Known(sockets: map<ConnId, Peer>, peers: map<string, Peer>) {
    forall id :: id in peers ==> peers[id].conn in sockets && sockets[peers[id].conn] == peers[id]
  }

  ghost predicate Seat(sockets: map<ConnId, Peer>, doors: map<RoomRef, map<string, Peer>>, rooms: map<RoomRef, Members>)
  {
    doors.Keys == rooms.Keys
    && forall r :: r in doors ==> SeatingOf(doors[r]) == rooms[r] && Known(sockets, doors[r])
  }

  ghost predicate Separate(rooms: map<RoomRef, Room>) {
    forall a, b :: a in rooms && b in rooms && rooms[a] == rooms[b] ==> a == b
  }

  ghost predicate SameRooms(w: World, s: State)
    reads set r | r in w.rooms :: w.rooms[r]
  {
    Seat(w.peers, Doors(w.rooms), s.rooms) && Separate(w.rooms)
  }

  ghost predicate Entered(entries: map<string, Room>, rooms: map<RoomRef, Room>, registered: map<string, RoomRef>) {
    entries.Keys == registered.Keys
    && forall id :: id in entries ==> registered[id] in rooms && rooms[registered[id]] == entries[id]
  }

  ghost predicate SameRegistry(registry: RoomRegistry, w: World, s: State)
    reads registry
  {
    registry.Valid() && Entered(registry.rooms, w.rooms, s.registered)
  }

  /** The objects are in the state `s`. */
  ghost predicate Mirrors(registry: RoomRegistry, w: World, s: State)
    reads registry, set c | c in w.peers :: w.peers[c], set r | r in w.rooms :: w.rooms[r]
  {
    SamePeers(w, s) && SameRooms(w, s) && SameRegistry(registry, w, s)
  }

  /** The room a join goes to, by number, and who is in it before. */
  function JoinRef(s: State, roomId: string): RoomRef {
    if roomId in s.registered then s.registered[roomId] else s.nextRef
  }

  function MembersBefore(s: State, roomId: string): Members {
    if roomId in s.registered && s.registered[roomId] in s.rooms then s.rooms[s.registered[roomId]] else map[]
  }

  lemma JoinState(s: State, c: ConnId, roomId: string, peerId: string)
    requires Registry(s) && c in s.conns
    ensures var t, ref, m := BeginJoin(s, c, roomId, peerId), JoinRef(s, roomId), MembersBefore(s, roomId);
      && t.rooms == s.rooms[ref := AddMember(m, peerId, c)]
      && t.registered == s.registered[roomId := ref]
      && t.conns == s.conns[c := Admitted(s.conns[c], roomId, peerId, ref, m)]
  {
  }

  lemma AddedSeat(sockets: map<ConnId, Peer>, doors: map<RoomRef, map<string, Peer>>, rooms: map<RoomRef, Members>,
                  ref: RoomRef, before: map<string, Peer>, id: string, peer: Peer)
    requires Seat(sockets, doors, rooms) && Known(sockets, before)
    requires peer.conn in sockets && sockets[peer.conn] == peer
    ensures Seat(sockets, doors[ref := before[id := peer]], rooms[ref := AddMember(SeatingOf(before), id, peer.conn)])
  {
  }

  /** Entering a room, new or there already, under its number. */
  lemma AddedEntry(entries: map<string, Room>, rooms: map<RoomRef, Room>, registered: map<string, RoomRef>,
                   id: string, ref: RoomRef, room: Room)
    requires Entered(entries, rooms, registered)
    requires if id in entries then registered[id] == ref && rooms[ref] == room else ref !in rooms
    ensures Entered(entries[id := room], rooms[ref := room], registered[id := ref])
  {
  }

  function PeersIn(registry: RoomRegistry, roomId: string): map<string, Peer>
    reads registry, if roomId in registry.rooms then {registry.rooms[roomId]} else {}
  {
    if roomId in registry.rooms then registry.rooms[roomId].peers else map[]
  }

  /** The record of a peer once it is admitted. */
  function Admitted(k: Conn, roomId: string, peerId: string, ref: RoomRef, before: Members): Conn {
    Receives(k.(peerId := peerId, roomId := Some(roomId), phase := Joining(ref)), Peers(OthersIn(before, peerId)))
  }

  /** The join segment, with what it leaves alone. */
  method JoinOthers(registry: RoomRegistry, peer: Peer, roomId: string, peerId: string,
                    ghost rooms: map<RoomRef, Room>, ghost ref: RoomRef, ghost sockets: map<ConnId, Peer>)
    returns (room: Room)
    requires registry.Valid() && Separate(rooms)
    requires if roomId in registry.rooms then ref in rooms && rooms[ref] == registry.rooms[roomId] else ref !in rooms
    modifies registry`rooms, (if roomId in registry.rooms then {registry.rooms[roomId]} else {})`peers
    modifies peer`peerId, peer`roomId, peer`sent
    ensures registry.Valid() && registry.rooms == old(registry.rooms)[roomId := room]
    ensures roomId in old(registry.rooms) ==> room == old(registry.rooms)[roomId]
    ensures room.peers == old(PeersIn(registry, roomId))[peerId := peer]
    ensures forall r :: r in rooms && r != ref ==> rooms[r] != room && rooms[r].peers == old(rooms[r].peers)
    ensures forall phase ::
              peer.Record(phase)
              == Receives(old(peer.Record(phase)).(peerId := peerId, roomId := Some(roomId)),
                          Peers(OthersIn(SeatingOf(old(PeersIn(registry, roomId))), peerId)))
    ensures forall c, phase :: c in sockets && sockets[c] != peer ==>
              sockets[c].Record(phase) == old(sockets[c].Record(phase))
  {
    peer.peerId := peerId;
    room := registry.JoinSegment(roomId, peer);
  }

  /** The same, with what becomes of the rooms. */
  method JoinRooms(registry: RoomRegistry, peer: Peer, roomId: string, peerId: string,
                   ghost rooms: map<RoomRef, Room>, ghost ref: RoomRef, ghost sockets: map<ConnId, Peer>)
    returns (room: Room)
    requires registry.Valid() && Separate(rooms)
    requires if roomId in registry.rooms then ref in rooms && rooms[ref] == registry.rooms[roomId] else ref !in rooms
    modifies registry`rooms, (if roomId in registry.rooms then {registry.rooms[roomId]} else {})`peers
    modifies peer`peerId, peer`roomId, peer`sent
    ensures registry.Valid() && registry.rooms == old(registry.rooms)[roomId := room]
    ensures roomId in old(registry.rooms) ==> room == old(registry.rooms)[roomId]
    ensures Separate(rooms[ref := room])
    ensures Doors(rooms[ref := room]) == old(Doors(rooms))[ref := old(PeersIn(registry, roomId))[peerId := peer]]
    ensures forall phase ::
              peer.Record(phase)
              == Receives(old(peer.Record(phase)).(peerId := peerId, roomId := Some(roomId)),
                          Peers(OthersIn(SeatingOf(old(PeersIn(registry, roomId))), peerId)))
    ensures forall c, phase :: c in sockets && sockets[c] != peer ==>
              sockets[c].Record(phase) == old(sockets[c].Record(phase))
  {
    room := JoinOthers(registry, peer, roomId, peerId, rooms, ref, sockets);
  }

  /** The same, with what becomes of the sockets. */
  method JoinWorld(registry: RoomRegistry, peer: Peer, roomId: string, peerId: string, ghost w: World,
                   ghost ref: RoomRef)
    returns (room: Room)
    requires registry.Valid() && Separate(w.rooms) && Filed(w.peers) && w.peers.Keys == w.phases.Keys
    requires peer.conn in w.peers && w.peers[peer.conn] == peer
    requires if roomId in registry.rooms then ref in w.rooms && w.rooms[ref] == registry.rooms[roomId]
             else ref !in w.rooms
    modifies registry`rooms, (if roomId in registry.rooms then {registry.rooms[roomId]} else {})`peers
    modifies peer`peerId, peer`roomId, peer`sent
    ensures registry.Valid() && registry.rooms == old(registry.rooms)[roomId := room]
    ensures roomId in old(registry.rooms) ==> room == old(registry.rooms)[roomId]
    ensures Separate(w.rooms[ref := room])
    ensures Doors(w.rooms[ref := room]) == old(Doors(w.rooms))[ref := old(PeersIn(registry, roomId))[peerId := peer]]
    ensures Records(w.peers, w.phases[peer.conn := Joining(ref)])
         == old(Records(w.peers, w.phases))[peer.conn :=
              Admitted(old(peer.Record(w.phases[peer.conn])), roomId, peerId, ref,
                       SeatingOf(old(PeersIn(registry, roomId))))]
  {
    room := JoinRooms(registry, peer, roomId, peerId, w.rooms, ref, w.peers);
  }

  /** Lookup or creation, admission, PEERS: a join of a peer that is in no room. */
  method Join(registry: RoomRegistry, peer: Peer, roomId: string, peerId: string, ghost w: World, ghost s: State)
    returns (room: Room, ghost after: World)
    requires Mirrors(registry, w, s) && Registry(s)
    requires peer.conn in w.peers && w.peers[peer.conn] == peer
    modifies registry`rooms, (if roomId in registry.rooms then {registry.rooms[roomId]} else {})`peers
    modifies peer`peerId, peer`roomId, peer`sent
    ensures Mirrors(registry, after, BeginJoin(s, peer.conn, roomId, peerId))
    ensures after.peers == w.peers
  {
    ghost var c, ref, before := peer.conn, JoinRef(s, roomId), PeersIn(registry, roomId);
    JoinState(s, c, roomId, peerId);
    BeforeJoin(registry, w, s, roomId);
    AddedSeat(w.peers, Doors(w.rooms), s.rooms, ref, before, peerId, peer);
    assert s.conns[c] == peer.Record(w.phases[c]);
    ghost var entries := registry.rooms;
    room := JoinWorld(registry, peer, roomId, peerId, w, ref);
    AddedEntry(entries, w.rooms, s.registered, roomId, ref, room);
    after := World(w.peers, w.rooms[ref := room], w.phases[c := Joining(ref)]);
    ghost var t := BeginJoin(s, c, roomId, peerId);
    assert SameRegistry(registry, after, t);
    assert SameRooms(after, t);
    assert SamePeers(after, t);
  }

  lemma BeforeJoin(registry: RoomRegistry, w: World, s: State, roomId: string)
    requires Mirrors(registry, w, s) && Registry(s)
    ensures var ref, before := JoinRef(s, roomId), PeersIn(registry, roomId);
      && (if roomId in registry.rooms then ref in w.rooms && w.rooms[ref] == registry.rooms[roomId]
          else ref !in w.rooms)
      && SeatingOf(before) == MembersBefore(s, roomId) && Known(w.peers, before)
  {
    assert Doors(w.rooms).Keys == w.rooms.Keys;
    if roomId in registry.rooms {
      assert Doors(w.rooms)[JoinRef(s, roomId)] == PeersIn(registry, roomId);
    }
  }

  // ---------- broadcasts ----------

  /** In a sound state every peer sits under its own id. */
  lemma RoomsAreKeyed(w: World, s: State, ref: RoomRef)
    requires SamePeers(w, s) && SameRooms(w, s) && Seats(s) && ref in w.rooms
    ensures w.rooms[ref].Keyed() && Filed(w.peers) && Known(w.peers, w.rooms[ref].peers)
    ensures w.rooms[ref].Seating() == s.rooms[ref]
  {
    var peers := w.rooms[ref].peers;
    assert Doors(w.rooms)[ref] == peers;
    forall id | id in peers
      ensures peers[id].peerId == id
    {
      assert s.rooms[ref][id] == peers[id].conn;
      assert Owned(s, ref, id);
      assert s.conns[peers[id].conn] == w.peers[peers[id].conn].Record(w.phases[peers[id].conn]);
    }
  }

  /** The sockets a broadcast reaches are the targets the state machine names. */
  lemma TargetsAreSockets(sockets: map<ConnId, Peer>, peers: map<string, Peer>, except: string, c: ConnId)
    requires Known(sockets, peers) && Filed(sockets) && c in sockets
    ensures c in Targets(SeatingOf(peers), except)
       <==> exists id :: id in peers && id != except && peers[id] == sockets[c]
  {
    var m := SeatingOf(peers);
    if c in Targets(m, except) {
      var id :| id in m && id != except && m[id] == c;
      assert peers[id] == sockets[c];
    }
    if id :| id in peers && id != except && peers[id] == sockets[c] {
      assert m[id] == c;
    }
  }

  predicate Among(peers: map<string, Peer>, except: string, peer: Peer) {
    exists id :: id in peers && id != except && peers[id] == peer
  }

  lemma AllTargetsAreSockets(sockets: map<ConnId, Peer>, peers: map<string, Peer>, except: string)
    requires Known(sockets, peers) && Filed(sockets)
    ensures forall c :: c in sockets ==> (c in Targets(SeatingOf(peers), except) <==> Among(peers, except, sockets[c]))
  {
    forall c | c in sockets
      ensures c in Targets(SeatingOf(peers), except) <==> Among(peers, except, sockets[c])
    {
      TargetsAreSockets(sockets, peers, except, c);
    }
  }

  method BroadcastAlone(room: Room, e: Envelope, except: string, ghost w: World)
    requires room.Keyed() && Known(w.peers, room.peers) && Filed(w.peers) && w.peers.Keys == w.phases.Keys
    modifies (set id | id in room.peers :: room.peers[id])`sent
    ensures Records(w.peers, w.phases) == Send(old(Records(w.peers, w.phases)), Targets(room.Seating(), except), e)
  {
    AllTargetsAreSockets(w.peers, room.peers, except);
    room.BroadcastExcept(e, except);
  }

  /** A broadcast moves the objects as `Send` moves the connections. */
  method Broadcast(registry: RoomRegistry, room: Room, e: Envelope, except: string, ghost w: World, ghost s: State)
    requires Mirrors(registry, w, s)
    requires room.Keyed() && Known(w.peers, room.peers)
    modifies (set id | id in room.peers :: room.peers[id])`sent
    ensures Mirrors(registry, w, s.(conns := Send(s.conns, Targets(room.Seating(), except), e)))
  {
    BroadcastAlone(room, e, except, w);
  }

  /** A handler moving on changes its own record and nothing else. */
  lemma MovedOn(registry: RoomRegistry, w: World, s: State, c: ConnId, phase: Phase)
    requires Mirrors(registry, w, s) && c in w.peers
    ensures Mirrors(registry, w.(phases := w.phases[c := phase]),
                    s.(conns := s.conns[c := s.conns[c].(phase := phase)]))
  {
    assert s.conns[c] == w.peers[c].Record(w.phases[c]);
  }

  lemma AnnounceState(s: State, c: ConnId)
    requires Enabled(s, Step.Announce(c)) && s.conns[c].phase.room in s.rooms
    ensures var targets := Targets(s.rooms[s.conns[c].phase.room], s.conns[c].peerId);
      var sent := Send(s.conns, targets, PeerJoined(s.conns[c].peerId));
      c in sent && Next(s, Step.Announce(c)) == s.(conns := sent[c := sent[c].(phase := Idle)])
  {
  }

  /** PEER_JOINED to the rest of the room, from the object the handler kept. */
  method TakeAnnounce(registry: RoomRegistry, room: Room, peer: Peer, ghost w: World, ghost s: State)
    returns (ghost after: World)
    requires Mirrors(registry, w, s) && Seats(s) && Enabled(s, Step.Announce(peer.conn))
    requires peer.conn in w.peers && w.peers[peer.conn] == peer
    requires s.conns[peer.conn].phase.room in w.rooms && w.rooms[s.conns[peer.conn].phase.room] == room
    modifies (set id | id in room.peers :: room.peers[id])`sent
    ensures Mirrors(registry, after, Next(s, Step.Announce(peer.conn)))
    ensures after.peers == w.peers && after.rooms == w.rooms
  {
    ghost var c := peer.conn;
    RoomsAreKeyed(w, s, s.conns[c].phase.room);
    AnnounceState(s, c);
    assert s.conns[c] == peer.Record(w.phases[c]);
    ghost var sent := s.(conns := Send(s.conns, Targets(room.Seating(), peer.peerId), PeerJoined(peer.peerId)));
    Broadcast(registry, room, PeerJoined(peer.peerId), peer.peerId, w, s);
    MovedOn(registry, w, sent, c, Idle);
    after := w.(phases := w.phases[c := Idle]);
  }

  // ---------- leaving ----------

  lemma RemovedSeat(sockets: map<ConnId, Peer>, doors: map<RoomRef, map<string, Peer>>, rooms: map<RoomRef, Members>,
                    ref: RoomRef, id: string)
    requires Seat(sockets, doors, rooms) && ref in doors
    ensures Seat(sockets, doors[ref := doors[ref] - {id}], rooms[ref := RemoveMember(rooms[ref], id)])
  {
    assert SeatingOf(doors[ref] - {id}) == RemoveMember(SeatingOf(doors[ref]), id);
  }

  /** The leave segment, with what becomes of each socket. */
  method LeaveOthers(registry: RoomRegistry, roomId: string, peerId: string, ghost sockets: map<ConnId, Peer>)
    returns (room: Room?)
    requires registry.Valid() && roomId in registry.rooms && registry.rooms[roomId].Keyed()
    modifies {registry.rooms[roomId]}`peers
    modifies (set id | id in registry.rooms[roomId].peers :: registry.rooms[roomId].peers[id])`sent
    ensures registry.Valid() && registry.rooms == old(registry.rooms)
    ensures room == if peerId in old(registry.rooms[roomId].peers) then registry.rooms[roomId] else null
    ensures registry.rooms[roomId].peers == old(registry.rooms[roomId].peers) - {peerId}
    ensures forall c, phase :: c in sockets ==>
              sockets[c].Record(phase)
              == if room != null && Among(old(registry.rooms[roomId].peers) - {peerId}, peerId, sockets[c])
                 then Receives(old(sockets[c].Record(phase)), PeerLeft(peerId)) else old(sockets[c].Record(phase))
  {
    room := registry.LeaveSegment(roomId, peerId);
  }

  /** The same as one broadcast of the state machine. */
  method LeaveSockets(registry: RoomRegistry, roomId: string, peerId: string, ghost w: World)
    returns (room: Room?)
    requires registry.Valid() && Filed(w.peers) && w.peers.Keys == w.phases.Keys
    requires roomId in registry.rooms && registry.rooms[roomId].Keyed()
    requires Known(w.peers, registry.rooms[roomId].peers)
    modifies {registry.rooms[roomId]}`peers
    modifies (set id | id in registry.rooms[roomId].peers :: registry.rooms[roomId].peers[id])`sent
    ensures registry.Valid() && registry.rooms == old(registry.rooms)
    ensures room == if peerId in old(registry.rooms[roomId].peers) then registry.rooms[roomId] else null
    ensures registry.rooms[roomId].peers == old(registry.rooms[roomId].peers) - {peerId}
    ensures Records(w.peers, w.phases)
         == if room == null then old(Records(w.peers, w.phases))
            else Send(old(Records(w.peers, w.phases)),
                      Targets(SeatingOf(old(registry.rooms[roomId].peers) - {peerId}), peerId), PeerLeft(peerId))
  {
    AllTargetsAreSockets(w.peers, registry.rooms[roomId].peers - {peerId}, peerId);
    room := LeaveOthers(registry, roomId, peerId, w.peers);
  }

  /** The same, with what becomes of the rooms. */
  method LeaveRooms(registry: RoomRegistry, roomId: string, peerId: string, ghost ref: RoomRef, ghost w: World)
    returns (room: Room?)
    requires registry.Valid() && Filed(w.peers) && w.peers.Keys == w.phases.Keys && Separate(w.rooms)
    requires roomId in registry.rooms && registry.rooms[roomId].Keyed()
    requires Known(w.peers, registry.rooms[roomId].peers) && ref in w.rooms && w.rooms[ref] == registry.rooms[roomId]
    modifies {registry.rooms[roomId]}`peers
    modifies (set id | id in registry.rooms[roomId].peers :: registry.rooms[roomId].peers[id])`sent
    ensures registry.Valid() && registry.rooms == old(registry.rooms)
    ensures room == if peerId in old(registry.rooms[roomId].peers) then registry.rooms[roomId] else null
    ensures Doors(w.rooms) == old(Doors(w.rooms))[ref := old(registry.rooms[roomId].peers) - {peerId}]
    ensures Records(w.peers, w.phases)
         == if room == null then old(Records(w.peers, w.phases))
            else Send(old(Records(w.peers, w.phases)),
                      Targets(SeatingOf(old(registry.rooms[roomId].peers) - {peerId}), peerId), PeerLeft(peerId))
  {
    room := LeaveSockets(registry, roomId, peerId, w);
  }

  /** The leave segment as it moves rooms and records. */
  method LeaveMirrored(registry: RoomRegistry, roomId: string, peerId: string, ghost w: World, ghost s: State)
    returns (room: Room?)
    requires Mirrors(registry, w, s) && Seats(s) && roomId in registry.rooms
    modifies {registry.rooms[roomId]}`peers
    modifies (set id | id in registry.rooms[roomId].peers :: registry.rooms[roomId].peers[id])`sent
    ensures var ref := s.registered[roomId]; ref in w.rooms && ref in s.rooms
    ensures var ref := s.registered[roomId]; room == if peerId in s.rooms[ref] then w.rooms[ref] else null
    ensures Mirrors(registry, w, if room == null then s else Told(s, s.registered[roomId], peerId))
  {
    ghost var ref, doors := s.registered[roomId], Doors(w.rooms);
    RoomsAreKeyed(w, s, ref);
    RemovedSeat(w.peers, doors, s.rooms, ref, peerId);
    assert doors[ref] == registry.rooms[roomId].peers;
    if peerId !in doors[ref] {
      NothingRemoved(doors, ref, peerId);
    }
    room := LeaveRooms(registry, roomId, peerId, ref, w);
  }

  lemma NothingRemoved(doors: map<RoomRef, map<string, Peer>>, ref: RoomRef, id: string)
    requires ref in doors && id !in doors[ref]
    ensures doors[ref := doors[ref] - {id}] == doors
  {
    assert doors[ref] - {id} == doors[ref];
  }

  /** A peer out of its room and the others told. */
  function Told(s: State, ref: RoomRef, peerId: string): State
    requires ref in s.rooms
  {
    var m := RemoveMember(s.rooms[ref], peerId);
    s.(rooms := s.rooms[ref := m], conns := Send(s.conns, Targets(m, peerId), PeerLeft(peerId)))
  }

  lemma LeaveState(s: State, c: ConnId, roomId: string, peerId: string, resume: Resume)
    requires c in s.conns && roomId in s.registered && s.registered[roomId] in s.rooms
    ensures var ref, t := s.registered[roomId], BeginLeave(s, c, roomId, peerId, resume);
      if peerId in s.rooms[ref]
      then var told := Told(s, ref, peerId);
           && c in told.conns
           && t == told.(conns := told.conns[c := told.conns[c].(phase := Leaving(ref, roomId, resume))])
      else t == FinishLeave(s, c, resume)
  {
  }

  /** RoomRegistry.leave up to the empty-room check. `null` means there was nothing to leave, and the
      handler goes straight on. */
  method Leave(registry: RoomRegistry, roomId: string, peerId: string, resume: Resume,
               ghost c: ConnId, ghost w: World, ghost s: State)
    returns (room: Room?, ghost after: World)
    requires Mirrors(registry, w, s) && Seats(s) && c in w.peers
    modifies (if roomId in registry.rooms then {registry.rooms[roomId]} else {})`peers
    modifies (if roomId in registry.rooms
              then set id | id in registry.rooms[roomId].peers :: registry.rooms[roomId].peers[id] else {})`sent
    ensures room == null ==> after == w && Mirrors(registry, w, s)
    ensures room == null ==> BeginLeave(s, c, roomId, peerId, resume) == FinishLeave(s, c, resume)
    ensures room != null ==> Mirrors(registry, after, BeginLeave(s, c, roomId, peerId, resume))
    ensures room != null ==>
              roomId in s.registered && s.registered[roomId] in w.rooms && room == w.rooms[s.registered[roomId]]
    ensures room != null ==> after == w.(phases := w.phases[c := Leaving(s.registered[roomId], roomId, resume)])
  {
    after := w;
    if roomId !in registry.rooms {
      return null, after;
    }
    ghost var ref := s.registered[roomId];
    assert Doors(w.rooms).Keys == w.rooms.Keys;
    LeaveState(s, c, roomId, peerId, resume);
    room := LeaveMirrored(registry, roomId, peerId, w, s);
    if room != null {
      MovedOn(registry, w, Told(s, ref, peerId), c, Leaving(ref, roomId, resume));
      after := w.(phases := w.phases[c := Leaving(ref, roomId, resume)]);
    }
  }

  lemma RemovedEntry(entries: map<string, Room>, rooms: map<RoomRef, Room>, registered: map<string, RoomRef>,
                     id: string)
    requires Entered(entries, rooms, registered)
    ensures Entered(entries - {id}, rooms, registered - {id})
  {
  }

  /** The two emptiness checks, on the objects and on the state. */
  lemma EmptyAlike(registry: RoomRegistry, room: Room, roomId: string, ref: RoomRef, w: World, s: State)
    requires Mirrors(registry, w, s) && ref in w.rooms && w.rooms[ref] == room
    ensures ref in s.rooms && (s.rooms[ref] == map[] <==> room.peers == map[])
    ensures roomId in registry.rooms <==> roomId in s.registered && s.registered[roomId] in s.rooms
    ensures roomId in registry.rooms ==>
              (s.rooms[s.registered[roomId]] == map[] <==> registry.rooms[roomId].peers == map[])
  {
    var doors := Doors(w.rooms);
    assert doors[ref] == room.peers && doors.Keys == w.rooms.Keys;
    EmptySeating(room.peers);
    if roomId in registry.rooms {
      assert doors[s.registered[roomId]] == registry.rooms[roomId].peers;
      EmptySeating(registry.rooms[roomId].peers);
    }
  }

  /** The empty-room check. */
  method Collect(registry: RoomRegistry, room: Room, roomId: string, ghost ref: RoomRef, ghost w: World, ghost s: State)
    requires Mirrors(registry, w, s) && ref in w.rooms && w.rooms[ref] == room
    modifies registry`rooms
    ensures Mirrors(registry, w, CollectIfEmpty(s, ref, roomId))
  {
    EmptyAlike(registry, room, roomId, ref, w, s);
    RemovedEntry(registry.rooms, w.rooms, s.registered, roomId);
    registry.CollectSegment(room, roomId);
  }

  lemma EmptySeating(peers: map<string, Peer>)
    ensures SeatingOf(peers) == map[] <==> peers == map[]
  {
    assert SeatingOf(peers).Keys == peers.Keys;
  }

  /** A peer that forgets its room, or whose handler ends. */
  method Forget(registry: RoomRegistry, peer: Peer, ghost w: World, ghost s: State) returns (ghost after: World)
    requires Mirrors(registry, w, s) && peer.conn in w.peers && w.peers[peer.conn] == peer
    modifies peer`roomId
    ensures Mirrors(registry, after, FinishLeave(s, peer.conn, ThenForget))
    ensures after == w.(phases := w.phases[peer.conn := Idle])
  {
    assert s.conns[peer.conn] == peer.Record(w.phases[peer.conn]);
    ForgetRoom(peer, w);
    after := w.(phases := w.phases[peer.conn := Idle]);
  }

  method ForgetRoom(peer: Peer, ghost w: World)
    requires Filed(w.peers) && w.peers.Keys == w.phases.Keys && peer.conn in w.peers && w.peers[peer.conn] == peer
    modifies peer`roomId
    ensures Records(w.peers, w.phases[peer.conn := Idle])
         == old(Records(w.peers, w.phases))[peer.conn := old(peer.Record(Idle)).(roomId := None)]
  {
    peer.roomId := None;
  }

  /** What a handler does once `RoomRegistry.leave` has returned to it. */
  method Finish(registry: RoomRegistry, peer: Peer, resume: Resume, ghost w: World, ghost s: State)
    returns (room: Room?, ghost after: World)
    requires Mirrors(registry, w, s) && Registry(s) && peer.conn in w.peers && w.peers[peer.conn] == peer
    modifies registry`rooms, peer`peerId, peer`roomId, peer`sent
    modifies (if resume.ThenJoin? && resume.roomId in registry.rooms then {registry.rooms[resume.roomId]} else {})`peers
    ensures Mirrors(registry, after, FinishLeave(s, peer.conn, resume))
    ensures after.peers == w.peers && (room != null <==> resume.ThenJoin?)
  {
    match resume
    case ThenForget =>
      after := Forget(registry, peer, w, s);
      return null, after;
    case ThenDone =>
      MovedOn(registry, w, s, peer.conn, Done);
      after := w.(phases := w.phases[peer.conn := Done]);
      return null, after;
    case ThenJoin(roomId, peerId) =>
      room, after := Join(registry, peer, roomId, peerId, w, s);
  }

  // ---------- whole steps ----------

  method Notify(registry: RoomRegistry, peer: Peer, code: string, ghost w: World, ghost s: State)
    requires Mirrors(registry, w, s) && peer.conn in w.peers && w.peers[peer.conn] == peer
    modifies peer`sent
    ensures Mirrors(registry, w, s.(conns := s.conns[peer.conn := Receives(s.conns[peer.conn], Notice(code))]))
  {
    assert s.conns[peer.conn] == peer.Record(w.phases[peer.conn]);
    var _ := peer.SendJson(Notice(code));
  }

  /** The sockets in a registered room, and the room. */
  function SocketsAt(registry: RoomRegistry, roomId: string): set<Peer>
    reads registry, if roomId in registry.rooms then {registry.rooms[roomId]} else {}
  {
    if roomId in registry.rooms
    then set id | id in registry.rooms[roomId].peers :: registry.rooms[roomId].peers[id]
    else {}
  }

  function RoomAt(registry: RoomRegistry, roomId: string): set<Room>
    reads registry
  {
    if roomId in registry.rooms then {registry.rooms[roomId]} else {}
  }

  method TakeHangup(registry: RoomRegistry, peer: Peer, ghost w: World, ghost s: State)
    returns (room: Room?, ghost after: World)
    requires Mirrors(registry, w, s) && Registry(s) && Seats(s) && peer.conn in w.peers && w.peers[peer.conn] == peer
    requires Enabled(s, Hangup(peer.conn))
    modifies registry`rooms, peer`peerId, peer`roomId, peer`sent
    modifies (if peer.roomId.Some? then RoomAt(registry, peer.roomId.value) else {})`peers
    modifies (if peer.roomId.Some? then SocketsAt(registry, peer.roomId.value) else {})`sent
    ensures Mirrors(registry, after, Next(s, Hangup(peer.conn)))
  {
    assert s.conns[peer.conn] == peer.Record(w.phases[peer.conn]);
    if peer.roomId.None? {
      MovedOn(registry, w, s, peer.conn, Done);
      after := w.(phases := w.phases[peer.conn := Done]);
      return null, after;
    }
    room, after := Leave(registry, peer.roomId.value, peer.peerId, ThenDone, peer.conn, w, s);
    if room == null {
      room, after := Finish(registry, peer, ThenDone, w, s);
    }
  }

  /** A LEAVE that omits a name means the sender's own. */
  function NameOr(name: string, own: string): string {
    if name == "" then own else name
  }

  method TakeLeave(registry: RoomRegistry, peer: Peer, roomId: string, peerId: string, ghost w: World, ghost s: State)
    returns (room: Room?, ghost after: World)
    requires Mirrors(registry, w, s) && Registry(s) && Seats(s) && peer.conn in w.peers && w.peers[peer.conn] == peer
    requires Enabled(s, LeaveRequest(peer.conn, roomId, peerId))
    modifies registry`rooms, peer`peerId, peer`roomId, peer`sent
    modifies (if peer.roomId.None? then {} else RoomAt(registry, NameOr(roomId, peer.roomId.value)))`peers
    modifies (if peer.roomId.None? then {} else SocketsAt(registry, NameOr(roomId, peer.roomId.value)))`sent
    ensures Mirrors(registry, after, Next(s, LeaveRequest(peer.conn, roomId, peerId)))
  {
    after := w;
    assert s.conns[peer.conn] == peer.Record(w.phases[peer.conn]);
    if peer.roomId.None? {
      Notify(registry, peer, "NOT_JOINED", w, s);
      return null, after;
    }
    room, after := Leave(registry, NameOr(roomId, peer.roomId.value), NameOr(peerId, peer.peerId), ThenForget,
                         peer.conn, w, s);
    if room == null {
      room, after := Finish(registry, peer, ThenForget, w, s);
    }
  }

  /** JOIN of a peer that is in a room leaves that one first. */
  method TakeJoin(registry: RoomRegistry, peer: Peer, roomId: string, peerId: string, ghost w: World, ghost s: State)
    returns (room: Room?, ghost after: World)
    requires Mirrors(registry, w, s) && Registry(s) && Seats(s) && peer.conn in w.peers && w.peers[peer.conn] == peer
    requires Enabled(s, JoinRequest(peer.conn, roomId, peerId))
    modifies registry`rooms, peer`peerId, peer`roomId, peer`sent
    modifies RoomAt(registry, roomId)`peers
    modifies (if peer.roomId.None? then {} else RoomAt(registry, peer.roomId.value))`peers
    modifies (if peer.roomId.None? then {} else SocketsAt(registry, peer.roomId.value))`sent
    ensures Mirrors(registry, after, Next(s, JoinRequest(peer.conn, roomId, peerId)))
  {
    after := w;
    assert s.conns[peer.conn] == peer.Record(w.phases[peer.conn]);
    if roomId == "" || peerId == "" {
      Notify(registry, peer, "MISSING_FIELD", w, s);
      return null, after;
    }
    if peer.roomId.None? {
      room, after := Join(registry, peer, roomId, peerId, w, s);
      return;
    }
    room, after := Leave(registry, peer.roomId.value, peer.peerId, ThenJoin(roomId, peerId), peer.conn, w, s);
    if room == null {
      room, after := Finish(registry, peer, ThenJoin(roomId, peerId), w, s);
    }
  }

  lemma CollectedRegistry(s: State, ref: RoomRef, roomId: string)
    requires Registry(s)
    ensures Registry(CollectIfEmpty(s, ref, roomId)) && CollectIfEmpty(s, ref, roomId).conns == s.conns
  {
  }

  /** The check a leave owes, and what the handler does after it. */
  method TakeRecheck(registry: RoomRegistry, peer: Peer, room: Room, leftRoom: string, resume: Resume,
                     ghost w: World, ghost s: State)
    returns (joined: Room?, ghost after: World)
    requires Mirrors(registry, w, s) && Registry(s) && peer.conn in w.peers && w.peers[peer.conn] == peer
    requires Enabled(s, Recheck(peer.conn))
    requires var phase := s.conns[peer.conn].phase;
      && phase.leftRoom == leftRoom && phase.resume == resume
      && phase.room in w.rooms && w.rooms[phase.room] == room
    modifies registry`rooms, peer`peerId, peer`roomId, peer`sent
    modifies (if resume.ThenJoin? then RoomAt(registry, resume.roomId) else {})`peers
    ensures Mirrors(registry, after, Next(s, Recheck(peer.conn)))
  {
    ghost var ref := s.conns[peer.conn].phase.room;
    CollectedRegistry(s, ref, leftRoom);
    Collect(registry, room, leftRoom, ref, w, s);
    joined, after := Finish(registry, peer, resume, w, CollectIfEmpty(s, ref, leftRoom));
  }

  /** Relaying, with what becomes of each socket. */
  method RelayOthers(registry: RoomRegistry, roomId: string, sender: string, to: string, frame: Payload,
                     ghost sockets: map<ConnId, Peer>)
    returns (error: Option<string>)
    requires registry.Valid()
    modifies SocketsAt(registry, roomId)`sent
    ensures error == if roomId !in registry.rooms then Some("ROOM_NOT_FOUND")
                     else if to !in registry.rooms[roomId].peers || !registry.rooms[roomId].peers[to].open
                     then Some("PEER_NOT_FOUND") else None
    ensures forall c, phase :: c in sockets ==>
              sockets[c].Record(phase)
              == if error == None && sockets[c] == registry.rooms[roomId].peers[to]
                 then Receives(old(sockets[c].Record(phase)), Relayed(InternalToWire(Sanitize(frame, sender, to))))
                 else old(sockets[c].Record(phase))
  {
    error := registry.Relay(Some(roomId), sender, to, frame);
  }

  /** The same as one sending of the state machine. */
  method RelaySockets(registry: RoomRegistry, roomId: string, sender: string, to: string, frame: Payload,
                      ghost w: World)
    returns (error: Option<string>)
    requires registry.Valid() && Filed(w.peers) && w.peers.Keys == w.phases.Keys
    requires Known(w.peers, PeersIn(registry, roomId))
    modifies SocketsAt(registry, roomId)`sent
    ensures error == if roomId !in registry.rooms then Some("ROOM_NOT_FOUND")
                     else if to !in registry.rooms[roomId].peers || !registry.rooms[roomId].peers[to].open
                     then Some("PEER_NOT_FOUND") else None
    ensures Records(w.peers, w.phases)
         == if error.Some? then old(Records(w.peers, w.phases))
            else Send(old(Records(w.peers, w.phases)), {registry.rooms[roomId].peers[to].conn},
                      Relayed(InternalToWire(Sanitize(frame, sender, to))))
  {
    error := RelayOthers(registry, roomId, sender, to, frame, w.peers);
  }

  /** RoomRegistry.relay as it moves the connections. */
  method RelayMirrored(registry: RoomRegistry, roomId: string, sender: string, to: string, frame: Payload,
                       ghost w: World, ghost s: State)
    returns (error: Option<string>)
    requires Mirrors(registry, w, s)
    modifies SocketsAt(registry, roomId)`sent
    ensures error ==
            if roomId !in s.registered || s.registered[roomId] !in s.rooms then Some("ROOM_NOT_FOUND")
            else
              var m := s.rooms[s.registered[roomId]];
              if to !in m || m[to] !in s.conns || !s.conns[m[to]].open then Some("PEER_NOT_FOUND") else None
    ensures error.Some? ==> Mirrors(registry, w, s)
    ensures error.None? ==>
              Mirrors(registry, w, s.(conns := Send(s.conns, {s.rooms[s.registered[roomId]][to]},
                                                    Relayed(InternalToWire(Sanitize(frame, sender, to))))))
  {
    RelayFinds(registry, w, s, roomId, to);
    error := RelaySockets(registry, roomId, sender, to, frame, w);
  }

  /** OFFER, ANSWER and ICE: the checks, then one frame to one peer or a notice to the sender. */
  method TakeRelay(registry: RoomRegistry, peer: Peer, frame: Payload, ghost w: World, ghost s: State)
    requires Mirrors(registry, w, s) && peer.conn in w.peers && w.peers[peer.conn] == peer
    requires Enabled(s, RelayRequest(peer.conn, frame))
    modifies peer`sent
    modifies (if peer.roomId.Some? then SocketsAt(registry, peer.roomId.value) else {})`sent
    ensures Mirrors(registry, w, Next(s, RelayRequest(peer.conn, frame)))
  {
    assert s.conns[peer.conn] == peer.Record(w.phases[peer.conn]);
    if peer.roomId.None? {
      Notify(registry, peer, "NOT_JOINED", w, s);
    } else if !Relayable(frame) {
      Notify(registry, peer, "MISSING_FIELD", w, s);
    } else {
      var error := RelayMirrored(registry, peer.roomId.value, peer.peerId, frame[TO].text, WireToInternal(frame), w, s);
      if error.Some? {
        Notify(registry, peer, error.value, w, s);
      }
    }
  }

  /** The state machine looks for the target where the registry does. */
  lemma RelayFinds(registry: RoomRegistry, w: World, s: State, roomId: string, to: string)
    requires Mirrors(registry, w, s)
    ensures roomId in registry.rooms <==> roomId in s.registered && s.registered[roomId] in s.rooms
    ensures Known(w.peers, PeersIn(registry, roomId))
    ensures roomId in registry.rooms ==>
              var m, peers := s.rooms[s.registered[roomId]], registry.rooms[roomId].peers;
              && (to in m <==> to in peers)
              && (to in m ==> peers[to].conn == m[to] && m[to] in s.conns && w.peers[m[to]] == peers[to]
                              && s.conns[m[to]].open == peers[to].open)
  {
    var doors := Doors(w.rooms);
    assert doors.Keys == w.rooms.Keys;
    if roomId in registry.rooms {
      var ref, peers := s.registered[roomId], registry.rooms[roomId].peers;
      assert doors[ref] == peers;
      if to in peers {
        assert s.conns[peers[to].conn] == w.peers[peers[to].conn].Record(w.phases[peers[to].conn]);
      }
    }
  }
}
