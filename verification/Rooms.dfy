/**
 The objects of server/room.py. Their methods are the atomic segments of the membership
 state machine, proved against the same functions on a room's members.
 */
module Rooms {
  import opened Wrappers
  import opened Protocol
  import opened ClientView
  import opened Membership

  class Peer {
    const conn: ConnId             // the socket
    var peerId: string
    var roomId: Option<string>
    var open: bool
    var sent: seq<Envelope>        // the frames written to the socket

    constructor (conn: ConnId, peerId: string)
      ensures this.conn == conn && this.peerId == peerId && roomId == None && open && sent == []
    {
      this.conn, this.peerId := conn, peerId;
      roomId, open, sent := None, true, [];
    }

    /** The same peer as the state machine records it, apart from its handler's phase. */
    function Record(phase: Phase): Conn
      reads this
    {
      Conn(peerId, roomId, open, phase, sent)
    }

    method SendJson(e: Envelope) returns (ok: bool)
      modifies this`sent
      ensures ok == open && sent == if open then old(sent) + [e] else old(sent)
      ensures forall phase :: Record(phase) == Receives(old(Record(phase)), e)
    {
      if !open {
        return false;
      }
      sent := sent + [e];
      return true;
    }
  }

  /** Which socket sits under which id. */
  function SeatingOf(peers: map<string, Peer>): Members {
    map id | id in peers :: peers[id].conn
  }

  class Room {
    const roomId: string
    var peers: map<string, Peer>

    constructor (roomId: string)
      ensures this.roomId == roomId && peers == map[]
    {
      this.roomId := roomId;
      peers := map[];
    }

    ghost function Seating(): Members
      reads this
    {
      SeatingOf(peers)
    }

    /** Every peer is filed under its own id. */
    ghost predicate Keyed()
      reads this, set id | id in peers :: peers[id]
    {
      forall id :: id in peers ==> peers[id].peerId == id
    }

    method AddPeer(peer: Peer) returns (existing: set<string>)
      modifies this`peers, peer`roomId
      ensures existing == OthersIn(old(Seating()), peer.peerId)
      ensures Seating() == AddMember(old(Seating()), peer.peerId, peer.conn)
      ensures peers == old(peers)[peer.peerId := peer] && peer.roomId == Some(roomId)
    {
      existing := set id | id in peers && id != peer.peerId;
      peers := peers[peer.peerId := peer];
      peer.roomId := Some(roomId);
    }

    method RemovePeer(peerId: string) returns (removed: Peer?)
      modifies this`peers
      ensures removed == if peerId in old(peers) then old(peers)[peerId] else null
      ensures Seating() == RemoveMember(old(Seating()), peerId)
      ensures peers == old(peers) - {peerId}
    {
      if peerId !in peers {
        assert peers - {peerId} == peers;
        return null;
      }
      removed := peers[peerId];
      peers := peers - {peerId};
    }

    method BroadcastExcept(e: Envelope, except: string)
      requires Keyed()
      modifies (set id | id in peers :: peers[id])`sent
      ensures forall id, phase :: id in peers ==>
                peers[id].Record(phase)
                == if id == except then old(peers[id].Record(phase)) else Receives(old(peers[id].Record(phase)), e)
    {
      ghost var all := peers.Keys;
      var left := peers.Keys - {except};
      while left != {}
        invariant left <= all - {except}
        invariant forall id, phase :: id in peers ==>
                    peers[id].Record(phase)
                    == if id in left || id == except then old(peers[id].Record(phase))
                       else Receives(old(peers[id].Record(phase)), e)
        decreases left
      {
        var id :| id in left;
        var _ := peers[id].SendJson(e);
        left := left - {id};
      }
    }
  }

  class RoomRegistry {
    var rooms: map<string, Room>

    ghost predicate Valid()
      reads this
    {
      forall r :: r in rooms ==> rooms[r].roomId == r
    }

    constructor ()
      ensures Valid() && rooms == map[]
    {
      rooms := map[];
    }

    /** Lookup or creation, admission, and the PEERS reply. */
    method JoinSegment(roomId: string, peer: Peer) returns (room: Room)
      requires Valid()
      modifies this`rooms, (if roomId in rooms then {rooms[roomId]} else {})`peers, peer`roomId, peer`sent
      ensures Valid() && rooms == old(rooms)[roomId := room]
      ensures roomId in old(rooms) ==> room == old(rooms)[roomId]
      ensures roomId !in old(rooms) ==> fresh(room)
      ensures var before := if roomId in old(rooms) then old(rooms[roomId].Seating()) else map[];
        && room.Seating() == AddMember(before, peer.peerId, peer.conn)
        && (forall phase ::
              peer.Record(phase)
              == Receives(old(peer.Record(phase)).(roomId := Some(roomId)), Peers(OthersIn(before, peer.peerId))))
      ensures room.peers == (if roomId in old(rooms) then old(rooms[roomId].peers) else map[])[peer.peerId := peer]
    {
      if roomId in rooms {
        room := rooms[roomId];
      } else {
        room := new Room(roomId);
        rooms := rooms[roomId := room];
      }
      var existing := room.AddPeer(peer);
      var _ := peer.SendJson(Peers(existing));
    }

    /** Removal and the PEER_LEFT broadcast; returns the room that owes its empty-room check. */
    method LeaveSegment(roomId: string, peerId: string) returns (room: Room?)
      requires Valid()
      requires roomId in rooms ==> rooms[roomId].Keyed()
      modifies (if roomId in rooms then {rooms[roomId]} else {})`peers
      modifies (if roomId in rooms && peerId in rooms[roomId].peers
                then set id | id in rooms[roomId].peers && id != peerId :: rooms[roomId].peers[id] else {})`sent
      ensures Valid() && rooms == old(rooms)
      ensures room != null <==> roomId in rooms && peerId in old(rooms[roomId].peers)
      ensures room != null ==> room == rooms[roomId]
      ensures roomId in rooms ==>
                && rooms[roomId].Seating() == RemoveMember(old(rooms[roomId].Seating()), peerId)
                && rooms[roomId].peers == old(rooms[roomId].peers) - {peerId}
                && rooms[roomId].Keyed()
      ensures room != null ==>
                forall id, phase :: id in room.peers ==>
                  room.peers[id].Record(phase) == Receives(old(rooms[roomId].peers[id].Record(phase)), PeerLeft(peerId))
    {
      if roomId !in rooms {
        return null;
      }
      room := rooms[roomId];
      var removed := room.RemovePeer(peerId);
      if removed == null {
        return null;
      }
      room.BroadcastExcept(PeerLeft(peerId), peerId);
    }

    /** The check after a leave: both the room left and the one now registered must be empty. */
    method CollectSegment(room: Room, roomId: string)
      requires Valid()
      modifies this`rooms
      ensures Valid()
      ensures rooms == if room.peers == map[] && roomId in old(rooms) && old(rooms)[roomId].peers == map[]
                         then old(rooms) - {roomId} else old(rooms)
    {
      if |room.peers| == 0 {
        if roomId in rooms && |rooms[roomId].peers| == 0 {
          rooms := rooms - {roomId};
        }
      }
    }

    method Relay(roomId: Option<string>, sender: string, to: string, frame: Payload) returns (error: Option<string>)
      requires Valid()
      modifies (if roomId.Some? && roomId.value in rooms
                then set id | id in rooms[roomId.value].peers :: rooms[roomId.value].peers[id] else {})`sent
      ensures error == if roomId.None? then Some("NOT_JOINED")
                       else if roomId.value !in rooms then Some("ROOM_NOT_FOUND")
                       else if to !in rooms[roomId.value].peers then Some("PEER_NOT_FOUND")
                       else if !rooms[roomId.value].peers[to].open then Some("PEER_NOT_FOUND")
                       else None
      ensures error == None ==>
                var target := rooms[roomId.value].peers[to];
                target.sent == old(target.sent) + [Relayed(InternalToWire(Sanitize(frame, sender, to)))]
      ensures forall r, id :: r in rooms && id in rooms[r].peers ==>
                && rooms[r].peers[id].open == old(rooms[r].peers[id].open)
                && ((error == None && rooms[r].peers[id] == rooms[roomId.value].peers[to])
                    || rooms[r].peers[id].sent == old(rooms[r].peers[id].sent))
    {
      if roomId.None? {
        return Some("NOT_JOINED");
      }
      if roomId.value !in rooms {
        return Some("ROOM_NOT_FOUND");
      }
      var room := rooms[roomId.value];
      if to !in room.peers {
        return Some("PEER_NOT_FOUND");
      }
      var ok := room.peers[to].SendJson(Relayed(InternalToWire(Sanitize(frame, sender, to))));
      return if ok then None else Some("PEER_NOT_FOUND");
    }
  }
}
