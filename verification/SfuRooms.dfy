/** The objects of server/sfu_room.py and server/sfu_registry.py, updated in place. */
module SfuRooms {
  import opened Sfu
  import opened Wrappers

  /** The peer connections of the media library. */
  class Transport {
    var net: Net

    constructor ()
      ensures net == Net(map[], 0)
    {
      net := Net(map[], 0);
    }

    method Negotiate(link: Link) returns (conn: ConnId)
      modifies this
      ensures conn == old(net.next) && net == Opened(old(net), link)
    {
      conn := net.next;
      net := Opened(net, link);
    }

    method Close(conn: ConnId)
      modifies this
      ensures net == Closed(old(net), {conn})
    {
      net := Closed(net, {conn});
    }
  }

  class SfuRoom {
    const roomId: string
    var producers: map<string, Producer>
    var subscribers: map<(string, string), ConnId>

    ghost function Contents(): Room
      reads this
    {
      Room(producers, subscribers)
    }

    constructor (roomId: string)
      ensures this.roomId == roomId && Contents() == EMPTY_ROOM
    {
      this.roomId := roomId;
      producers, subscribers := map[], map[];
    }

    /** Pops and closes the given subscriptions one by one. */
    method CloseSubscriptions(transport: Transport, stale: set<(string, string)>)
      requires stale <= subscribers.Keys
      modifies this, transport
      ensures Contents() == Unsubscribed(old(Contents()), stale)
      ensures transport.net == Closed(old(transport.net), ConnsAt(old(Contents()), stale))
    {
      var left := stale;
      ghost var before, net := Contents(), transport.net;
      while left != {}
        invariant left <= stale
        invariant Contents() == Unsubscribed(before, stale - left)
        invariant transport.net == Closed(net, ConnsAt(before, stale - left))
      {
        InhabitedPairs(left);
        var key :| key in left;
        var conn := subscribers[key];
        subscribers := subscribers - {key};
        transport.Close(conn);
        ConnsGrow(before, stale - left, key);
        left := left - {key};
        assert stale - left == (stale - (left + {key})) + {key};
      }
    }

    method DropProducer(transport: Transport, peer: string)
      modifies this, transport
      ensures Contents() == WithoutProducer(old(Contents()), peer)
      ensures transport.net == NetWithoutProducer(old(Contents()), old(transport.net), peer)
    {
      ghost var before := Contents();
      if peer in producers {
        var conn := producers[peer].conn;
        producers := producers - {peer};
        transport.Close(conn);
      }
      CloseSubscriptions(transport, ToProducer(Room(producers, subscribers), peer));
      assert ToProducer(before, peer) == ToProducer(Room(producers, before.subscribers), peer);
    }

    method AddPublisher(transport: Transport, peer: string, tracks: seq<Track>)
      modifies this, transport
      ensures (Contents(), transport.net) == Published(old(Contents()), old(transport.net), roomId, peer, tracks)
    {
      ghost var before := producers;
      var conn := transport.Negotiate(Link(Up(roomId, peer), []));
      if peer in producers {
        DropProducer(transport, peer);
      }
      producers := producers[peer := Producer(conn, tracks)];
      assert producers == before[peer := Producer(conn, tracks)];
    }

    method Subscribe(transport: Transport, subscriber: string, producer: string) returns (error: Option<Error>)
      modifies this, transport
      ensures error == if producer in old(producers) then None else Some(NoProducer)
      ensures error == None ==>
                (Contents(), transport.net)
                == Subscribed(old(Contents()), old(transport.net), roomId, subscriber, producer)
      ensures error != None ==> Contents() == old(Contents()) && transport.net == old(transport.net)
    {
      if producer !in producers {
        return Some(NoProducer);
      }
      ghost var before := Contents();
      var conn := transport.Negotiate(Link(Down(roomId, subscriber, producer), producers[producer].tracks));
      var key := (subscriber, producer);
      if key in subscribers {
        transport.Close(subscribers[key]);
        assert ConnsAt(before, {key}) == {subscribers[key]};
      } else {
        assert ConnsAt(before, {key}) == {};
        assert transport.net.open - {} == transport.net.open;
      }
      subscribers := subscribers[key := conn];
      return None;
    }

    method RemovePeer(transport: Transport, peer: string)
      modifies this, transport
      ensures (Contents(), transport.net) == PeerRemoved(old(Contents()), old(transport.net), peer)
    {
      DropProducer(transport, peer);
      CloseSubscriptions(transport, BySubscriber(Room(producers, subscribers), peer));
    }
  }

  class SfuRegistry {
    var rooms: map<string, SfuRoom>

    /** The rooms and the connections are those of `s`. */
    ghost predicate Mirrors(transport: Transport, s: State)
      reads this, transport, set r | r in rooms :: rooms[r]
    {
      && rooms.Keys == s.rooms.Keys && transport.net == s.net
      && forall r :: r in rooms ==> rooms[r].roomId == r && rooms[r].Contents() == s.rooms[r]
    }

    constructor ()
      ensures rooms == map[]
    {
      rooms := map[];
    }

    method GetOrCreate(roomId: string) returns (room: SfuRoom)
      modifies this
      ensures rooms == old(rooms)[roomId := room]
      ensures if roomId in old(rooms) then room == old(rooms)[roomId]
              else fresh(room) && room.roomId == roomId && room.Contents() == EMPTY_ROOM
    {
      if roomId in rooms {
        return rooms[roomId];
      }
      room := new SfuRoom(roomId);
      rooms := rooms[roomId := room];
    }

    /** SFU_PUBLISH: the room is created if need be, then the peer publishes in it. */
    method Publish(transport: Transport, roomId: string, peer: string, tracks: seq<Track>, ghost s: State)
      requires Mirrors(transport, s)
      modifies this, transport, set r | r in rooms :: rooms[r]
      ensures Mirrors(transport, Next(s, Step.Publish(roomId, peer, tracks)))
    {
      var room := GetOrCreate(roomId);
      room.AddPublisher(transport, peer, tracks);
    }

    /** SFU_SUBSCRIBE: only to somebody who publishes in the room. */
    method Subscribe(transport: Transport, roomId: string, subscriber: string, producer: string, ghost s: State)
      returns (error: Option<Error>)
      requires Mirrors(transport, s)
      modifies transport, set r | r in rooms :: rooms[r]
      ensures error == if producer in RoomOf(s, roomId).producers then None else Some(NoProducer)
      ensures Mirrors(transport, Next(s, Step.Subscribe(roomId, subscriber, producer)))
    {
      if roomId !in rooms || producer !in rooms[roomId].producers {
        return Some(NoProducer);
      }
      error := rooms[roomId].Subscribe(transport, subscriber, producer);
    }

    method RemovePeer(transport: Transport, roomId: string, peer: string, ghost s: State)
      requires Mirrors(transport, s)
      modifies this, transport, set r | r in rooms :: rooms[r]
      ensures Mirrors(transport, Next(s, Step.RemovePeer(roomId, peer)))
    {
      if roomId !in rooms {
        return;
      }
      var room := rooms[roomId];
      room.RemovePeer(transport, peer);
      ghost var (r, net) := PeerRemoved(s.rooms[roomId], s.net, peer);
      CollectIfEmpty(transport, roomId, State(s.rooms[roomId := r], net));
    }

    method CollectIfEmpty(transport: Transport, roomId: string, ghost s: State)
      requires Mirrors(transport, s) && roomId in rooms
      modifies this
      ensures IsEmpty(s.rooms[roomId]) ==> Mirrors(transport, s.(rooms := s.rooms - {roomId}))
      ensures !IsEmpty(s.rooms[roomId]) ==> Mirrors(transport, s)
    {
      var room := rooms[roomId];
      assert Room(room.producers, room.subscribers) == s.rooms[roomId];
      if |room.producers| == 0 && |room.subscribers| == 0 {
        rooms := rooms - {roomId};
      }
    }
  }

  lemma InhabitedPairs(s: set<(string, string)>)
    ensures s == {} || exists k :: k in s
  {
    assert (forall k :: k !in s) ==> s == {};
  }

  lemma ConnsGrow(r: Room, keys: set<(string, string)>, key: (string, string))
    requires key in r.subscribers
    ensures ConnsAt(r, keys + {key}) == ConnsAt(r, keys) + {r.subscribers[key]}
  {
  }
}
