/**
 The forwarding rooms of server/sfu_room.py and server/sfu_registry.py. A connection is a
 number; the transport records what each open connection was made for and what it sends.
 Every operation is one atomic step that succeeds, as when calls do not overlap.
 */
module Sfu {
  import opened Wrappers

  type ConnId = nat
  type Track = nat

  datatype Slot =
    | Up(roomId: string, peer: string)
    | Down(roomId: string, subscriber: string, producer: string)

  datatype Link = Link(slot: Slot, tracks: seq<Track>)

  datatype Net = Net(open: map<ConnId, Link>, next: ConnId)

  datatype Producer = Producer(conn: ConnId, tracks: seq<Track>)

  datatype Room = Room(producers: map<string, Producer>, subscribers: map<(string, string), ConnId>)

  datatype Error = NoProducer

  const EMPTY_ROOM := Room(map[], map[])

  // ---------- one room ----------

  predicate IsEmpty(r: Room) {
    r.producers == map[] && r.subscribers == map[]
  }

  function ToProducer(r: Room, peer: string): set<(string, string)> {
    set k | k in r.subscribers && k.1 == peer
  }

  function BySubscriber(r: Room, peer: string): set<(string, string)> {
    set k | k in r.subscribers && k.0 == peer
  }

  function ConnsAt(r: Room, keys: set<(string, string)>): set<ConnId> {
    set k | k in keys && k in r.subscribers :: r.subscribers[k]
  }

  function Upstream(r: Room, peer: string): set<ConnId> {
    if peer in r.producers then {r.producers[peer].conn} else {}
  }

  function Unsubscribed(r: Room, keys: set<(string, string)>): Room {
    r.(subscribers := r.subscribers - keys)
  }

  function WithoutProducer(r: Room, peer: string): Room {
    Room(r.producers - {peer}, r.subscribers - ToProducer(r, peer))
  }

  function Closed(net: Net, conns: set<ConnId>): Net {
    net.(open := net.open - conns)
  }

  function NetWithoutProducer(r: Room, net: Net, peer: string): Net {
    Closed(net, Upstream(r, peer) + ConnsAt(r, ToProducer(r, peer)))
  }

  function Opened(net: Net, link: Link): Net {
    Net(net.open[net.next := link], net.next + 1)
  }

  function Published(r: Room, net: Net, roomId: string, peer: string, tracks: seq<Track>): (Room, Net) {
    var up := Producer(net.next, tracks);
    var grown := Opened(net, Link(Up(roomId, peer), []));
    if peer in r.producers
    then (WithoutProducer(r, peer).(producers := r.producers[peer := up]), NetWithoutProducer(r, grown, peer))
    else (r.(producers := r.producers[peer := up]), grown)
  }

  function Subscribed(r: Room, net: Net, roomId: string, subscriber: string, producer: string): (Room, Net)
    requires producer in r.producers
  {
    var key := (subscriber, producer);
    var grown := Opened(net, Link(Down(roomId, subscriber, producer), r.producers[producer].tracks));
    (r.(subscribers := r.subscribers[key := net.next]), Closed(grown, ConnsAt(r, {key})))
  }

  function PeerRemoved(r: Room, net: Net, peer: string): (Room, Net) {
    var left := WithoutProducer(r, peer);
    var keys := BySubscriber(left, peer);
    (Unsubscribed(left, keys), Closed(NetWithoutProducer(r, net, peer), ConnsAt(left, keys)))
  }

  // ---------- the registry over whole runs ----------

  datatype State = State(rooms: map<string, Room>, net: Net)

  datatype Step =
    | Publish(roomId: string, peer: string, tracks: seq<Track>)
    | Subscribe(roomId: string, subscriber: string, producer: string)
    | RemovePeer(roomId: string, peer: string)
    | Shutdown

  function RoomOf(s: State, roomId: string): Room {
    if roomId in s.rooms then s.rooms[roomId] else EMPTY_ROOM
  }

  function AllConns(r: Room): set<ConnId> {
    (set p | p in r.producers :: r.producers[p].conn) + ConnsAt(r, r.subscribers.Keys)
  }

  function Next(s: State, step: Step): State {
    match step
    case Publish(roomId, peer, tracks) =>
      var (r, net) := Published(RoomOf(s, roomId), s.net, roomId, peer, tracks);
      State(s.rooms[roomId := r], net)
    case Subscribe(roomId, subscriber, producer) =>
      if producer !in RoomOf(s, roomId).producers then s
      else
        var (r, net) := Subscribed(RoomOf(s, roomId), s.net, roomId, subscriber, producer);
        State(s.rooms[roomId := r], net)
    case RemovePeer(roomId, peer) =>
      if roomId !in s.rooms then s
      else
        var (r, net) := PeerRemoved(s.rooms[roomId], s.net, peer);
        State(if IsEmpty(r) then s.rooms - {roomId} else s.rooms[roomId := r], net)
    case Shutdown =>
      State(map[], Closed(s.net, set roomId, c | roomId in s.rooms && c in AllConns(s.rooms[roomId]) :: c))
  }

  function Run(steps: seq<Step>): State {
    if steps == [] then State(map[], Net(map[], 0)) else Next(Run(steps[..|steps| - 1]), steps[|steps| - 1])
  }

  /** The connection the registry keeps for a slot. */
  function At(s: State, slot: Slot): Option<ConnId> {
    var r := RoomOf(s, slot.roomId);
    match slot
    case Up(_, peer) => if peer in r.producers then Some(r.producers[peer].conn) else None
    case Down(_, sub, prod) => if (sub, prod) in r.subscribers then Some(r.subscribers[(sub, prod)]) else None
  }

  /** Open connections and filled slots correspond one to one. */
  ghost predicate Accounted(s: State) {
    && (forall c :: c in s.net.open ==> At(s, s.net.open[c].slot) == Some(c))
    && (forall slot :: At(s, slot).Some? ==>
          At(s, slot).value in s.net.open && s.net.open[At(s, slot).value].slot == slot)
    && forall c :: c in s.net.open ==> c < s.net.next
  }

  predicate Forwards(s: State, c: ConnId)
    requires c in s.net.open
  {
    var link := s.net.open[c];
    link.slot.Down? ==>
      var r := RoomOf(s, link.slot.roomId);
      link.slot.producer in r.producers && link.tracks == r.producers[link.slot.producer].tracks
  }

  /** Every subscription has its producer present and carries that producer's present tracks. */
  ghost predicate Current(s: State) {
    forall c :: c in s.net.open ==> Forwards(s, c)
  }

  ghost predicate NoEmptyRooms(s: State) {
    forall roomId :: roomId in s.rooms ==> !IsEmpty(s.rooms[roomId])
  }

  ghost predicate Inv(s: State) {
    Accounted(s) && Current(s) && NoEmptyRooms(s)
  }

  /** The slots a step empties before it fills its own. */
  predicate Empties(step: Step, slot: Slot) {
    match step
    case Publish(roomId, peer, _) =>
      slot == Up(roomId, peer) || (slot.Down? && slot.roomId == roomId && slot.producer == peer)
    case Subscribe(roomId, sub, prod) => slot == Down(roomId, sub, prod)
    case RemovePeer(roomId, peer) =>
      && slot.roomId == roomId
      && (slot == Up(roomId, peer) || (slot.Down? && (slot.subscriber == peer || slot.producer == peer)))
    case Shutdown => true
  }

  predicate Succeeds(s: State, step: Step) {
    step.Subscribe? ==> step.producer in RoomOf(s, step.roomId).producers
  }

  function Opens(s: State, step: Step): map<ConnId, Link> {
    match step
    case Publish(roomId, peer, _) => map[s.net.next := Link(Up(roomId, peer), [])]
    case Subscribe(roomId, sub, prod) =>
      var producers := RoomOf(s, roomId).producers;
      map[s.net.next := Link(Down(roomId, sub, prod), if prod in producers then producers[prod].tracks else [])]
    case _ => map[]
  }

  /** What stays open when exactly the emptied slots' connections are closed. */
  function Kept(s: State, step: Step): map<ConnId, Link> {
    map c | c in s.net.open && !Empties(step, s.net.open[c].slot) :: s.net.open[c]
  }

  /** A step closes exactly the connections of the slots it empties and opens at most its own. */
  lemma ClosesExactly(s: State, step: Step)
    requires Inv(s) && Succeeds(s, step)
    ensures Next(s, step).net.open == Kept(s, step) + Opens(s, step)
  {
    match step
    case Publish(_, _, _) => PublishCloses(s, step);
    case Subscribe(_, _, _) => SubscribeCloses(s, step);
    case RemovePeer(roomId, _) =>
      if roomId in s.rooms {
        RemoveCloses(s, step);
      } else {
        forall c | c in s.net.open
          ensures !Empties(step, s.net.open[c].slot)
        {
          assert At(s, s.net.open[c].slot) == Some(c);
        }
      }
    case Shutdown => ShutdownCloses(s);
  }

  lemma SubscribeCloses(s: State, step: Step)
    requires Accounted(s) && step.Subscribe? && Succeeds(s, step)
    ensures Next(s, step).net.open == Kept(s, step) + Opens(s, step)
  {
    var slot, open := Down(step.roomId, step.subscriber, step.producer), s.net.open;
    var replaced := ConnsAt(RoomOf(s, step.roomId), {(step.subscriber, step.producer)});
    assert forall c :: c in replaced <==> At(s, slot) == Some(c);
    assert forall c :: c in open ==> (c in replaced <==> Empties(step, open[c].slot));
    assert Kept(s, step) == open - replaced;
    OpenAndClose(open, replaced, s.net.next, Opens(s, step)[s.net.next], Kept(s, step));
  }

  lemma ShutdownCloses(s: State)
    requires Accounted(s)
    ensures Next(s, Shutdown).net.open == map[]
    ensures Kept(s, Shutdown) + Opens(s, Shutdown) == map[]
  {
    var open := s.net.open;
    var all := set roomId, c | roomId in s.rooms && c in AllConns(s.rooms[roomId]) :: c;
    forall c | c in open
      ensures c in all
    {
      assert At(s, open[c].slot) == Some(c);
      assert c in AllConns(s.rooms[open[c].slot.roomId]);
    }
  }

  lemma DownstreamConns(s: State, r: Room, roomId: string, keys: set<(string, string)>, c: ConnId)
    requires Accounted(s) && c in s.net.open && r == RoomOf(s, roomId) && keys <= r.subscribers.Keys
    ensures c in ConnsAt(r, keys) <==>
              var slot := s.net.open[c].slot;
              slot.Down? && slot.roomId == roomId && (slot.subscriber, slot.producer) in keys
  {
    if c in ConnsAt(r, keys) {
      var k :| k in keys && k in r.subscribers && r.subscribers[k] == c;
      assert At(s, Down(roomId, k.0, k.1)) == Some(c);
    }
    assert At(s, s.net.open[c].slot) == Some(c);
  }

  lemma UpstreamConn(s: State, roomId: string, peer: string, c: ConnId)
    requires Accounted(s) && c in s.net.open
    ensures c in Upstream(RoomOf(s, roomId), peer) <==> s.net.open[c].slot == Up(roomId, peer)
  {
    assert At(s, s.net.open[c].slot) == Some(c);
    if c in Upstream(RoomOf(s, roomId), peer) {
      assert At(s, Up(roomId, peer)) == Some(c);
    }
  }

  lemma GoneAreOpen(s: State, roomId: string, peer: string, c: ConnId)
    requires Accounted(s)
    requires c in Upstream(RoomOf(s, roomId), peer) + ConnsAt(RoomOf(s, roomId), ToProducer(RoomOf(s, roomId), peer))
    ensures c in s.net.open
  {
    var r := RoomOf(s, roomId);
    if c in Upstream(r, peer) {
      assert At(s, Up(roomId, peer)) == Some(c);
    } else {
      var k :| k in ToProducer(r, peer) && r.subscribers[k] == c;
      assert At(s, Down(roomId, k.0, k.1)) == Some(c);
    }
  }

  /** Opening one connection and closing others, as one change of the open connections. */
  lemma OpenAndClose(open: map<ConnId, Link>, gone: set<ConnId>, next: ConnId, link: Link, kept: map<ConnId, Link>)
    requires next !in open && gone <= open.Keys && kept == open - gone
    ensures open[next := link] - gone == kept + map[next := link]
  {
  }

  lemma PublishCloses(s: State, step: Step)
    requires Inv(s) && step.Publish?
    ensures Next(s, step).net.open == Kept(s, step) + Opens(s, step)
  {
    var r, open := RoomOf(s, step.roomId), s.net.open;
    var gone := Upstream(r, step.peer) + ConnsAt(r, ToProducer(r, step.peer));
    forall c | c in gone
      ensures c in open
    {
      GoneAreOpen(s, step.roomId, step.peer, c);
    }
    forall c | c in open
      ensures c in gone <==> Empties(step, open[c].slot)
    {
      UpstreamConn(s, step.roomId, step.peer, c);
      DownstreamConns(s, r, step.roomId, ToProducer(r, step.peer), c);
      assert At(s, open[c].slot) == Some(c) && Forwards(s, c);
    }
    assert Kept(s, step) == open - gone;
    OpenAndClose(open, gone, s.net.next, Link(Up(step.roomId, step.peer), []), Kept(s, step));
    if step.peer !in r.producers {
      assert Kept(s, step) == open;
    }
  }

  lemma RemoveCloses(s: State, step: Step)
    requires Accounted(s) && step.RemovePeer? && step.roomId in s.rooms
    ensures Next(s, step).net.open == Kept(s, step) + Opens(s, step)
  {
    var r, open := s.rooms[step.roomId], s.net.open;
    var left := WithoutProducer(r, step.peer);
    var mine := BySubscriber(left, step.peer);
    forall c | c in open
      ensures c in Upstream(r, step.peer) + ConnsAt(r, ToProducer(r, step.peer)) + ConnsAt(left, mine)
         <==> Empties(step, open[c].slot)
    {
      UpstreamConn(s, step.roomId, step.peer, c);
      DownstreamConns(s, r, step.roomId, ToProducer(r, step.peer), c);
      DownstreamConns(s, r, step.roomId, mine, c);
      assert ConnsAt(left, mine) == ConnsAt(r, mine);
      assert At(s, open[c].slot) == Some(c);
    }
  }

  predicate Fills(step: Step, slot: Slot) {
    match step
    case Publish(roomId, peer, _) => slot == Up(roomId, peer)
    case Subscribe(roomId, sub, prod) => slot == Down(roomId, sub, prod)
    case _ => false
  }

  lemma AtPublished(s: State, step: Step, slot: Slot)
    requires Inv(s) && step.Publish?
    ensures At(Next(s, step), slot) ==
            if Fills(step, slot) then Some(s.net.next) else if Empties(step, slot) then None else At(s, slot)
  {
    assert At(s, slot).Some? ==> At(s, slot).value in s.net.open && Forwards(s, At(s, slot).value);
  }

  lemma AtRemoved(s: State, step: Step, slot: Slot)
    requires step.RemovePeer?
    ensures At(Next(s, step), slot) == if Empties(step, slot) then None else At(s, slot)
  {
  }

  /** A step empties the slots it should, fills its own with the new connection, and leaves the rest. */
  lemma AtNext(s: State, step: Step, slot: Slot)
    requires Inv(s) && Succeeds(s, step)
    ensures At(Next(s, step), slot) ==
            if Fills(step, slot) then Some(s.net.next) else if Empties(step, slot) then None else At(s, slot)
  {
    match step
    case Publish(_, _, _) => AtPublished(s, step, slot);
    case RemovePeer(_, _) => AtRemoved(s, step, slot);
    case _ =>
  }

  lemma AccountedNext(s: State, step: Step)
    requires Inv(s) && Succeeds(s, step)
    ensures Accounted(Next(s, step))
  {
    var t := Next(s, step);
    ClosesExactly(s, step);
    forall c | c in t.net.open
      ensures At(t, t.net.open[c].slot) == Some(c) && c < t.net.next
    {
      AtNext(s, step, t.net.open[c].slot);
    }
    forall slot | At(t, slot).Some?
      ensures At(t, slot).value in t.net.open && t.net.open[At(t, slot).value].slot == slot
    {
      AtNext(s, step, slot);
    }
  }

  lemma CurrentNext(s: State, step: Step)
    requires Inv(s) && Succeeds(s, step)
    ensures Current(Next(s, step))
  {
    var t := Next(s, step);
    ClosesExactly(s, step);
    forall c | c in t.net.open
      ensures Forwards(t, c)
    {
      if c in Kept(s, step) {
        KeptForwards(s, step, c);
      }
    }
  }

  /** The producer of a subscription that stays is not touched by the step. */
  lemma KeptForwards(s: State, step: Step, c: ConnId)
    requires Inv(s) && Succeeds(s, step) && c in Kept(s, step) && c in Next(s, step).net.open
    requires Next(s, step).net.open[c] == s.net.open[c]
    ensures Forwards(Next(s, step), c)
  {
    assert Forwards(s, c);
    var link := s.net.open[c];
    if link.slot.Down? {
      ProducerStays(s, step, link.slot);
    }
  }

  lemma ProducerStays(s: State, step: Step, slot: Slot)
    requires slot.Down? && !Empties(step, slot) && Succeeds(s, step)
    requires slot.producer in RoomOf(s, slot.roomId).producers
    ensures slot.producer in RoomOf(Next(s, step), slot.roomId).producers
    ensures RoomOf(Next(s, step), slot.roomId).producers[slot.producer]
         == RoomOf(s, slot.roomId).producers[slot.producer]
  {
  }

  lemma NoEmptyNext(s: State, step: Step)
    requires Inv(s) && Succeeds(s, step)
    ensures NoEmptyRooms(Next(s, step))
  {
    match step
    case Publish(roomId, peer, _) => assert peer in Next(s, step).rooms[roomId].producers;
    case Subscribe(roomId, _, prod) => assert prod in Next(s, step).rooms[roomId].producers;
    case _ =>
  }

  lemma {:induction false} RunKeepsAccounts(steps: seq<Step>)
    ensures Inv(Run(steps))
  {
    if steps != [] {
      var before, last := steps[..|steps| - 1], steps[|steps| - 1];
      RunKeepsAccounts(before);
      if Succeeds(Run(before), last) {
        AccountedNext(Run(before), last);
        CurrentNext(Run(before), last);
        NoEmptyNext(Run(before), last);
      } else {
        assert Next(Run(before), last) == Run(before);
      }
    }
  }

  /** A room is registered exactly while somebody publishes in it. */
  lemma RegisteredIffPublishing(s: State, roomId: string)
    requires Inv(s)
    ensures roomId in s.rooms <==> RoomOf(s, roomId).producers != map[]
  {
    if roomId in s.rooms {
      var r := s.rooms[roomId];
      forall k | k in r.subscribers
        ensures k.1 in r.producers
      {
        assert At(s, Down(roomId, k.0, k.1)).Some?;
        assert Forwards(s, At(s, Down(roomId, k.0, k.1)).value);
      }
      assert r.producers == map[] ==> r.subscribers.Keys == {};
    }
  }

  /** Connections are left open exactly while a room is registered. */
  lemma NothingLeaks(s: State)
    requires Inv(s)
    ensures s.net.open == map[] <==> s.rooms == map[]
  {
    if s.rooms == map[] {
      assert forall c :: c in s.net.open ==> At(s, s.net.open[c].slot) == Some(c);
      assert s.net.open.Keys == {};
    }
    forall roomId | roomId in s.rooms
      ensures s.net.open != map[]
    {
      RegisteredIffPublishing(s, roomId);
      var r := s.rooms[roomId];
      assert forall p :: p in r.producers ==> At(s, Up(roomId, p)) == Some(r.producers[p].conn);
      assert r.producers.Keys != {};
    }
    assert s.rooms != map[] ==> s.rooms.Keys != {};
  }

  // ---------- who is connected, from the calls alone ----------

  /** The tracks of the peer's last publication in the room, unless it has left since or the server shut down. */
  function Playing(steps: seq<Step>, roomId: string, peer: string): Option<seq<Track>> {
    if steps == [] then None
    else
      match steps[|steps| - 1]
      case Publish(r, p, tracks) =>
        if r == roomId && p == peer then Some(tracks) else Playing(steps[..|steps| - 1], roomId, peer)
      case RemovePeer(r, p) => if r == roomId && p == peer then None else Playing(steps[..|steps| - 1], roomId, peer)
      case Subscribe(_, _, _) => Playing(steps[..|steps| - 1], roomId, peer)
      case Shutdown => None
  }

  /** `sub` subscribed to `prod` while it was playing, and since then neither has left, nor has `prod`
      published anew, nor the server shut down. */
  predicate Watching(steps: seq<Step>, roomId: string, sub: string, prod: string) {
    if steps == [] then false
    else
      var before := steps[..|steps| - 1];
      match steps[|steps| - 1]
      case Publish(r, p, _) => !(r == roomId && p == prod) && Watching(before, roomId, sub, prod)
      case Subscribe(r, a, b) =>
        (r == roomId && a == sub && b == prod && Playing(before, roomId, prod).Some?)
        || Watching(before, roomId, sub, prod)
      case RemovePeer(r, p) => !(r == roomId && (p == sub || p == prod)) && Watching(before, roomId, sub, prod)
      case Shutdown => false
  }

  lemma PlayingNext(s: State, step: Step, roomId: string, peer: string)
    ensures var was, now := RoomOf(s, roomId).producers, RoomOf(Next(s, step), roomId).producers;
      match step
      case Publish(r, p, tracks) =>
        if r == roomId && p == peer then peer in now && now[peer].tracks == tracks
        else (peer in now <==> peer in was) && (peer in was ==> now[peer] == was[peer])
      case RemovePeer(r, p) =>
        if r == roomId && p == peer then peer !in now
        else (peer in now <==> peer in was) && (peer in was ==> now[peer] == was[peer])
      case Subscribe(_, _, _) => now == was
      case Shutdown => peer !in now
  {
  }

  /** A peer is a producer exactly while it plays, with the tracks it published last. */
  lemma {:induction false} ProducerIffPlaying(steps: seq<Step>, roomId: string, peer: string)
    ensures var producers := RoomOf(Run(steps), roomId).producers;
      Playing(steps, roomId, peer) == if peer in producers then Some(producers[peer].tracks) else None
  {
    if steps != [] {
      ProducerIffPlaying(steps[..|steps| - 1], roomId, peer);
      PlayingNext(Run(steps[..|steps| - 1]), steps[|steps| - 1], roomId, peer);
    }
  }

  /** A connection is open for every peer that plays and for every one that watches, and for nobody else. */
  lemma {:induction false} ConnectedIff(steps: seq<Step>, slot: Slot)
    ensures At(Run(steps), slot).Some? <==>
              match slot
              case Up(roomId, peer) => Playing(steps, roomId, peer).Some?
              case Down(roomId, sub, prod) => Watching(steps, roomId, sub, prod)
  {
    if slot.Up? {
      ProducerIffPlaying(steps, slot.roomId, slot.peer);
    } else if steps != [] {
      var before, last := steps[..|steps| - 1], steps[|steps| - 1];
      ConnectedIff(before, slot);
      RunKeepsAccounts(before);
      ProducerIffPlaying(before, slot.roomId, slot.producer);
      if Succeeds(Run(before), last) {
        AtNext(Run(before), last, slot);
      }
    }
  }

  /** What a watcher is sent is what its producer published last. */
  lemma WatchesLastPublished(steps: seq<Step>, c: ConnId)
    requires c in Run(steps).net.open && Run(steps).net.open[c].slot.Down?
    ensures var link := Run(steps).net.open[c];
      Playing(steps, link.slot.roomId, link.slot.producer) == Some(link.tracks)
  {
    RunKeepsAccounts(steps);
    assert Forwards(Run(steps), c);
    var slot := Run(steps).net.open[c].slot;
    ProducerIffPlaying(steps, slot.roomId, slot.producer);
  }
}
