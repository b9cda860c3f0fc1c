/**
 When the frames of a broadcast go out. `Room.broadcast_except` hands its sends to one gather: they
 start in order one turn of the event loop later, the handler waits for them, and other handlers may run
 in between and send at once. `Membership` queues at the snapshot; here is the order on the wire, for any
 change of the connections that keeps to what the handlers do.
 */
module Broadcasts {
  import opened Wrappers
  import opened ClientView
  import opened Membership

  type Conns = map<ConnId, Conn>

  /** One broadcast whose sends have not started. */
  datatype Batch = Batch(src: ConnId, targets: set<ConnId>, frame: Envelope)

  /** What really went out to each connection, and the broadcasts waiting. */
  datatype Queue = Queue(wire: map<ConnId, seq<Envelope>>, tasks: seq<Batch>)

  /** What the handler of `c` does in one stretch: the connections after it, and its broadcast, to nobody
      if there is none. */
  datatype Move = Move(c: ConnId, after: Conns, targets: set<ConnId>, frame: Envelope)

  /** The handler of `c` waits for a broadcast of its own. */
  predicate Waiting(tasks: seq<Batch>, c: ConnId) {
    exists i :: 0 <= i < |tasks| && tasks[i].src == c
  }

  function NewFrames(conns: Conns, after: Conns, d: ConnId): seq<Envelope> {
    if d in conns && d in after && |conns[d].outbox| <= |after[d].outbox|
    then after[d].outbox[|conns[d].outbox|..] else []
  }

  /** The broadcast waits; all other frames go out at once. */
  function Advance(conns: Conns, q: Queue, mv: Move): Queue {
    Queue(map d | d in mv.after ::
            if d !in q.wire then []
            else if d in mv.targets then q.wire[d] else q.wire[d] + NewFrames(conns, mv.after, d),
          if mv.targets == {} then q.tasks else q.tasks + [Batch(mv.c, mv.targets, mv.frame)])
  }

  /** The oldest broadcast goes out to whoever is still open. */
  function SendOldest(conns: Conns, q: Queue): Queue
    requires q.tasks != []
  {
    var b := q.tasks[0];
    Queue(map d | d in q.wire ::
            if d in b.targets && d in conns && conns[d].open then q.wire[d] + [b.frame] else q.wire[d],
          q.tasks[1..])
  }

  /** The frames still to go out to `d`. */
  function Pending(tasks: seq<Batch>, d: ConnId): seq<Envelope> {
    if tasks == [] then []
    else Pending(tasks[..|tasks| - 1], d) + if d in tasks[|tasks| - 1].targets then [tasks[|tasks| - 1].frame] else []
  }

  lemma PendingAdd(tasks: seq<Batch>, b: Batch, d: ConnId)
    ensures Pending(tasks + [b], d) == Pending(tasks, d) + if d in b.targets then [b.frame] else []
  {
    assert (tasks + [b])[..|tasks|] == tasks;
  }

  lemma {:induction false} PendingHead(tasks: seq<Batch>, d: ConnId)
    requires tasks != []
    ensures Pending(tasks, d) == (if d in tasks[0].targets then [tasks[0].frame] else []) + Pending(tasks[1..], d)
  {
    if |tasks| > 1 {
      var last := |tasks| - 1;
      PendingHead(tasks[..last], d);
      assert tasks[..last][1..] == tasks[1..][..last - 1];
    }
  }

  /** What the client of `d` will know once everything under way has reached it. */
  function WillKnow(known: set<string>, q: Queue, d: ConnId): set<string>
    requires d in q.wire
  {
    View(known, q.wire[d] + Pending(q.tasks, d))
  }

  // ---------- what the waiting broadcasts say ----------

  predicate InRoomWith(conns: Conns, d: ConnId, c: ConnId)
    requires c in conns
  {
    d in conns && Seated(conns[d]) && conns[d].roomId == conns[c].roomId
  }

  /** `d` is leaving and its own broadcast stands behind position `i`. */
  predicate LeavesBehind(conns: Conns, tasks: seq<Batch>, i: nat, d: ConnId) {
    d in conns && conns[d].phase.Leaving? && exists j :: i < j < |tasks| && tasks[j].src == d
  }

  /** A waiting departure is that of a handler that is leaving; a waiting arrival that of a seated one, and
      goes to its fellows or to those whose own departure waits behind it. */
  predicate Apt(conns: Conns, tasks: seq<Batch>, i: nat)
    requires i < |tasks|
  {
    var b := tasks[i];
    && b.src in conns && b.targets <= conns.Keys
    && var k := conns[b.src];
       match b.frame
       case PeerLeft(q) => k.phase.Leaving? && q == k.peerId && q != ""
       case PeerJoined(q) =>
         && k.phase.Idle? && Seated(k) && q == k.peerId
         && forall d :: d in b.targets ==>
              d != b.src && (InRoomWith(conns, d, b.src) || LeavesBehind(conns, tasks, i, d))
       case _ => false
  }

  ghost predicate AllApt(conns: Conns, tasks: seq<Batch>) {
    forall i :: 0 <= i < |tasks| ==> Apt(conns, tasks, i)
  }

  /** What goes out amounts, for `d`, to the order of the snapshots. */
  ghost predicate SyncedAt(known: set<string>, conns: Conns, q: Queue, d: ConnId) {
    d in conns && d in q.wire && WillKnow(known, q, d) == View(known, conns[d].outbox)
  }

  ghost predicate Synced(known: set<string>, conns: Conns, q: Queue) {
    q.wire.Keys == conns.Keys && forall d :: d in conns && conns[d].open ==> SyncedAt(known, conns, q, d)
  }

  // ---------- what a handler does in one stretch ----------

  predicate Direct(e: Envelope) {
    !e.PeerJoined? && !e.PeerLeft?
  }

  predicate AtMostDirect(frames: seq<Envelope>) {
    frames == [] || (|frames| == 1 && Direct(frames[0]))
  }

  predicate GivesPeers(frames: seq<Envelope>) {
    frames != [] && frames[0].Peers?
  }

  /** What becomes of the connection `d`: its seat stays unless it is c's, and the frames are added. */
  predicate Touched(conns: Conns, after: Conns, c: ConnId, d: ConnId, frames: seq<Envelope>)
    requires d in conns
  {
    && d in after
    && (d != c ==> SameSeat(conns[d], after[d]) && after[d].open == conns[d].open)
    && (after[d].open ==> conns[d].open)
    && (frames != [] ==> after[d].open == conns[d].open)
    && after[d].outbox == if conns[d].open then conns[d].outbox + frames else conns[d].outbox
  }

  ghost predicate HasSeat(conns: Conns, id: string) {
    exists c :: c in conns && Seated(conns[c]) && conns[c].peerId == id
  }

  /** PEERS goes only to the acting connection, when it has no seat, and names only seated ones. */
  ghost predicate PeersFit(conns: Conns, c: ConnId, d: ConnId, frames: seq<Envelope>)
    requires d in conns
  {
    GivesPeers(frames) ==> d == c && !Seated(conns[d]) && forall id :: id in frames[0].ids ==> HasSeat(conns, id)
  }

  ghost predicate TouchedDirectly(conns: Conns, after: Conns, c: ConnId, d: ConnId)
    requires d in conns
  {
    exists frames :: AtMostDirect(frames) && Touched(conns, after, c, d, frames) && PeersFit(conns, c, d, frames)
  }

  ghost predicate Told(conns: Conns, mv: Move, d: ConnId)
    requires d in conns
  {
    if d in mv.targets then Touched(conns, mv.after, mv.c, d, [mv.frame])
    else TouchedDirectly(conns, mv.after, mv.c, d)
  }

  /** A broadcast goes to fellows and is the departure of the leaving or the arrival of the seated. */
  predicate Announces(conns: Conns, mv: Move) {
    && mv.c in conns && mv.c in mv.after
    && (forall d :: d in mv.targets ==> d != mv.c && InRoomWith(conns, d, mv.c))
    && var k := mv.after[mv.c];
       match mv.frame
       case PeerLeft(q) => k.phase.Leaving? && q == k.peerId && q != ""
       case PeerJoined(q) => k.phase.Idle? && Seated(k) && q == k.peerId && k.roomId == conns[mv.c].roomId
       case _ => false
  }

  /** A seated connection keeps its seat, or leaves and tells all its fellows. */
  ghost predicate StaysOrTells(conns: Conns, mv: Move)
    requires mv.c in conns
  {
    && mv.c in mv.after
    && var k, l := conns[mv.c], mv.after[mv.c];
       || (Seated(l) && l.roomId == k.roomId && l.peerId == k.peerId)
       || (l.phase.Leaving? && forall d :: d in conns && d != mv.c && Seated(conns[d]) && conns[d].roomId == k.roomId
                                           ==> d in mv.targets)
  }

  predicate KeepsSeat(conns: Conns, mv: Move) {
    mv.c in conns ==> mv.c in mv.after && SameSeat(conns[mv.c], mv.after[mv.c])
  }

  /** A new socket or a closing one: nothing that a waiting handler would have to do. */
  predicate Silent(conns: Conns, mv: Move) {
    KeepsSeat(conns, mv) && mv.targets == {} && NewFrames(conns, mv.after, mv.c) == []
  }

  ghost predicate Proper(conns: Conns, mv: Move) {
    && (forall d :: d in conns ==> Told(conns, mv, d))
    && (forall d :: d in mv.after && d !in conns ==> mv.after[d].outbox == [])
    && (mv.targets != {} ==> Announces(conns, mv))
    && (mv.c in conns && Seated(conns[mv.c]) ==> StaysOrTells(conns, mv))
  }

  /** The handler is free to move. */
  predicate Free(conns: Conns, q: Queue, mv: Move) {
    !Waiting(q.tasks, mv.c) || Silent(conns, mv)
  }

  // ---------- the waiting broadcasts stay apt ----------

  lemma OtherSeatStays(conns: Conns, mv: Move, d: ConnId)
    requires Proper(conns, mv) && d in conns && (d != mv.c || KeepsSeat(conns, mv))
    ensures d in mv.after && SameSeat(conns[d], mv.after[d])
  {
    assert Told(conns, mv, d);
  }

  /** The target of a waiting arrival that moves itself. */
  lemma OwnTarget(conns: Conns, q: Queue, mv: Move, i: nat, src: ConnId)
    requires src in conns && src != mv.c && Seated(conns[src]) && InRoomWith(conns, mv.c, src)
    requires src in mv.after && SameSeat(conns[src], mv.after[src]) && StaysOrTells(conns, mv) && i < |q.tasks|
    ensures InRoomWith(mv.after, mv.c, src) || LeavesBehind(mv.after, Advance(conns, q, mv).tasks, i, mv.c)
  {
    if mv.after[mv.c].phase.Leaving? {
      var tasks := Advance(conns, q, mv).tasks;
      assert src in mv.targets;
      assert tasks[|q.tasks|].src == mv.c;
    }
  }

  lemma OtherTarget(conns: Conns, q: Queue, mv: Move, i: nat, d: ConnId)
    requires Proper(conns, mv) && i < |q.tasks| && Apt(conns, q.tasks, i) && q.tasks[i].frame.PeerJoined?
    requires d in q.tasks[i].targets && q.tasks[i].src in mv.after
    requires SameSeat(conns[q.tasks[i].src], mv.after[q.tasks[i].src])
    requires d in mv.after && SameSeat(conns[d], mv.after[d])
    ensures var b := q.tasks[i];
      InRoomWith(mv.after, d, b.src) || LeavesBehind(mv.after, Advance(conns, q, mv).tasks, i, d)
  {
    var tasks := Advance(conns, q, mv).tasks;
    if LeavesBehind(conns, q.tasks, i, d) {
      var j :| i < j < |q.tasks| && q.tasks[j].src == d;
      assert tasks[j].src == d;
    }
  }

  lemma OldBatchStaysApt(conns: Conns, q: Queue, mv: Move, i: nat)
    requires Proper(conns, mv) && Free(conns, q, mv) && i < |q.tasks| && Apt(conns, q.tasks, i)
    ensures Apt(mv.after, Advance(conns, q, mv).tasks, i)
  {
    var tasks, b := Advance(conns, q, mv).tasks, q.tasks[i];
    assert tasks[i] == b;
    OtherSeatStays(conns, mv, b.src);
    forall d | d in b.targets
      ensures d in mv.after
      ensures b.frame.PeerJoined? ==> InRoomWith(mv.after, d, b.src) || LeavesBehind(mv.after, tasks, i, d)
    {
      assert Told(conns, mv, d);
      if b.frame.PeerJoined? {
        if d != mv.c || KeepsSeat(conns, mv) {
          OtherSeatStays(conns, mv, d);
          OtherTarget(conns, q, mv, i, d);
        } else {
          assert !LeavesBehind(conns, q.tasks, i, d);
          OwnTarget(conns, q, mv, i, b.src);
        }
      }
    }
  }

  lemma NewBatchIsApt(conns: Conns, q: Queue, mv: Move)
    requires Proper(conns, mv) && mv.targets != {}
    ensures Apt(mv.after, Advance(conns, q, mv).tasks, |q.tasks|)
  {
    forall d | d in mv.targets
      ensures d in mv.after && d != mv.c && SameSeat(conns[d], mv.after[d])
    {
      OtherSeatStays(conns, mv, d);
    }
  }

  lemma AdvanceKeepsApt(conns: Conns, q: Queue, mv: Move)
    requires Proper(conns, mv) && Free(conns, q, mv) && AllApt(conns, q.tasks)
    ensures AllApt(mv.after, Advance(conns, q, mv).tasks)
  {
    var tasks := Advance(conns, q, mv).tasks;
    forall i | 0 <= i < |tasks|
      ensures Apt(mv.after, tasks, i)
    {
      if i < |q.tasks| {
        OldBatchStaysApt(conns, q, mv, i);
      } else {
        NewBatchIsApt(conns, q, mv);
      }
    }
  }

  lemma SendingKeepsApt(conns: Conns, q: Queue)
    requires q.tasks != [] && AllApt(conns, q.tasks)
    ensures AllApt(conns, q.tasks[1..])
  {
    var tasks, rest := q.tasks, q.tasks[1..];
    forall i | 0 <= i < |rest|
      ensures Apt(conns, rest, i)
    {
      assert Apt(conns, tasks, i + 1) && rest[i] == tasks[i + 1];
      forall d | LeavesBehind(conns, tasks, i + 1, d)
        ensures LeavesBehind(conns, rest, i, d)
      {
        var j :| i + 1 < j < |tasks| && tasks[j].src == d;
        assert rest[j - 1].src == d;
      }
    }
  }

  // ---------- frames that jump the queue ----------

  lemma {:induction false} PendingIsFrom(tasks: seq<Batch>, d: ConnId, e: Envelope)
    ensures e in Pending(tasks, d) <==> exists i :: 0 <= i < |tasks| && d in tasks[i].targets && tasks[i].frame == e
  {
    if tasks != [] {
      var last := |tasks| - 1;
      PendingIsFrom(tasks[..last], d, e);
      assert forall i :: 0 <= i < last ==> tasks[..last][i] == tasks[i];
    }
  }

  predicate AllDepartures(frames: seq<Envelope>) {
    forall e :: e in frames ==> e.PeerLeft?
  }

  function Departed(frames: seq<Envelope>): set<string> {
    set e | e in frames && e.PeerLeft? :: e.id
  }

  /** A PEERS frame that overtakes departures loses the departed. */
  lemma {:induction false} PeersOvertake(known: set<string>, w: seq<Envelope>, ids: set<string>, p: seq<Envelope>)
    requires AllDepartures(p)
    ensures View(known, w + [Peers(ids)] + p) == ids - {""} - Departed(p)
  {
    if p == [] {
      assert w + [Peers(ids)] + p == w + [Peers(ids)];
      ViewSend(known, w, Peers(ids));
    } else {
      var before, last := p[..|p| - 1], p[|p| - 1];
      PeersOvertake(known, w, ids, before);
      ViewSend(known, w + [Peers(ids)] + before, last);
      assert w + [Peers(ids)] + before + [last] == w + [Peers(ids)] + p;
      assert p == before + [last] && last in p;
      assert Departed(p) == Departed(before) + {last.id};
    }
  }

  /** Notices and relayed frames may overtake anything. */
  lemma {:induction false} NeutralOvertakes(known: set<string>, w: seq<Envelope>, e: Envelope, p: seq<Envelope>)
    requires e.Notice? || e.Relayed?
    ensures View(known, w + [e] + p) == View(known, w + p)
  {
    if p == [] {
      assert w + [e] + p == w + [e] && w + p == w;
      ViewSend(known, w, e);
    } else {
      var before, last := p[..|p| - 1], p[|p| - 1];
      NeutralOvertakes(known, w, e, before);
      ViewSend(known, w + [e] + before, last);
      ViewSend(known, w + before, last);
      assert w + [e] + before + [last] == w + [e] + p && w + before + [last] == w + p;
    }
  }

  /** No arrival waits for a connection that is about to take a seat. */
  lemma OnlyDeparturesWait(conns: Conns, tasks: seq<Batch>, c: ConnId)
    requires AllApt(conns, tasks) && c in conns && !Seated(conns[c]) && !Waiting(tasks, c)
    ensures AllDepartures(Pending(tasks, c))
  {
    forall e | e in Pending(tasks, c)
      ensures e.PeerLeft?
    {
      PendingIsFrom(tasks, c, e);
      var i :| 0 <= i < |tasks| && c in tasks[i].targets && tasks[i].frame == e;
      assert Apt(conns, tasks, i);
    }
  }

  /** The PEERS frame of a move, if it sends one, names nobody whose departure still waits for the same
      connection. */
  predicate Discreet(conns: Conns, q: Queue, mv: Move) {
    var frames := NewFrames(conns, mv.after, mv.c);
    GivesPeers(frames) ==>
      forall i :: 0 <= i < |q.tasks| && mv.c in q.tasks[i].targets && q.tasks[i].frame.PeerLeft? ==>
        q.tasks[i].frame.id !in frames[0].ids
  }

  lemma ViewsGrowAlike(known: set<string>, w: seq<Envelope>, p: seq<Envelope>, outbox: seq<Envelope>, e: Envelope)
    requires View(known, w + p) == View(known, outbox)
    ensures View(known, w + (p + [e])) == View(known, outbox + [e])
  {
    ViewSend(known, w + p, e);
    ViewSend(known, outbox, e);
    assert w + p + [e] == w + (p + [e]);
  }

  lemma TargetSynced(known: set<string>, conns: Conns, q: Queue, mv: Move, d: ConnId)
    requires d in conns && conns[d].open && Told(conns, mv, d) && d in mv.targets && SyncedAt(known, conns, q, d)
    ensures SyncedAt(known, mv.after, Advance(conns, q, mv), d)
  {
    PendingAdd(q.tasks, Batch(mv.c, mv.targets, mv.frame), d);
    ViewsGrowAlike(known, q.wire[d], Pending(q.tasks, d), conns[d].outbox, mv.frame);
  }

  /** What a move leaves pending for a connection it does not broadcast to, and what it sends there. */
  lemma Bystander(conns: Conns, q: Queue, mv: Move, d: ConnId)
    requires d in conns && conns[d].open && Told(conns, mv, d) && d in q.wire && d !in mv.targets
    ensures var next, frames := Advance(conns, q, mv), NewFrames(conns, mv.after, d);
      && Pending(next.tasks, d) == Pending(q.tasks, d)
      && d in mv.after && d in next.wire && next.wire[d] == q.wire[d] + frames
      && mv.after[d].outbox == conns[d].outbox + frames
      && AtMostDirect(frames) && PeersFit(conns, mv.c, d, frames)
      && (frames != [] ==> mv.after[d].open)
  {
    PendingAdd(q.tasks, Batch(mv.c, mv.targets, mv.frame), d);
  }

  lemma BystanderSynced(known: set<string>, conns: Conns, q: Queue, mv: Move, d: ConnId)
    requires d in conns && conns[d].open && Told(conns, mv, d) && d !in mv.targets && SyncedAt(known, conns, q, d)
    requires !GivesPeers(NewFrames(conns, mv.after, d))
    ensures SyncedAt(known, mv.after, Advance(conns, q, mv), d)
  {
    var w, p, outbox, frames := q.wire[d], Pending(q.tasks, d), conns[d].outbox, NewFrames(conns, mv.after, d);
    Bystander(conns, q, mv, d);
    if frames == [] {
      assert w + [] == w && outbox + [] == outbox;
    } else {
      assert frames == [frames[0]];
      NeutralOvertakes(known, w, frames[0], p);
      ViewSend(known, outbox, frames[0]);
    }
  }

  /** A PEERS frame leaves the connection with a right picture exactly when it names nobody whose
      departure is still to reach that connection. */
  lemma PeersRightIff(known: set<string>, conns: Conns, q: Queue, mv: Move)
    requires mv.c in conns && conns[mv.c].open && Told(conns, mv, mv.c) && mv.c !in mv.targets
    requires AllApt(conns, q.tasks) && !Waiting(q.tasks, mv.c) && SyncedAt(known, conns, q, mv.c)
    requires GivesPeers(NewFrames(conns, mv.after, mv.c))
    ensures SyncedAt(known, mv.after, Advance(conns, q, mv), mv.c) <==> Discreet(conns, q, mv)
  {
    var c := mv.c;
    var w, p, outbox, frames := q.wire[c], Pending(q.tasks, c), conns[c].outbox, NewFrames(conns, mv.after, c);
    Bystander(conns, q, mv, c);
    OnlyDeparturesWait(conns, q.tasks, c);
    var ids := frames[0].ids;
    assert frames == [Peers(ids)];
    PeersOvertake(known, w, ids, p);
    ViewSend(known, outbox, Peers(ids));
    DepartedAre(conns, q.tasks, c, ids);
  }

  lemma DepartedAre(conns: Conns, tasks: seq<Batch>, c: ConnId, ids: set<string>)
    requires AllApt(conns, tasks)
    ensures ids - {""} - Departed(Pending(tasks, c)) == ids - {""}
       <==> forall i :: 0 <= i < |tasks| && c in tasks[i].targets && tasks[i].frame.PeerLeft? ==>
              tasks[i].frame.id !in ids
  {
    var p := Pending(tasks, c);
    forall i | 0 <= i < |tasks| && c in tasks[i].targets && tasks[i].frame.PeerLeft?
      ensures tasks[i].frame.id in Departed(p) && tasks[i].frame.id != ""
    {
      PendingIsFrom(tasks, c, tasks[i].frame);
      assert Apt(conns, tasks, i);
    }
    forall id | id in Departed(p)
      ensures exists i :: 0 <= i < |tasks| && c in tasks[i].targets && tasks[i].frame == PeerLeft(id)
    {
      PendingIsFrom(tasks, c, PeerLeft(id));
    }
  }

  // ---------- every change ----------

  lemma NewcomerSynced(known: set<string>, conns: Conns, q: Queue, mv: Move, d: ConnId)
    requires Proper(conns, mv) && AllApt(conns, q.tasks) && q.wire.Keys == conns.Keys
    requires d in mv.after && d !in conns
    ensures SyncedAt(known, mv.after, Advance(conns, q, mv), d)
  {
    var tasks := Advance(conns, q, mv).tasks;
    var p := Pending(tasks, d);
    assert |p| > 0 ==> p[0] in p;
    forall i | 0 <= i < |tasks|
      ensures d !in tasks[i].targets
    {
      if i < |q.tasks| {
        assert Apt(conns, q.tasks, i);
      }
    }
    forall e
      ensures e !in p
    {
      PendingIsFrom(tasks, d, e);
    }
  }

  lemma OldSynced(known: set<string>, conns: Conns, q: Queue, mv: Move, d: ConnId)
    requires d in conns && conns[d].open && Told(conns, mv, d) && SyncedAt(known, conns, q, d)
    requires AllApt(conns, q.tasks) && Free(conns, q, mv) && Discreet(conns, q, mv)
    ensures SyncedAt(known, mv.after, Advance(conns, q, mv), d)
  {
    if d in mv.targets {
      TargetSynced(known, conns, q, mv, d);
    } else if GivesPeers(NewFrames(conns, mv.after, d)) {
      Bystander(conns, q, mv, d);
      PeersRightIff(known, conns, q, mv);
    } else {
      BystanderSynced(known, conns, q, mv, d);
    }
  }

  lemma AdvanceKeepsSynced(known: set<string>, conns: Conns, q: Queue, mv: Move)
    requires Proper(conns, mv) && AllApt(conns, q.tasks) && Free(conns, q, mv) && Discreet(conns, q, mv)
    requires Synced(known, conns, q)
    ensures Synced(known, mv.after, Advance(conns, q, mv))
  {
    forall d | d in mv.after && mv.after[d].open
      ensures SyncedAt(known, mv.after, Advance(conns, q, mv), d)
    {
      if d in conns {
        assert Told(conns, mv, d);
        OldSynced(known, conns, q, mv, d);
      } else {
        NewcomerSynced(known, conns, q, mv, d);
      }
    }
    AllStay(conns, q, mv);
  }

  lemma AllStay(conns: Conns, q: Queue, mv: Move)
    requires Proper(conns, mv)
    ensures Advance(conns, q, mv).wire.Keys == mv.after.Keys
  {
  }

  lemma Regroup(a: seq<Envelope>, b: seq<Envelope>, c: seq<Envelope>)
    ensures a + b + c == a + (b + c)
  {
  }

  lemma SendingSyncedAt(known: set<string>, conns: Conns, q: Queue, d: ConnId)
    requires q.tasks != [] && d in conns && conns[d].open && SyncedAt(known, conns, q, d)
    ensures SyncedAt(known, conns, SendOldest(conns, q), d)
  {
    var b, next := q.tasks[0], SendOldest(conns, q);
    var w, rest := q.wire[d], Pending(q.tasks[1..], d);
    PendingHead(q.tasks, d);
    if d in b.targets {
      Regroup(w, [b.frame], rest);
      assert next.wire[d] == w + [b.frame];
    } else {
      assert [] + rest == rest && next.wire[d] == w;
    }
  }

  lemma SendingKeepsSynced(known: set<string>, conns: Conns, q: Queue)
    requires q.tasks != [] && Synced(known, conns, q)
    ensures Synced(known, conns, SendOldest(conns, q))
  {
    forall d | d in conns && conns[d].open
      ensures SyncedAt(known, conns, SendOldest(conns, q), d)
    {
      SendingSyncedAt(known, conns, q, d);
    }
  }

  /** A move that is not discreet leaves its connection with a wrong picture. */
  lemma IndiscreetUnsynced(known: set<string>, conns: Conns, q: Queue, mv: Move)
    requires Proper(conns, mv) && AllApt(conns, q.tasks) && Free(conns, q, mv) && Synced(known, conns, q)
    requires !Discreet(conns, q, mv)
    ensures !Synced(known, mv.after, Advance(conns, q, mv))
  {
    var c := mv.c;
    assert Told(conns, mv, c);
    PeersFrame(conns, mv);
    assert SyncedAt(known, conns, q, c);
    PeersRightIff(known, conns, q, mv);
  }

  lemma PeersFrame(conns: Conns, mv: Move)
    requires mv.c in conns && Told(conns, mv, mv.c) && GivesPeers(NewFrames(conns, mv.after, mv.c))
    requires mv.targets != {} ==> Announces(conns, mv)
    ensures conns[mv.c].open && mv.c !in mv.targets
    ensures mv.c in mv.after && mv.after[mv.c].open
    ensures PeersFit(conns, mv.c, mv.c, NewFrames(conns, mv.after, mv.c))
  {
  }

  /** With no seated connection under the id of a leaving one every move is discreet. */
  lemma UnsharedIsDiscreet(conns: Conns, q: Queue, mv: Move)
    requires Proper(conns, mv) && AllApt(conns, q.tasks) && NoSharedName(conns)
    ensures Discreet(conns, q, mv)
  {
    var frames, c := NewFrames(conns, mv.after, mv.c), mv.c;
    if GivesPeers(frames) {
      assert Told(conns, mv, c);
      PeersFrame(conns, mv);
      forall i | 0 <= i < |q.tasks| && c in q.tasks[i].targets && q.tasks[i].frame.PeerLeft?
        ensures q.tasks[i].frame.id !in frames[0].ids
      {
        assert Apt(conns, q.tasks, i);
      }
    }
  }

  /** No seated connection goes by the id of one that is leaving. */
  ghost predicate NoSharedName(conns: Conns) {
    forall c, d :: c in conns && d in conns && Seated(conns[c]) && conns[d].phase.Leaving? ==>
      conns[c].peerId != conns[d].peerId
  }
}
