/** Every segment keeps the membership invariant; what follows for whole runs. */
module MembershipProofs {
  import opened Wrappers
  import opened Protocol
  import opened ClientView
  import opened Membership

  // ---------- one segment at a time ----------

  /** Every empty room still has a check owed by somebody other than `c`. */
  ghost predicate EmptyOwedByOthers(s: State, c: ConnId) {
    forall r :: EmptyRoom(s, r) ==> OwedByOther(s, c, r)
  }

  ghost predicate OwedByOther(s: State, c: ConnId, r: string)
    requires EmptyRoom(s, r)
  {
    exists d :: d in s.conns && d != c && s.conns[d].phase.Leaving? && s.conns[d].phase.room == s.registered[r]
                && s.conns[d].phase.leftRoom == r
  }

  lemma NoEntryUnlessSeated(s: State, c: ConnId)
    requires Seats(s) && c in s.conns && !Seated(s.conns[c])
    ensures forall ref, p :: ref in s.rooms && p in s.rooms[ref] ==> s.rooms[ref][p] != c
  {
    forall ref, p | ref in s.rooms && p in s.rooms[ref]
      ensures s.rooms[ref][p] != c
    {
      assert Owned(s, ref, p);
    }
  }

  lemma LookupRoomSeats(s: State, roomId: string)
    requires Registry(s) && Seats(s)
    ensures var t := LookupRoom(s, roomId);
      && Registry(t) && Seats(t)
      && t.conns == s.conns && roomId in t.registered && t.registered[roomId] in t.rooms
      && (forall q :: q != roomId && EmptyRoom(t, q) ==> EmptyRoom(s, q) && t.registered[q] == s.registered[q])
  {
    var t := LookupRoom(s, roomId);
    if roomId !in s.registered {
      forall ref, p | ref in t.rooms && p in t.rooms[ref]
        ensures Owned(t, ref, p)
      {
        assert Owned(s, ref, p);
      }
      forall c | c in t.conns && Seated(t.conns[c])
        ensures Placed(t, c)
      {
        assert Placed(s, c);
      }
    }
  }

  lemma LookupRoomViews(known: set<string>, s: State, roomId: string)
    requires Registry(s) && Seats(s) && Views(known, s)
    ensures Views(known, LookupRoom(s, roomId))
  {
    var t := LookupRoom(s, roomId);
    LookupRoomSeats(s, roomId);
    forall c | c in t.conns && t.conns[c].open && Seated(t.conns[c])
      ensures Placed(t, c) && ViewRight(known, t, c)
    {
      assert Placed(s, c) && ViewRight(known, s, c) && Fellows(t, c) == Fellows(s, c);
      forall p | p in Fellows(t, c) && p !in Knows(known, t, c)
        ensures Unannounced(t, c, p)
      {
        assert Unannounced(s, c, p);
      }
    }
  }

  lemma SeatAdded(s: State, c: ConnId, roomId: string, peerId: string)
    requires Registry(s) && Seats(s)
    requires c in s.conns && !Seated(s.conns[c]) && peerId != "" && Unused(s, roomId, peerId)
    requires roomId in s.registered
    ensures var t := BeginJoin(s, c, roomId, peerId); Registry(t) && Seats(t)
  {
    var t := BeginJoin(s, c, roomId, peerId);
    var home := s.registered[roomId];
    NoEntryUnlessSeated(s, c);
    assert Placed(t, c);
    forall d | d in t.conns && Seated(t.conns[d])
      ensures Placed(t, d)
    {
      if d != c {
        assert Placed(s, d);
      }
    }
    forall ref, p | ref in t.rooms && p in t.rooms[ref]
      ensures Owned(t, ref, p)
    {
      if ref != home || p != peerId {
        assert Owned(s, ref, p);
      }
    }
  }

  lemma ViewsAfterJoin(known: set<string>, s: State, c: ConnId, roomId: string, peerId: string)
    requires Registry(s) && Seats(s) && Views(known, s)
    requires c in s.conns && !Seated(s.conns[c]) && peerId != "" && Unused(s, roomId, peerId)
    requires roomId in s.registered
    ensures Views(known, BeginJoin(s, c, roomId, peerId))
  {
    var t := BeginJoin(s, c, roomId, peerId);
    var home := s.registered[roomId];
    SeatAdded(s, c, roomId, peerId);
    forall d | d in t.conns && t.conns[d].open && Seated(t.conns[d])
      ensures Placed(t, d) && ViewRight(known, t, d)
    {
      assert Placed(t, d);
      if d == c {
        ViewSend(known, s.conns[c].outbox, Peers(OthersIn(s.rooms[home], peerId)));
        assert "" !in s.rooms[home];
        assert Fellows(t, c) == OthersIn(s.rooms[home], peerId);
      } else {
        assert Placed(s, d) && ViewRight(known, s, d);
        forall p | p in Fellows(t, d) && p !in Knows(known, t, d)
          ensures Unannounced(t, d, p)
        {
          if p in Fellows(s, d) {
            assert Unannounced(s, d, p);
            NoEntryUnlessSeated(s, c);
          }
        }
      }
    }
  }

  lemma JoinSeats(s: State, c: ConnId, roomId: string, peerId: string)
    requires Registry(s) && Seats(s) && c in s.conns && EmptyOwedByOthers(s, c)
    requires !Seated(s.conns[c]) && roomId != "" && peerId != "" && Unused(s, roomId, peerId)
    ensures Structure(BeginJoin(s, c, roomId, peerId))
  {
    var t := LookupRoom(s, roomId);
    LookupRoomSeats(s, roomId);
    SeatAdded(t, c, roomId, peerId);
    var u := BeginJoin(s, c, roomId, peerId);
    assert u == BeginJoin(t, c, roomId, peerId);
    forall r | EmptyRoom(u, r)
      ensures RecheckOwed(u, r, u.registered[r])
    {
      JoinOwes(s, t, c, roomId, peerId, r);
    }
  }

  lemma JoinOwes(s: State, t: State, c: ConnId, roomId: string, peerId: string, r: string)
    requires c in s.conns && EmptyOwedByOthers(s, c)
    requires t.conns == s.conns && roomId in t.registered && t.registered[roomId] in t.rooms
    requires r != roomId && EmptyRoom(t, r) ==> EmptyRoom(s, r) && t.registered[r] == s.registered[r]
    requires EmptyRoom(BeginJoin(t, c, roomId, peerId), r)
    ensures RecheckOwed(BeginJoin(t, c, roomId, peerId), r, t.registered[r])
  {
    var u := BeginJoin(t, c, roomId, peerId);
    assert peerId in u.rooms[t.registered[roomId]];
    assert EmptyRoom(t, r) && OwedByOther(s, c, r);
    var d :| d in s.conns && d != c && s.conns[d].phase.Leaving? && s.conns[d].phase.room == s.registered[r]
             && s.conns[d].phase.leftRoom == r;
    assert u.conns[d] == s.conns[d];
  }

  lemma JoinKeeps(known: set<string>, s: State, c: ConnId, roomId: string, peerId: string)
    requires Registry(s) && Seats(s) && Views(known, s) && c in s.conns && EmptyOwedByOthers(s, c)
    requires !Seated(s.conns[c]) && roomId != "" && peerId != "" && Unused(s, roomId, peerId)
    ensures Inv(known, BeginJoin(s, c, roomId, peerId))
  {
    var t := LookupRoom(s, roomId);
    JoinSeats(s, c, roomId, peerId);
    LookupRoomSeats(s, roomId);
    LookupRoomViews(known, s, roomId);
    ViewsAfterJoin(known, t, c, roomId, peerId);
    assert BeginJoin(s, c, roomId, peerId) == BeginJoin(t, c, roomId, peerId);
  }

  lemma IdleOwesNothing(s: State, c: ConnId)
    requires EmptyOwed(s) && c in s.conns && !s.conns[c].phase.Leaving?
    ensures EmptyOwedByOthers(s, c)
  {
    forall r | EmptyRoom(s, r)
      ensures OwedByOther(s, c, r)
    {
      assert RecheckOwed(s, r, s.registered[r]);
    }
  }

  /** A change to one unseated connection's phase or room id that leaves others' checks owed. */
  lemma UnseatedSeats(s: State, c: ConnId, k: Conn)
    requires Registry(s) && Seats(s) && c in s.conns && EmptyOwedByOthers(s, c)
    requires !Seated(s.conns[c]) && !Seated(k) && !k.phase.Joining? && Resumable(k.phase)
    ensures Structure(s.(conns := s.conns[c := k]))
  {
    var t := s.(conns := s.conns[c := k]);
    NoEntryUnlessSeated(s, c);
    forall d | d in t.conns && Seated(t.conns[d])
      ensures Placed(t, d)
    {
      assert Placed(s, d);
    }
    forall ref, p | ref in t.rooms && p in t.rooms[ref]
      ensures Owned(t, ref, p)
    {
      assert Owned(s, ref, p);
    }
    forall r | EmptyRoom(t, r)
      ensures RecheckOwed(t, r, t.registered[r])
    {
      assert EmptyRoom(s, r) && OwedByOther(s, c, r);
      var d :| d in s.conns && d != c && s.conns[d].phase.Leaving? && s.conns[d].phase.room == s.registered[r]
               && s.conns[d].phase.leftRoom == r;
      assert t.conns[d] == s.conns[d];
    }
  }

  lemma UnseatedKeeps(known: set<string>, s: State, c: ConnId, k: Conn)
    requires Registry(s) && Seats(s) && Views(known, s) && c in s.conns && EmptyOwedByOthers(s, c)
    requires !Seated(s.conns[c]) && !Seated(k) && !k.phase.Joining? && Resumable(k.phase)
    ensures Inv(known, s.(conns := s.conns[c := k]))
  {
    var t := s.(conns := s.conns[c := k]);
    UnseatedSeats(s, c, k);
    NoEntryUnlessSeated(s, c);
    forall d | d in t.conns && t.conns[d].open && Seated(t.conns[d])
      ensures Placed(t, d) && ViewRight(known, t, d)
    {
      assert Placed(s, d) && ViewRight(known, s, d);
      forall p | p in Fellows(t, d) && p !in Knows(known, t, d)
        ensures Unannounced(t, d, p)
      {
        assert Unannounced(s, d, p);
      }
    }
  }

  lemma FinishLeaveKeeps(known: set<string>, s: State, c: ConnId, resume: Resume)
    requires Registry(s) && Seats(s) && Views(known, s) && c in s.conns && EmptyOwedByOthers(s, c)
    requires !Seated(s.conns[c])
    requires resume.ThenJoin? ==>
               resume.roomId != "" && resume.peerId != "" && Unused(s, resume.roomId, resume.peerId)
    ensures Inv(known, FinishLeave(s, c, resume))
  {
    match resume
    case ThenForget => UnseatedKeeps(known, s, c, s.conns[c].(roomId := None, phase := Idle));
    case ThenDone => UnseatedKeeps(known, s, c, s.conns[c].(phase := Done));
    case ThenJoin(roomId, peerId) => JoinKeeps(known, s, c, roomId, peerId);
  }

  /** Collecting an empty room discharges the caller's check and disturbs nobody. */
  lemma CollectSeats(s: State, c: ConnId)
    requires Structure(s) && c in s.conns && s.conns[c].phase.Leaving?
    ensures var t := CollectIfEmpty(s, s.conns[c].phase.room, s.conns[c].phase.leftRoom);
      Registry(t) && Seats(t) && EmptyOwedByOthers(t, c) && t.conns == s.conns
  {
    var phase := s.conns[c].phase;
    var t := CollectIfEmpty(s, phase.room, phase.leftRoom);
    forall d | d in t.conns && Seated(t.conns[d])
      ensures Placed(t, d)
    {
      assert Placed(s, d);
    }
    forall ref, p | ref in t.rooms && p in t.rooms[ref]
      ensures Owned(t, ref, p)
    {
      assert Owned(s, ref, p);
      assert Placed(s, s.rooms[ref][p]);
    }
    forall r | EmptyRoom(t, r)
      ensures OwedByOther(t, c, r)
    {
      assert EmptyRoom(s, r) && RecheckOwed(s, r, s.registered[r]);
    }
  }

  lemma CollectKeeps(known: set<string>, s: State, c: ConnId)
    requires Inv(known, s) && c in s.conns && s.conns[c].phase.Leaving?
    ensures var t := CollectIfEmpty(s, s.conns[c].phase.room, s.conns[c].phase.leftRoom);
      Registry(t) && Seats(t) && Views(known, t) && EmptyOwedByOthers(t, c) && t.conns == s.conns
  {
    var t := CollectIfEmpty(s, s.conns[c].phase.room, s.conns[c].phase.leftRoom);
    CollectSeats(s, c);
    forall d | d in t.conns && t.conns[d].open && Seated(t.conns[d])
      ensures Placed(t, d) && ViewRight(known, t, d)
    {
      assert Placed(t, d) && Placed(s, d) && ViewRight(known, s, d);
      forall p | p in Fellows(t, d) && p !in Knows(known, t, d)
        ensures Unannounced(t, d, p)
      {
        assert Unannounced(s, d, p);
      }
    }
  }

  /** Two states that differ at most in outboxes and in which sockets are open. */
  ghost predicate SameSeats(s: State, t: State) {
    && t.rooms == s.rooms && t.registered == s.registered && t.nextRef == s.nextRef
    && t.conns.Keys == s.conns.Keys
    && forall c :: c in s.conns ==> SameSeat(s.conns[c], t.conns[c])
  }

  lemma SameSeatsKeep(s: State, t: State)
    requires Structure(s) && SameSeats(s, t)
    ensures Structure(t)
  {
    forall d | d in t.conns && Seated(t.conns[d])
      ensures Placed(t, d)
    {
      assert SameSeat(s.conns[d], t.conns[d]) && Placed(s, d);
    }
    forall ref, p | ref in t.rooms && p in t.rooms[ref]
      ensures Owned(t, ref, p)
    {
      assert Owned(s, ref, p);
    }
    forall r | EmptyRoom(t, r)
      ensures RecheckOwed(t, r, t.registered[r])
    {
      assert EmptyRoom(s, r);
      var d :| d in s.conns && s.conns[d].phase.Leaving? && s.conns[d].phase.room == s.registered[r]
               && s.conns[d].phase.leftRoom == r;
      assert SameSeat(s.conns[d], t.conns[d]);
    }
  }

  lemma SameSeatsView(known: set<string>, s: State, t: State, c: ConnId)
    requires SameSeats(s, t) && c in s.conns && Placed(s, c) && ViewRight(known, s, c)
    requires Knows(known, t, c) == Knows(known, s, c)
    ensures Placed(t, c) && ViewRight(known, t, c)
  {
    assert SameSeat(s.conns[c], t.conns[c]);
    assert Fellows(t, c) == Fellows(s, c);
    forall p | p in Fellows(t, c) && p !in Knows(known, t, c)
      ensures Unannounced(t, c, p)
    {
      assert Unannounced(s, c, p);
    }
  }

  lemma SendSameSeats(s: State, targets: set<ConnId>, e: Envelope)
    ensures SameSeats(s, s.(conns := Send(s.conns, targets, e)))
  {
  }

  lemma QuietView(known: set<string>, s: State, targets: set<ConnId>, e: Envelope, d: ConnId)
    requires d in s.conns && Placed(s, d) && ViewRight(known, s, d) && (e.Relayed? || e.Notice?)
    ensures var t := s.(conns := Send(s.conns, targets, e)); Placed(t, d) && ViewRight(known, t, d)
  {
    SendSameSeats(s, targets, e);
    ViewSend(known, s.conns[d].outbox, e);
    SameSeatsView(known, s, s.(conns := Send(s.conns, targets, e)), d);
  }

  /** A frame that is not about membership changes nobody's seat and nobody's view. */
  lemma QuietSendKeeps(known: set<string>, s: State, targets: set<ConnId>, e: Envelope)
    requires Inv(known, s) && (e.Relayed? || e.Notice?)
    ensures Inv(known, s.(conns := Send(s.conns, targets, e)))
  {
    var t := s.(conns := Send(s.conns, targets, e));
    SendSameSeats(s, targets, e);
    SameSeatsKeep(s, t);
    forall d | d in t.conns && t.conns[d].open && Seated(t.conns[d])
      ensures Placed(t, d) && ViewRight(known, t, d)
    {
      assert Placed(s, d) && ViewRight(known, s, d);
      QuietView(known, s, targets, e, d);
    }
  }

  lemma NoticeKeeps(known: set<string>, s: State, c: ConnId, code: string)
    requires Inv(known, s) && c in s.conns
    ensures Inv(known, s.(conns := s.conns[c := Receives(s.conns[c], Notice(code))]))
  {
    QuietSendKeeps(known, s, {c}, Notice(code));
    assert s.conns[c := Receives(s.conns[c], Notice(code))] == Send(s.conns, {c}, Notice(code));
  }

  /** In a sound state a broadcast reaches exactly the seated members of the room, minus one id. */
  lemma TargetsAreMembers(s: State, ref: RoomRef, except: string, d: ConnId)
    requires Seats(s) && ref in s.rooms && d in s.conns
    ensures d in Targets(s.rooms[ref], except) <==>
              Seated(s.conns[d]) && Placed(s, d) && s.registered[s.conns[d].roomId.value] == ref
              && s.conns[d].peerId != except
  {
    if d in Targets(s.rooms[ref], except) {
      var p :| p in s.rooms[ref] && p != except && s.rooms[ref][p] == d;
      assert Owned(s, ref, p);
    }
  }

  lemma TargetsRemoved(m: Members, peerId: string)
    ensures Targets(RemoveMember(m, peerId), peerId) == Targets(m, peerId)
  {
    var left := RemoveMember(m, peerId);
    forall d | d in Targets(m, peerId)
      ensures d in Targets(left, peerId)
    {
      var p :| p in m && p != peerId && m[p] == d;
      assert p in left && left[p] == d;
    }
    forall d | d in Targets(left, peerId)
      ensures d in Targets(m, peerId)
    {
      var p :| p in left && p != peerId && left[p] == d;
      assert p in m && m[p] == d;
    }
  }

  lemma IdleAgainSeats(s: State, c: ConnId)
    requires Structure(s) && c in s.conns && s.conns[c].phase.Joining?
    ensures Structure(s.(conns := s.conns[c := s.conns[c].(phase := Idle)]))
  {
    var t := s.(conns := s.conns[c := s.conns[c].(phase := Idle)]);
    forall d | d in t.conns && Seated(t.conns[d])
      ensures Placed(t, d)
    {
      assert Placed(s, d);
    }
    forall ref, p | ref in t.rooms && p in t.rooms[ref]
      ensures Owned(t, ref, p)
    {
      assert Owned(s, ref, p);
    }
    forall r | EmptyRoom(t, r)
      ensures RecheckOwed(t, r, t.registered[r])
    {
      assert EmptyRoom(s, r);
      var d :| d in s.conns && s.conns[d].phase.Leaving? && s.conns[d].phase.room == s.registered[r]
               && s.conns[d].phase.leftRoom == r;
      assert t.conns[d] == s.conns[d];
    }
  }

  lemma AnnounceSeats(s: State, c: ConnId)
    requires Structure(s) && Enabled(s, Announce(c))
    ensures Structure(Next(s, Announce(c)))
  {
    var t := Next(s, Announce(c));
    var u := s.(conns := s.conns[c := s.conns[c].(phase := Idle)]);
    IdleAgainSeats(s, c);
    forall d | d in s.conns
      ensures d in u.conns && d in t.conns && SameSeat(u.conns[d], t.conns[d])
    {
    }
    SameSeatsKeep(u, t);
  }

  lemma AnnouncedView(known: set<string>, s: State, c: ConnId, d: ConnId)
    requires Inv(known, s) && Enabled(s, Announce(c))
    requires d in s.conns && s.conns[d].open && Seated(s.conns[d])
    requires Placed(Next(s, Announce(c)), d)
    ensures ViewRight(known, Next(s, Announce(c)), d)
  {
    var t, k := Next(s, Announce(c)), s.conns[c];
    assert Placed(s, c) && Placed(s, d) && ViewRight(known, s, d);
    assert k.peerId != "" by {
      assert Owned(s, k.phase.room, k.peerId);
    }
    TargetsAreMembers(s, k.phase.room, k.peerId, d);
    ViewSend(known, s.conns[d].outbox, PeerJoined(k.peerId));
    assert Fellows(t, d) == Fellows(s, d);
    forall p | p in Fellows(t, d) && p !in Knows(known, t, d)
      ensures Unannounced(t, d, p)
    {
      assert Unannounced(s, d, p);
    }
  }

  lemma AnnounceKeeps(known: set<string>, s: State, c: ConnId)
    requires Inv(known, s) && Enabled(s, Announce(c))
    ensures Inv(known, Next(s, Announce(c)))
  {
    var t := Next(s, Announce(c));
    AnnounceSeats(s, c);
    forall d | d in t.conns && t.conns[d].open && Seated(t.conns[d])
      ensures Placed(t, d) && ViewRight(known, t, d)
    {
      assert Placed(t, d);
      AnnouncedView(known, s, c, d);
    }
  }

  /** The state with c's seat vacated, before anybody is told. */
  function Vacated(s: State, c: ConnId, resume: Resume): State
    requires c in s.conns && Placed(s, c)
  {
    var k := s.conns[c];
    var home := s.registered[k.roomId.value];
    s.(rooms := s.rooms[home := RemoveMember(s.rooms[home], k.peerId)],
       conns := s.conns[c := k.(phase := Leaving(home, k.roomId.value, resume))])
  }

  lemma VacatedSeats(s: State, c: ConnId, resume: Resume)
    requires Structure(s) && c in s.conns && s.conns[c].phase.Idle? && Placed(s, c)
    requires resume.ThenJoin? ==> resume.roomId != "" && resume.peerId != ""
    ensures Structure(Vacated(s, c, resume))
  {
    var k, t := s.conns[c], Vacated(s, c, resume);
    forall d | d in t.conns && Seated(t.conns[d])
      ensures Placed(t, d)
    {
      assert Placed(s, d);
    }
    forall ref, p | ref in t.rooms && p in t.rooms[ref]
      ensures Owned(t, ref, p)
    {
      assert Owned(s, ref, p);
    }
    VacatedOwes(s, c, resume);
  }

  lemma VacatedOwes(s: State, c: ConnId, resume: Resume)
    requires Registry(s) && EmptyOwed(s) && c in s.conns && s.conns[c].phase.Idle? && Placed(s, c)
    ensures EmptyOwed(Vacated(s, c, resume))
  {
    var k, t := s.conns[c], Vacated(s, c, resume);
    forall r | EmptyRoom(t, r)
      ensures RecheckOwed(t, r, t.registered[r])
    {
      if r == k.roomId.value {
        assert t.conns[c].phase == Leaving(s.registered[r], r, resume);
      } else {
        assert EmptyRoom(s, r);
        var d :| d in s.conns && s.conns[d].phase.Leaving? && s.conns[d].phase.room == s.registered[r]
                 && s.conns[d].phase.leftRoom == r;
        assert t.conns[d] == s.conns[d];
      }
    }
  }

  function LeaveOwn(s: State, c: ConnId, resume: Resume): State
    requires c in s.conns && s.conns[c].roomId.Some?
  {
    BeginLeave(s, c, s.conns[c].roomId.value, s.conns[c].peerId, resume)
  }

  /** Telling the others moves nobody. */
  lemma LeaveOwnTells(s: State, c: ConnId, resume: Resume)
    requires c in s.conns && Placed(s, c)
    ensures SameSeats(Vacated(s, c, resume), LeaveOwn(s, c, resume))
  {
    var v, t := Vacated(s, c, resume), LeaveOwn(s, c, resume);
    forall d | d in s.conns
      ensures d in v.conns && d in t.conns && SameSeat(v.conns[d], t.conns[d])
    {
    }
  }

  lemma LeaveOwnSeats(s: State, c: ConnId, resume: Resume)
    requires Structure(s) && c in s.conns && s.conns[c].phase.Idle? && s.conns[c].roomId.Some?
    requires resume.ThenJoin? ==> resume.roomId != "" && resume.peerId != ""
    ensures Structure(LeaveOwn(s, c, resume))
    ensures Placed(s, c) && SameSeats(Vacated(s, c, resume), LeaveOwn(s, c, resume))
  {
    assert Placed(s, c);
    LeaveOwnTells(s, c, resume);
    VacatedSeats(s, c, resume);
    SameSeatsKeep(Vacated(s, c, resume), LeaveOwn(s, c, resume));
  }

  /** What the departure of `c` does to the outbox of another connection. */
  lemma DepartureHeard(known: set<string>, s: State, c: ConnId, resume: Resume, d: ConnId)
    requires Registry(s) && Seats(s) && c in s.conns && Placed(s, c) && d in s.conns && d != c && Placed(s, d)
    requires s.conns[d].open && Seated(s.conns[d])
    ensures Knows(known, LeaveOwn(s, c, resume), d)
         == if s.conns[d].roomId == s.conns[c].roomId
              then ApplyFrame(Knows(known, s, d), PeerLeft(s.conns[c].peerId)) else Knows(known, s, d)
  {
    var k := s.conns[c];
    var home := s.registered[k.roomId.value];
    TargetsRemoved(s.rooms[home], k.peerId);
    TargetsAreMembers(s, home, k.peerId, d);
    ViewSend(known, s.conns[d].outbox, PeerLeft(k.peerId));
  }

  /** What the departure of `c` does to the room of another connection. */
  lemma DepartedFellows(s: State, c: ConnId, resume: Resume, d: ConnId)
    requires Registry(s) && c in s.conns && Placed(s, c) && d in s.conns && d != c && Placed(s, d)
    requires var t := LeaveOwn(s, c, resume); SameSeats(Vacated(s, c, resume), t) && Placed(t, d)
    ensures Fellows(LeaveOwn(s, c, resume), d)
         == if s.conns[d].roomId == s.conns[c].roomId then Fellows(s, d) - {s.conns[c].peerId} else Fellows(s, d)
  {
    assert SameSeat(Vacated(s, c, resume).conns[d], LeaveOwn(s, c, resume).conns[d]);
  }

  lemma StillUnannounced(s: State, c: ConnId, resume: Resume, d: ConnId, p: string)
    requires Registry(s) && c in s.conns && s.conns[c].phase.Idle? && Placed(s, c)
    requires d in s.conns && d != c && Placed(s, d)
    requires var t := LeaveOwn(s, c, resume); SameSeats(Vacated(s, c, resume), t) && Placed(t, d)
    requires Unannounced(s, d, p) && p in Fellows(LeaveOwn(s, c, resume), d)
    ensures Unannounced(LeaveOwn(s, c, resume), d, p)
  {
    var t, v := LeaveOwn(s, c, resume), Vacated(s, c, resume);
    var e := s.rooms[s.registered[s.conns[d].roomId.value]][p];
    assert SameSeat(v.conns[d], t.conns[d]) && SameSeat(v.conns[e], t.conns[e]);
  }

  lemma DepartedView(known: set<string>, s: State, c: ConnId, resume: Resume, d: ConnId)
    requires Inv(known, s) && c in s.conns && s.conns[c].phase.Idle? && Placed(s, c)
    requires d in s.conns && d != c && s.conns[d].open && Seated(s.conns[d])
    requires var t := LeaveOwn(s, c, resume); SameSeats(Vacated(s, c, resume), t) && Placed(t, d)
    ensures ViewRight(known, LeaveOwn(s, c, resume), d)
  {
    var t := LeaveOwn(s, c, resume);
    assert Placed(s, d) && ViewRight(known, s, d);
    assert Owned(s, s.registered[s.conns[c].roomId.value], s.conns[c].peerId);
    DepartureHeard(known, s, c, resume, d);
    DepartedFellows(s, c, resume, d);
    forall p | p in Fellows(t, d) && p !in Knows(known, t, d)
      ensures Unannounced(t, d, p)
    {
      StillUnannounced(s, c, resume, d, p);
    }
  }

  lemma BeginLeaveKeeps(known: set<string>, s: State, c: ConnId, resume: Resume)
    requires Inv(known, s) && c in s.conns && s.conns[c].phase.Idle? && s.conns[c].roomId.Some?
    requires resume.ThenJoin? ==> resume.roomId != "" && resume.peerId != ""
    ensures Inv(known, LeaveOwn(s, c, resume))
  {
    LeaveOwnSeats(s, c, resume);
    var t := LeaveOwn(s, c, resume);
    forall d | d in t.conns && t.conns[d].open && Seated(t.conns[d])
      ensures Placed(t, d) && ViewRight(known, t, d)
    {
      assert Placed(t, d) && SameSeat(Vacated(s, c, resume).conns[d], t.conns[d]);
      DepartedView(known, s, c, resume, d);
    }
  }

  lemma RelayKeeps(known: set<string>, s: State, c: ConnId, frame: Payload)
    requires Inv(known, s) && c in s.conns
    ensures Inv(known, RelayFrame(s, c, frame))
  {
    var k := s.conns[c];
    if k.roomId.None? {
      NoticeKeeps(known, s, c, "NOT_JOINED");
    } else if !Relayable(frame) {
      NoticeKeeps(known, s, c, "MISSING_FIELD");
    } else if k.roomId.value !in s.registered || s.registered[k.roomId.value] !in s.rooms {
      NoticeKeeps(known, s, c, "ROOM_NOT_FOUND");
    } else {
      var m, to := s.rooms[s.registered[k.roomId.value]], frame[TO].text;
      if to !in m || m[to] !in s.conns || !s.conns[m[to]].open {
        NoticeKeeps(known, s, c, "PEER_NOT_FOUND");
      } else {
        QuietSendKeeps(known, s, {m[to]}, Relayed(RelayedWire(frame, k.peerId, to)));
      }
    }
  }

  lemma CloseKeeps(known: set<string>, s: State, c: ConnId)
    requires Inv(known, s) && c in s.conns
    ensures Inv(known, s.(conns := s.conns[c := s.conns[c].(open := false)]))
  {
    var t := s.(conns := s.conns[c := s.conns[c].(open := false)]);
    forall d | d in s.conns
      ensures d in t.conns && SameSeat(s.conns[d], t.conns[d])
    {
    }
    SameSeatsKeep(s, t);
    forall d | d in t.conns && t.conns[d].open && Seated(t.conns[d])
      ensures Placed(t, d) && ViewRight(known, t, d)
    {
      assert Placed(s, d) && ViewRight(known, s, d);
      SameSeatsView(known, s, t, d);
    }
  }

  lemma ConnectKeeps(known: set<string>, s: State, c: ConnId)
    requires Inv(known, s) && c !in s.conns
    ensures Inv(known, Next(s, Connect(c)))
  {
    var t := Next(s, Connect(c));
    forall d | d in t.conns && Seated(t.conns[d])
      ensures Placed(t, d)
    {
      assert Placed(s, d);
    }
    forall ref, p | ref in t.rooms && p in t.rooms[ref]
      ensures Owned(t, ref, p)
    {
      assert Owned(s, ref, p);
    }
    forall r | EmptyRoom(t, r)
      ensures RecheckOwed(t, r, t.registered[r])
    {
      assert EmptyRoom(s, r) && RecheckOwed(s, r, s.registered[r]);
      var d :| d in s.conns && s.conns[d].phase.Leaving? && s.conns[d].phase.room == s.registered[r]
               && s.conns[d].phase.leftRoom == r;
      assert t.conns[d] == s.conns[d];
    }
    forall d | d in t.conns && t.conns[d].open && Seated(t.conns[d])
      ensures Placed(t, d) && ViewRight(known, t, d)
    {
      assert Placed(s, d) && ViewRight(known, s, d);
      forall p | p in Fellows(t, d) && p !in Knows(known, t, d)
        ensures Unannounced(t, d, p)
      {
        assert Unannounced(s, d, p);
      }
    }
  }

  /** Every polite step, by any connection at any time, keeps the whole invariant. */
  lemma NextKeeps(known: set<string>, s: State, step: Step)
    requires Inv(known, s) && Enabled(s, step) && Polite(s, step)
    ensures Inv(known, Next(s, step))
  {
    match step
    case Connect(c) => ConnectKeeps(known, s, c);
    case JoinRequest(c, roomId, peerId) =>
      if roomId == "" || peerId == "" {
        NoticeKeeps(known, s, c, "MISSING_FIELD");
      } else if s.conns[c].roomId.Some? {
        BeginLeaveKeeps(known, s, c, ThenJoin(roomId, peerId));
      } else {
        IdleOwesNothing(s, c);
        JoinKeeps(known, s, c, roomId, peerId);
      }
    case LeaveRequest(c, _, _) =>
      if s.conns[c].roomId.Some? {
        BeginLeaveKeeps(known, s, c, ThenForget);
      } else {
        NoticeKeeps(known, s, c, "NOT_JOINED");
      }
    case Announce(c) => AnnounceKeeps(known, s, c);
    case Recheck(c) =>
      CollectKeeps(known, s, c);
      var p := s.conns[c].phase;
      assert Resumable(p);
      FinishLeaveKeeps(known, CollectIfEmpty(s, p.room, p.leftRoom), c, p.resume);
    case RelayRequest(c, frame) => RelayKeeps(known, s, c, frame);
    case Close(c) => CloseKeeps(known, s, c);
    case Hangup(c) =>
      if s.conns[c].roomId.Some? {
        BeginLeaveKeeps(known, s, c, ThenDone);
      } else {
        IdleOwesNothing(s, c);
        UnseatedKeeps(known, s, c, s.conns[c].(phase := Done));
      }
  }

  lemma OnlyConnectAdds(s: State, step: Step, d: ConnId)
    requires Enabled(s, step) && d !in s.conns && d in Next(s, step).conns
    ensures step == Connect(d)
  {
  }

  // ---------- whole runs ----------

  /** The steps can be taken one after the other from `s`, each politely. */
  predicate Run(s: State, steps: seq<Step>)
    decreases |steps|, 0
  {
    steps == []
    || (Run(s, steps[..|steps| - 1])
        && Enabled(Exec(s, steps[..|steps| - 1]), steps[|steps| - 1])
        && Polite(Exec(s, steps[..|steps| - 1]), steps[|steps| - 1]))
  }

  function Exec(s: State, steps: seq<Step>): State
    requires Run(s, steps)
    decreases |steps|, 1
  {
    if steps == [] then s else Next(Exec(s, steps[..|steps| - 1]), steps[|steps| - 1])
  }

  lemma {:induction false} RunKeeps(known: set<string>, steps: seq<Step>)
    requires Run(INITIAL, steps)
    ensures Inv(known, Exec(INITIAL, steps))
    decreases |steps|
  {
    if steps != [] {
      RunKeeps(known, steps[..|steps| - 1]);
      NextKeeps(known, Exec(INITIAL, steps[..|steps| - 1]), steps[|steps| - 1]);
    }
  }

  /** No handler is in the middle of anything. */
  predicate Quiet(s: State) {
    forall c :: c in s.conns ==> s.conns[c].phase.Idle? || s.conns[c].phase.Done?
  }

  /** Whatever the interleaving: a view never holds a stranger and lacks only unannounced arrivals. */
  lemma ViewsConverge(known: set<string>, steps: seq<Step>, c: ConnId)
    requires Run(INITIAL, steps)
    requires var s := Exec(INITIAL, steps); c in s.conns && s.conns[c].open && Seated(s.conns[c])
    ensures var s := Exec(INITIAL, steps);
      && Placed(s, c)
      && Knows(known, s, c) <= Fellows(s, c)
      && (forall p :: p in Fellows(s, c) && p !in Knows(known, s, c) ==> Unannounced(s, c, p))
      && (Quiet(s) ==> Knows(known, s, c) == Fellows(s, c))
  {
    RunKeeps(known, steps);
    var s := Exec(INITIAL, steps);
    assert Placed(s, c) && ViewRight(known, s, c);
    if Quiet(s) {
      forall p | p in Fellows(s, c)
        ensures p in Knows(known, s, c)
      {
        var m := s.rooms[s.registered[s.conns[c].roomId.value]];
        assert m[p] in s.conns ==> !s.conns[m[p]].phase.Joining?;
      }
    }
  }

  /** A peer that joined and has not left is found in the room now registered under its room id. */
  lemma SeatedIsRegistered(steps: seq<Step>, c: ConnId)
    requires Run(INITIAL, steps)
    requires var s := Exec(INITIAL, steps); c in s.conns && Seated(s.conns[c])
    ensures Placed(Exec(INITIAL, steps), c)
  {
    RunKeeps({}, steps);
  }

  /** A registered room is empty only while a leave of it owes its check; at rest none is empty. */
  lemma EmptyRoomsAreOwed(steps: seq<Step>, r: string)
    requires Run(INITIAL, steps) && r in Exec(INITIAL, steps).registered
    ensures var s := Exec(INITIAL, steps);
      && s.registered[r] in s.rooms
      && (s.rooms[s.registered[r]] == map[] ==> RecheckOwed(s, r, s.registered[r]))
      && (Quiet(s) ==> s.rooms[s.registered[r]] != map[])
  {
    RunKeeps({}, steps);
    var s := Exec(INITIAL, steps);
    if s.rooms[s.registered[r]] == map[] {
      assert EmptyRoom(s, r);
    }
  }
}
