/**
 The local message cache of app/db/messages_cache.py: two tables as maps, the statements with
 their SQL meaning, and paging by the `before_msg_id` cursor.
 */
module MessagesCache {
  import opened FiniteSets
  import opened Wrappers

  datatype Row = Row(roomId: int, senderId: int, kind: string, body: Option<string>, tsMs: int)

  datatype Span = Span(low: int, high: int)

  datatype Db = Db(messages: map<int, Row>, sync: map<int, Span>)

  datatype Error = NegativeMsgId | BadRoomId | BadSenderId | BadKind | BadLimit

  const MAX_LIMIT := 200

  // ---------- inserts, deletes and the index ----------

  function Check(msgId: int, row: Row): Option<Error> {
    if msgId < 0 then Some(NegativeMsgId)
    else if row.roomId <= 0 then Some(BadRoomId)
    else if row.senderId <= 0 then Some(BadSenderId)
    else if row.kind !in ["text", "file", "system"] then Some(BadKind)
    else None
  }

  function Widened(sync: map<int, Span>, roomId: int, msgId: int): map<int, Span> {
    if msgId <= 0 then sync
    else if roomId !in sync then sync[roomId := Span(msgId, msgId)]
    else
      var s := sync[roomId];
      sync[roomId := Span(if msgId < s.low then msgId else s.low, if msgId > s.high then msgId else s.high)]
  }

  /** INSERT OR IGNORE, then the upsert, which runs even when the row was ignored. */
  function Inserted(db: Db, msgId: int, row: Row): Db {
    Db(if msgId in db.messages then db.messages else db.messages[msgId := row],
       Widened(db.sync, row.roomId, msgId))
  }

  function RowsOf(messages: map<int, Row>, roomId: int): set<int> {
    set id | id in messages && messages[id].roomId == roomId
  }

  function RoomDeleted(db: Db, roomId: int): Db {
    Db(db.messages - RowsOf(db.messages, roomId), db.sync - {roomId})
  }

  /** `msgId` is a cached server id of the room. */
  predicate Holds(db: Db, roomId: int, msgId: int) {
    msgId > 0 && msgId in db.messages && db.messages[msgId].roomId == roomId
  }

  ghost predicate RoomIndexed(db: Db, roomId: int) {
    if roomId in db.sync
    then
      && Holds(db, roomId, db.sync[roomId].low) && Holds(db, roomId, db.sync[roomId].high)
      && forall id :: Holds(db, roomId, id) ==> db.sync[roomId].low <= id <= db.sync[roomId].high
    else forall id :: !Holds(db, roomId, id)
  }

  /** For every room the index holds exactly the least and the greatest cached id. */
  ghost predicate IndexExact(db: Db) {
    forall roomId :: RoomIndexed(db, roomId)
  }

  predicate Outside(db: Db, roomId: int, msgId: int) {
    roomId in db.sync ==> msgId < db.sync[roomId].low || msgId > db.sync[roomId].high
  }

  lemma InsertKeepsRoom(db: Db, msgId: int, row: Row, roomId: int)
    requires RoomIndexed(db, roomId)
    requires
      || msgId <= 0 || msgId !in db.messages
      || db.messages[msgId].roomId == row.roomId || !Outside(db, row.roomId, msgId)
    ensures RoomIndexed(Inserted(db, msgId, row), roomId)
  {
    var after := Inserted(db, msgId, row);
    assert forall id :: id != msgId ==> (Holds(after, roomId, id) <==> Holds(db, roomId, id));
    if msgId in db.messages {
      assert Holds(after, roomId, msgId) <==> Holds(db, roomId, msgId);
    } else {
      assert Holds(after, roomId, msgId) <==> roomId == row.roomId && msgId > 0;
    }
  }

  /** The index goes wrong exactly when an id cached for one room arrives for another and moves its bounds. */
  lemma InsertKeepsIndexIff(db: Db, msgId: int, row: Row)
    requires IndexExact(db)
    ensures IndexExact(Inserted(db, msgId, row))
       <==> !(msgId > 0 && msgId in db.messages && db.messages[msgId].roomId != row.roomId
              && Outside(db, row.roomId, msgId))
  {
    var after := Inserted(db, msgId, row);
    assert RoomIndexed(db, row.roomId);
    if msgId > 0 && msgId in db.messages && db.messages[msgId].roomId != row.roomId && Outside(db, row.roomId, msgId) {
      assert !RoomIndexed(after, row.roomId);
    } else {
      forall roomId
        ensures RoomIndexed(after, roomId)
      {
        assert RoomIndexed(db, roomId);
        InsertKeepsRoom(db, msgId, row, roomId);
      }
    }
  }

  lemma DeleteKeepsIndex(db: Db, roomId: int)
    requires IndexExact(db)
    ensures IndexExact(RoomDeleted(db, roomId))
    ensures forall id :: !Holds(RoomDeleted(db, roomId), roomId, id)
  {
    var after := RoomDeleted(db, roomId);
    forall other
      ensures RoomIndexed(after, other)
    {
      assert RoomIndexed(db, other);
      assert forall id :: Holds(after, other, id) <==> Holds(db, other, id) && other != roomId;
    }
  }

  // ---------- what is in the file and what is only in the connection ----------

  /** `saved` is what the last commit wrote, `live` what the open connection sees. */
  datatype Store = Store(saved: Db, live: Db)

  datatype Op = Insert(msgId: int, row: Row) | DeleteRoom(roomId: int) | Restart

  /** An insert commits its row before it updates the index; closing drops what is not committed. */
  function Step(store: Store, op: Op): Store {
    match op
    case Insert(msgId, row) =>
      if Check(msgId, row).Some? then store
      else
        var after := Inserted(store.live, msgId, row);
        Store(after.(sync := store.live.sync), after)
    case DeleteRoom(roomId) =>
      if roomId <= 0 then store else Store(RoomDeleted(store.live, roomId), RoomDeleted(store.live, roomId))
    case Restart => Store(store.saved, store.saved)
  }

  const EMPTY := Db(map[], map[])

  function Run(ops: seq<Op>): Store {
    if ops == [] then Store(EMPTY, EMPTY) else Step(Run(ops[..|ops| - 1]), ops[|ops| - 1])
  }

  /** Each server id is only ever inserted for one room. */
  ghost predicate OneRoomEach(ops: seq<Op>) {
    forall a, b :: a in ops && b in ops && a.Insert? && b.Insert? && a.msgId == b.msgId ==> a.row.roomId == b.row.roomId
  }

  /** The last call that reached the tables was an insert that moved the bounds of its room. */
  predicate Unsaved(ops: seq<Op>) {
    if ops == [] then false
    else
      var before, last := ops[..|ops| - 1], ops[|ops| - 1];
      match last
      case Insert(msgId, row) =>
        if Check(msgId, row).Some? then Unsaved(before)
        else msgId > 0 && Outside(Run(before).live, row.roomId, msgId)
      case DeleteRoom(roomId) => roomId <= 0 && Unsaved(before)
      case Restart => false
  }

  lemma {:induction false} SavedLags(ops: seq<Op>)
    ensures Run(ops).saved.messages == Run(ops).live.messages
    ensures Run(ops).saved.sync == Run(ops).live.sync <==> !Unsaved(ops)
  {
    if ops != [] {
      var before, last := ops[..|ops| - 1], ops[|ops| - 1];
      SavedLags(before);
      if last.Insert? && Check(last.msgId, last.row).None? {
        WidenedIff(Run(before).live, last.row.roomId, last.msgId);
      }
    }
  }

  lemma WidenedIff(db: Db, roomId: int, msgId: int)
    ensures Widened(db.sync, roomId, msgId) == db.sync <==> !(msgId > 0 && Outside(db, roomId, msgId))
  {
  }

  lemma {:induction false} CachedWasInserted(ops: seq<Op>, msgId: int)
    requires msgId in Run(ops).live.messages
    ensures Insert(msgId, Run(ops).live.messages[msgId]) in ops
  {
    var before := ops[..|ops| - 1];
    assert ops == before + [ops[|ops| - 1]];
    SavedLags(before);
    if msgId in Run(before).live.messages {
      CachedWasInserted(before, msgId);
    }
  }

  /** The row of the first insert with this id that passes the checks, until its room is deleted. */
  function Kept(ops: seq<Op>, msgId: int): Option<Row> {
    if ops == [] then None
    else
      var before := Kept(ops[..|ops| - 1], msgId);
      match ops[|ops| - 1]
      case Insert(id, row) =>
        if id == msgId && before.None? && id >= 0 && row.roomId > 0 && row.senderId > 0
           && (row.kind == "text" || row.kind == "file" || row.kind == "system")
        then Some(row) else before
      case DeleteRoom(roomId) => if roomId > 0 && before.Some? && before.value.roomId == roomId then None else before
      case Restart => before
  }

  /** What is cached, before and after any restart: the first row that came with each id. */
  lemma {:induction false} CachedIffKept(ops: seq<Op>, msgId: int)
    ensures var rows := Run(ops).live.messages;
      Kept(ops, msgId) == if msgId in rows then Some(rows[msgId]) else None
  {
    if ops != [] {
      var before := ops[..|ops| - 1];
      CachedIffKept(before, msgId);
      SavedLags(before);
    }
  }

  /** The rows leave no choice: only one index is exact. */
  lemma ExactIndexIsUnique(a: Db, b: Db)
    requires IndexExact(a) && a.messages == b.messages
    ensures IndexExact(b) <==> b.sync == a.sync
  {
    assert forall roomId, id :: Holds(a, roomId, id) <==> Holds(b, roomId, id);
    if IndexExact(b) {
      forall roomId
        ensures roomId in a.sync <==> roomId in b.sync
        ensures roomId in a.sync ==> a.sync[roomId] == b.sync[roomId]
      {
        assert RoomIndexed(a, roomId) && RoomIndexed(b, roomId);
      }
      assert a.sync.Keys == b.sync.Keys;
    }
  }

  /** Closing and opening again keeps an exact index exactly when no bound moved in the last insert. */
  lemma RestartKeepsIndexIff(ops: seq<Op>)
    requires IndexExact(Run(ops).live)
    ensures IndexExact(Run(ops + [Restart]).live) <==> !Unsaved(ops)
  {
    assert (ops + [Restart])[..|ops|] == ops;
    SavedLags(ops);
    ExactIndexIsUnique(Run(ops).live, Run(ops).saved);
  }

  lemma StepKeepsIndex(ops: seq<Op>, op: Op)
    requires OneRoomEach(ops + [op]) && IndexExact(Run(ops).live) && (op == Restart ==> !Unsaved(ops))
    ensures IndexExact(Run(ops + [op]).live)
  {
    assert (ops + [op])[..|ops|] == ops;
    match op
    case Insert(msgId, row) =>
      if msgId in Run(ops).live.messages {
        CachedWasInserted(ops, msgId);
      }
      InsertKeepsIndexIff(Run(ops).live, msgId, row);
    case DeleteRoom(roomId) => DeleteKeepsIndex(Run(ops).live, roomId);
    case Restart => RestartKeepsIndexIff(ops);
  }

  ghost predicate AlwaysExact(ops: seq<Op>) {
    forall n :: 0 <= n <= |ops| ==> IndexExact(Run(ops[..n]).live)
  }

  /** No restart comes while a moved bound is not in the file. */
  ghost predicate RestartsSaved(ops: seq<Op>) {
    forall n :: 0 <= n < |ops| && ops[n] == Restart ==> !Unsaved(ops[..n])
  }

  lemma {:induction false} SavedRestartsKeepIndex(ops: seq<Op>, n: nat)
    requires OneRoomEach(ops) && RestartsSaved(ops) && n <= |ops|
    ensures IndexExact(Run(ops[..n]).live)
  {
    if n > 0 {
      var before, last := ops[..n - 1], ops[n - 1];
      SavedRestartsKeepIndex(ops, n - 1);
      assert ops[..n] == before + [last];
      assert OneRoomEach(before + [last]) by {
        assert forall op :: op in before + [last] ==> op in ops;
      }
      StepKeepsIndex(before, last);
    }
  }

  /** If every id belongs to one room, the index holds exactly the least and the greatest cached id of
      every room throughout a run if and only if no restart loses a moved bound. */
  lemma IndexExactIff(ops: seq<Op>)
    requires OneRoomEach(ops)
    ensures AlwaysExact(ops) <==> RestartsSaved(ops)
  {
    if RestartsSaved(ops) {
      forall n | 0 <= n <= |ops|
        ensures IndexExact(Run(ops[..n]).live)
      {
        SavedRestartsKeepIndex(ops, n);
      }
    }
    if AlwaysExact(ops) {
      forall n | 0 <= n < |ops| && ops[n] == Restart
        ensures !Unsaved(ops[..n])
      {
        assert ops[..n + 1] == ops[..n] + [Restart];
        assert IndexExact(Run(ops[..n]).live) && IndexExact(Run(ops[..n + 1]).live);
        RestartKeepsIndexIff(ops[..n]);
      }
    }
  }

  /** One such run: one numbered row, and the connection closes. */
  lemma ClosingLosesBound(msgId: int, row: Row)
    requires msgId > 0 && Check(msgId, row).None?
    ensures var ops := [Insert(msgId, row), Restart];
      OneRoomEach(ops) && Holds(Run(ops).live, row.roomId, msgId) && Run(ops).live.sync == map[]
      && !AlwaysExact(ops)
  {
    var ops := [Insert(msgId, row), Restart];
    assert ops[..1] == [Insert(msgId, row)] && ops[..1][..0] == [] && ops[..2] == ops;
    assert Run([]) == Store(EMPTY, EMPTY);
    assert Run(ops[..1]) == Step(Run([]), Insert(msgId, row));
    assert Run(ops) == Step(Run(ops[..1]), Restart);
    var db := Run(ops[..2]).live;
    assert Holds(db, row.roomId, msgId) && row.roomId !in db.sync;
    assert !RoomIndexed(db, row.roomId);
    assert !IndexExact(db);
  }

  // ---------- one page ----------

  /** ORDER BY ts_ms DESC, msg_id DESC. */
  predicate Above(t: map<int, Row>, a: int, b: int)
    requires a in t && b in t
  {
    t[a].tsMs > t[b].tsMs || (t[a].tsMs == t[b].tsMs && a > b)
  }

  ghost predicate IsTop(t: map<int, Row>, s: set<int>, top: int)
    requires s <= t.Keys
  {
    top in s && forall x :: x in s && x != top ==> Above(t, top, x)
  }

  lemma {:induction false} TopExists(t: map<int, Row>, s: set<int>, any: int)
    requires s <= t.Keys && any in s
    ensures exists top :: IsTop(t, s, top)
    decreases |s|
  {
    var rest := s - {any};
    if x :| x in rest {
      TopExists(t, rest, x);
      var top :| IsTop(t, rest, top);
      if Above(t, any, top) {
        assert IsTop(t, s, any) by {
          forall y | y in s && y != any
            ensures Above(t, any, y)
          {
            assert y in rest;
          }
        }
      } else {
        assert IsTop(t, s, top) by {
          forall y | y in s && y != top
            ensures Above(t, top, y)
          {
            assert y == any || y in rest;
          }
        }
      }
    } else {
      assert forall y :: y in s && y != any ==> y in rest;
      assert IsTop(t, s, any);
    }
  }

  lemma SomeTop(t: map<int, Row>, s: set<int>)
    requires s <= t.Keys
    ensures s == {} || exists top :: IsTop(t, s, top)
  {
    Inhabited(s);
    if s != {} {
      var any :| any in s;
      TopExists(t, s, any);
    }
  }

  ghost function Ranked(t: map<int, Row>, s: set<int>): seq<int>
    requires s <= t.Keys
    decreases |s|
  {
    if s == {} then []
    else
      SomeTop(t, s);
      var top :| IsTop(t, s, top);
      [top] + Ranked(t, s - {top})
  }

  ghost predicate InRankOrder(t: map<int, Row>, ids: seq<int>) {
    && (forall i :: 0 <= i < |ids| ==> ids[i] in t)
    && forall i, j :: 0 <= i < j < |ids| ==> Above(t, ids[i], ids[j])
  }

  ghost predicate Enumerates(ids: seq<int>, s: set<int>) {
    forall x :: x in ids <==> x in s
  }

  lemma {:induction false} RankedIsSorted(t: map<int, Row>, s: set<int>)
    requires s <= t.Keys
    ensures InRankOrder(t, Ranked(t, s)) && Enumerates(Ranked(t, s), s)
    decreases |s|
  {
    if s != {} {
      var r := Ranked(t, s);
      var top := r[0];
      assert IsTop(t, s, top) && r[1..] == Ranked(t, s - {top});
      RankedIsSorted(t, s - {top});
      assert forall x :: x in r <==> x == top || x in r[1..];
      forall i, j | 0 <= i < j < |r|
        ensures Above(t, r[i], r[j])
      {
        assert r[j] == r[1..][j - 1] && r[j] in r[1..];
        if i > 0 {
          assert r[i] == r[1..][i - 1];
        }
      }
    }
  }

  /** Only one list enumerates the set in rank order. */
  lemma {:induction false} RankedIsUnique(t: map<int, Row>, s: set<int>, ids: seq<int>)
    requires s <= t.Keys && InRankOrder(t, ids) && Enumerates(ids, s)
    ensures ids == Ranked(t, s)
    decreases |ids|
  {
    RankedIsSorted(t, s);
    var r := Ranked(t, s);
    if ids == [] {
      assert forall x :: x !in s;
      assert s == {};
    } else {
      assert ids[0] in s && r[0] in ids;
      assert ids[0] == r[0];
      assert Enumerates(ids[1..], s - {ids[0]}) by {
        assert ids == [ids[0]] + ids[1..];
      }
      RankedIsUnique(t, s - {ids[0]}, ids[1..]);
    }
  }

  /** WHERE room_id = ? AND msg_id < ?, the second only with a cursor. */
  function Selected(t: map<int, Row>, roomId: int, before: Option<int>): set<int> {
    set id | id in t && t[id].roomId == roomId && (before.Some? ==> id < before.value)
  }

  function Take(ids: seq<int>, limit: nat): seq<int> {
    if |ids| <= limit then ids else ids[..limit]
  }

  ghost function Page(t: map<int, Row>, roomId: int, limit: nat, before: Option<int>): seq<int> {
    Take(Ranked(t, Selected(t, roomId, before)), limit)
  }

  ghost function ListByRoom(db: Db, roomId: int, limit: int, before: Option<int>): Result<seq<int>, Error> {
    if roomId <= 0 then Err(BadRoomId)
    else if limit <= 0 || limit > MAX_LIMIT then Err(BadLimit)
    else Ok(Page(db.messages, roomId, limit, before))
  }

  /** A page is the highest-ranked part of the selected rows, each row once, at most `limit` of them. */
  lemma ListsTheTop(db: Db, roomId: int, limit: int, before: Option<int>)
    ensures var r := ListByRoom(db, roomId, limit, before);
      && (r.Ok? <==> roomId > 0 && 1 <= limit <= MAX_LIMIT)
      && (r.Ok? ==>
            var s := Selected(db.messages, roomId, before);
            && InRankOrder(db.messages, r.value)
            && |r.value| == (if |s| <= limit then |s| else limit)
            && (forall x :: x in r.value ==> x in s)
            && forall x, y :: x in r.value && y in s && y !in r.value ==> Above(db.messages, x, y))
  {
    if roomId > 0 && 1 <= limit <= MAX_LIMIT {
      var s := Selected(db.messages, roomId, before);
      var ids := Ranked(db.messages, s);
      RankedIsSorted(db.messages, s);
      RankedCount(db.messages, s);
      var page := Page(db.messages, roomId, limit, before);
      forall x, y | x in page && y in s && y !in page
        ensures Above(db.messages, x, y)
      {
        var i :| 0 <= i < |page| && page[i] == x;
        var j :| 0 <= j < |ids| && ids[j] == y;
        assert forall k :: 0 <= k < |page| ==> page[k] == ids[k] && ids[k] in page;
      }
    }
  }

  lemma {:induction false} RankedCount(t: map<int, Row>, s: set<int>)
    requires s <= t.Keys
    ensures |Ranked(t, s)| == |s|
    decreases |s|
  {
    if s != {} {
      var top := Ranked(t, s)[0];
      assert IsTop(t, s, top) && Ranked(t, s)[1..] == Ranked(t, s - {top});
      RankedCount(t, s - {top});
    }
  }

  /** The indexed minimum, taken as a cursor, lists nothing exactly when the room caches no id
      that the index passes over. */
  lemma IndexedCursorEmptyIff(db: Db, roomId: int, limit: nat)
    requires IndexExact(db) && roomId in db.sync && limit >= 1
    ensures Page(db.messages, roomId, limit, Some(db.sync[roomId].low)) == []
       <==> forall id :: id in db.messages && db.messages[id].roomId == roomId ==> id > 0
  {
    var s := Selected(db.messages, roomId, Some(db.sync[roomId].low));
    assert RoomIndexed(db, roomId);
    PageWithin(db.messages, roomId, limit, Some(db.sync[roomId].low));
    if forall id :: id in db.messages && db.messages[id].roomId == roomId ==> id > 0 {
      assert forall id :: id in s ==> Holds(db, roomId, id);
      assert s == {};
    } else {
      var id :| id in db.messages && db.messages[id].roomId == roomId && id <= 0;
      assert id in s;
    }
  }

  // ---------- following the cursor ----------

  function MinOf(ids: seq<int>): (m: int)
    requires ids != []
    ensures m in ids && forall x :: x in ids ==> m <= x
  {
    if |ids| == 1 then ids[0]
    else
      var m := MinOf(ids[1..]);
      assert ids == [ids[0]] + ids[1..];
      if ids[0] < m then ids[0] else m
  }

  lemma PageWithin(t: map<int, Row>, roomId: int, limit: nat, before: Option<int>)
    ensures forall x :: x in Page(t, roomId, limit, before) ==> x in Selected(t, roomId, before)
    ensures limit >= 1 && Selected(t, roomId, before) != {} ==> Page(t, roomId, limit, before) != []
  {
    RankedIsSorted(t, Selected(t, roomId, before));
  }

  lemma CursorShrinks(t: map<int, Row>, roomId: int, before: Option<int>, m: int)
    requires m in Selected(t, roomId, before)
    ensures Selected(t, roomId, Some(m)) == set x | x in Selected(t, roomId, before) && x < m
    ensures Selected(t, roomId, Some(m)) < Selected(t, roomId, before)
    ensures |Selected(t, roomId, Some(m))| < |Selected(t, roomId, before)|
  {
    var small, large := Selected(t, roomId, Some(m)), Selected(t, roomId, before);
    assert small <= large - {m};
    Smaller(small, large - {m});
  }

  /** What a caller lists who passes the least id of each page as the next cursor, until that is 1 or
      less or a page is empty; the first page may have another size than the later ones. */
  ghost function Scroll(t: map<int, Row>, roomId: int, first: nat, limit: nat, before: Option<int>): seq<int>
    decreases |Selected(t, roomId, before)|
  {
    var page := Page(t, roomId, first, before);
    if page == [] then []
    else
      PageWithin(t, roomId, first, before);
      CursorShrinks(t, roomId, before, MinOf(page));
      if MinOf(page) <= 1 then page else page + Scroll(t, roomId, limit, limit, Some(MinOf(page)))
  }

  /** That lists the whole room, in rank order. */
  ghost predicate ShowsAll(t: map<int, Row>, roomId: int, first: nat, limit: nat) {
    Scroll(t, roomId, first, limit, None) == Ranked(t, Selected(t, roomId, None))
  }

  ghost predicate Descending(ids: seq<int>) {
    forall i, j :: 0 <= i < j < |ids| ==> ids[i] > ids[j]
  }

  ghost predicate HeadAbove(ids: seq<int>, first: nat) {
    forall i, j :: 0 <= i < first <= j < |ids| ==> ids[i] > ids[j]
  }

  /** Every id on a page is larger than every id on a later page, and none but the last page has an id
      that ends the paging. */
  ghost predicate PagesDescend(ids: seq<int>, first: nat, limit: nat)
    requires first >= 1 && limit >= 1
    decreases |ids|
  {
    || |ids| <= first
    || (HeadAbove(ids, first) && MinOf(ids[..first]) > 1 && PagesDescend(ids[first..], limit, limit))
  }

  ghost predicate NoRepeats(ids: seq<int>) {
    forall i, j :: 0 <= i < j < |ids| ==> ids[i] != ids[j]
  }

  lemma NoRepeatsJoin(page: seq<int>, later: seq<int>)
    requires NoRepeats(page) && NoRepeats(later) && page != [] && forall x :: x in later ==> x < MinOf(page)
    ensures NoRepeats(page + later)
  {
    forall i, j | 0 <= i < |page| && 0 <= j < |later|
      ensures page[i] != later[j]
    {
      assert page[i] in page && later[j] in later;
    }
  }

  /** However the timestamps run, following the cursor lists only cached ids of the room, none twice. */
  lemma {:induction false} ScrollShowsNoneTwice(t: map<int, Row>, roomId: int, first: nat, limit: nat,
                                                before: Option<int>)
    ensures forall x :: x in Scroll(t, roomId, first, limit, before) ==> x in Selected(t, roomId, before)
    ensures NoRepeats(Scroll(t, roomId, first, limit, before))
    decreases |Selected(t, roomId, before)|
  {
    var page := Page(t, roomId, first, before);
    RankedIsSorted(t, Selected(t, roomId, before));
    PageWithin(t, roomId, first, before);
    if page != [] {
      var m := MinOf(page);
      assert NoRepeats(page);
      CursorShrinks(t, roomId, before, m);
      var later := Scroll(t, roomId, limit, limit, Some(m));
      ScrollShowsNoneTwice(t, roomId, limit, limit, Some(m));
      NoRepeatsJoin(page, later);
      assert forall x :: x in page + later ==> x in page || x in later;
    }
  }

  lemma TailBelowCursor(ids: seq<int>, first: nat, s: set<int>)
    requires Enumerates(ids, s) && |ids| > first >= 1 && HeadAbove(ids, first)
    ensures forall x :: x in ids[first..] <==> x in s && x < MinOf(ids[..first])
  {
    var m := MinOf(ids[..first]);
    var at :| 0 <= at < first && ids[at] == m;
    forall x | x in ids[first..]
      ensures x in s && x < m
    {
      var j :| first <= j < |ids| && ids[j] == x;
      assert ids[at] > ids[j];
    }
    forall x | x in s && x < m
      ensures x in ids[first..]
    {
      var j :| 0 <= j < |ids| && ids[j] == x;
      assert forall k :: 0 <= k < first ==> ids[..first][k] == ids[k] && ids[k] in ids[..first];
      assert ids[first..][j - first] == x;
    }
  }

  lemma RestIsSelected(t: map<int, Row>, roomId: int, first: nat, before: Option<int>)
    requires var ids := Ranked(t, Selected(t, roomId, before)); |ids| > first >= 1 && HeadAbove(ids, first)
    ensures var ids := Ranked(t, Selected(t, roomId, before));
      Ranked(t, Selected(t, roomId, Some(MinOf(ids[..first])))) == ids[first..]
  {
    var s := Selected(t, roomId, before);
    var ids := Ranked(t, s);
    RankedIsSorted(t, s);
    var m := MinOf(ids[..first]);
    TailBelowCursor(ids, first, s);
    var rest := Selected(t, roomId, Some(m));
    assert m in ids && m in s;
    CursorShrinks(t, roomId, before, m);
    assert InRankOrder(t, ids[first..]) && Enumerates(ids[first..], rest);
    RankedIsUnique(t, rest, ids[first..]);
  }

  lemma ScrollStep(t: map<int, Row>, roomId: int, first: nat, limit: nat, before: Option<int>)
    requires first >= 1 && Selected(t, roomId, before) != {}
    ensures var page := Page(t, roomId, first, before);
      && page != [] && MinOf(page) in Selected(t, roomId, before)
      && Scroll(t, roomId, first, limit, before)
         == page + if MinOf(page) <= 1 then [] else Scroll(t, roomId, limit, limit, Some(MinOf(page)))
  {
    PageWithin(t, roomId, first, before);
  }

  lemma LastPage(t: map<int, Row>, roomId: int, first: nat, limit: nat, before: Option<int>)
    requires first >= 1 && 0 < |Ranked(t, Selected(t, roomId, before))| <= first
    ensures Scroll(t, roomId, limit, limit, Some(MinOf(Page(t, roomId, first, before)))) == []
  {
    var s := Selected(t, roomId, before);
    RankedIsSorted(t, s);
    var m := MinOf(Page(t, roomId, first, before));
    CursorShrinks(t, roomId, before, m);
    assert Selected(t, roomId, Some(m)) == {};
  }

  /** What remains of the ranking after a full first page. */
  lemma NextPage(t: map<int, Row>, roomId: int, first: nat, limit: nat, before: Option<int>, ids: seq<int>)
    requires first >= 1 && ids == Ranked(t, Selected(t, roomId, before))
    requires |ids| > first && HeadAbove(ids, first) && MinOf(ids[..first]) > 1
    ensures var m := MinOf(ids[..first]);
      && Ranked(t, Selected(t, roomId, Some(m))) == ids[first..]
      && Scroll(t, roomId, first, limit, before) == ids[..first] + Scroll(t, roomId, limit, limit, Some(m))
  {
    ScrollStep(t, roomId, first, limit, before);
    RestIsSelected(t, roomId, first, before);
  }

  lemma OnlyPage(t: map<int, Row>, roomId: int, first: nat, limit: nat, before: Option<int>, ids: seq<int>)
    requires first >= 1 && ids == Ranked(t, Selected(t, roomId, before)) && |ids| <= first
    ensures Scroll(t, roomId, first, limit, before) == ids
  {
    if ids == [] {
      PageWithin(t, roomId, first, before);
    } else {
      ScrollStep(t, roomId, first, limit, before);
      LastPage(t, roomId, first, limit, before);
      assert ids + [] == ids;
    }
  }

  lemma {:induction false} DescendingPagesScroll(t: map<int, Row>, roomId: int, first: nat, limit: nat,
                                                 before: Option<int>, ids: seq<int>)
    requires first >= 1 && limit >= 1
    requires ids == Ranked(t, Selected(t, roomId, before)) && PagesDescend(ids, first, limit)
    ensures Scroll(t, roomId, first, limit, before) == ids
    decreases |ids|
  {
    if |ids| <= first {
      OnlyPage(t, roomId, first, limit, before, ids);
    } else {
      var page, rest := ids[..first], ids[first..];
      assert ids == page + rest;
      NextPage(t, roomId, first, limit, before, ids);
      DescendingPagesScroll(t, roomId, limit, limit, Some(MinOf(page)), rest);
    }
  }

  lemma {:induction false} CompleteScrollDescends(t: map<int, Row>, roomId: int, first: nat, limit: nat,
                                                  before: Option<int>)
    requires first >= 1 && limit >= 1
    requires forall x :: x in Selected(t, roomId, before) ==> x in Scroll(t, roomId, first, limit, before)
    ensures PagesDescend(Ranked(t, Selected(t, roomId, before)), first, limit)
    decreases |Selected(t, roomId, before)|
  {
    var s := Selected(t, roomId, before);
    var ids := Ranked(t, s);
    RankedIsSorted(t, s);
    if |ids| > first {
      assert ids[0] in s;
      ScrollStep(t, roomId, first, limit, before);
      var page := Page(t, roomId, first, before);
      var m := MinOf(page);
      CursorShrinks(t, roomId, before, m);
      ScrollShowsNoneTwice(t, roomId, limit, limit, Some(m));
      OffPageIsBelow(t, s, first, Scroll(t, roomId, limit, limit, Some(m)));
      RestIsSelected(t, roomId, first, before);
      assert forall x :: x in Selected(t, roomId, Some(m)) ==> x !in page;
      CompleteScrollDescends(t, roomId, limit, limit, Some(m));
    }
  }

  lemma OffPageIsBelow(t: map<int, Row>, s: set<int>, first: nat, later: seq<int>)
    requires s <= t.Keys && |Ranked(t, s)| > first >= 1
    requires forall x :: x in s ==> x in Ranked(t, s)[..first] + later
    requires forall x :: x in later ==> x < MinOf(Ranked(t, s)[..first])
    ensures HeadAbove(Ranked(t, s), first)
  {
    var ids := Ranked(t, s);
    RankedIsSorted(t, s);
    forall i, j | 0 <= i < first <= j < |ids|
      ensures ids[i] > ids[j]
    {
      assert ids[..first][i] in ids[..first];
      assert ids[j] in s;
      assert ids[j] !in ids[..first];
    }
  }

  /** Nothing is skipped exactly when ids descend from page to page; then the whole room shows in rank order. */
  lemma ScrollCompleteIff(t: map<int, Row>, roomId: int, first: nat, limit: nat)
    requires first >= 1 && limit >= 1
    ensures var all := Selected(t, roomId, None);
      && ((forall x :: x in all ==> x in Scroll(t, roomId, first, limit, None))
          <==> PagesDescend(Ranked(t, all), first, limit))
      && (PagesDescend(Ranked(t, all), first, limit) ==> ShowsAll(t, roomId, first, limit))
  {
    var all := Selected(t, roomId, None);
    RankedIsSorted(t, all);
    if PagesDescend(Ranked(t, all), first, limit) {
      DescendingPagesScroll(t, roomId, first, limit, None, Ranked(t, all));
    }
    if forall x :: x in all ==> x in Scroll(t, roomId, first, limit, None) {
      CompleteScrollDescends(t, roomId, first, limit, None);
    }
  }

  /** Timestamps do not decrease with the id, and at most one id ends the paging. */
  ghost predicate TimesFollowIds(t: map<int, Row>, s: set<int>)
    requires s <= t.Keys
  {
    forall a, b :: a in s && b in s && a < b ==> t[a].tsMs <= t[b].tsMs && b > 1
  }

  /** Descending, and above 1 down to the last but one. */
  ghost predicate DescendsToOne(ids: seq<int>) {
    Descending(ids) && forall i :: 0 <= i < |ids| - 1 ==> ids[i] > 1
  }

  lemma {:induction false} DescendingIsPaged(ids: seq<int>, first: nat, limit: nat)
    requires first >= 1 && limit >= 1 && DescendsToOne(ids)
    ensures PagesDescend(ids, first, limit)
    decreases |ids|
  {
    if |ids| > first {
      DescendingIsPaged(ids[first..], limit, limit);
    }
  }

  lemma {:induction false} PagedByOneDescends(ids: seq<int>)
    requires PagesDescend(ids, 1, 1)
    ensures DescendsToOne(ids)
  {
    if |ids| > 1 {
      PagedByOneDescends(ids[1..]);
    }
  }

  lemma DescendingFollows(t: map<int, Row>, s: set<int>, ids: seq<int>)
    requires s <= t.Keys && InRankOrder(t, ids) && Enumerates(ids, s)
    requires DescendsToOne(ids)
    ensures TimesFollowIds(t, s)
  {
    forall a, b | a in s && b in s && a < b
      ensures t[a].tsMs <= t[b].tsMs && b > 1
    {
      var i :| 0 <= i < |ids| && ids[i] == a;
      var j :| 0 <= j < |ids| && ids[j] == b;
      assert j < i;
      assert Above(t, ids[j], ids[i]);
    }
  }

  lemma RankedDescends(t: map<int, Row>, s: set<int>)
    requires s <= t.Keys && TimesFollowIds(t, s)
    ensures DescendsToOne(Ranked(t, s))
  {
    var ids := Ranked(t, s);
    RankedIsSorted(t, s);
    forall i, j | 0 <= i < j < |ids|
      ensures ids[i] > ids[j] && ids[i] > 1
    {
      assert ids[i] in s && ids[j] in s && Above(t, ids[i], ids[j]);
    }
    forall i | 0 <= i < |ids| - 1
      ensures ids[i] > 1
    {
      assert ids[i] > ids[i + 1];
    }
  }

  lemma FollowingTimesScroll(t: map<int, Row>, roomId: int, first: nat, limit: nat)
    requires first >= 1 && limit >= 1 && TimesFollowIds(t, Selected(t, roomId, None))
    ensures ShowsAll(t, roomId, first, limit)
  {
    var all := Selected(t, roomId, None);
    RankedDescends(t, all);
    DescendingIsPaged(Ranked(t, all), first, limit);
    ScrollCompleteIff(t, roomId, first, limit);
  }

  lemma SinglesFollow(t: map<int, Row>, roomId: int)
    requires ShowsAll(t, roomId, 1, 1)
    ensures TimesFollowIds(t, Selected(t, roomId, None))
  {
    var all := Selected(t, roomId, None);
    RankedIsSorted(t, all);
    ScrollCompleteIff(t, roomId, 1, 1);
    PagedByOneDescends(Ranked(t, all));
    DescendingFollows(t, all, Ranked(t, all));
  }

  /** Every choice of page sizes lists the whole room exactly when the timestamps follow the ids and
      no two ids end the paging. */
  lemma EveryLimitIff(t: map<int, Row>, roomId: int)
    ensures (forall first: nat, limit: nat :: first >= 1 && limit >= 1 ==> ShowsAll(t, roomId, first, limit))
       <==> TimesFollowIds(t, Selected(t, roomId, None))
  {
    if TimesFollowIds(t, Selected(t, roomId, None)) {
      forall first: nat, limit: nat | first >= 1 && limit >= 1
        ensures ShowsAll(t, roomId, first, limit)
      {
        FollowingTimesScroll(t, roomId, first, limit);
      }
    }
    if ShowsAll(t, roomId, 1, 1) {
      SinglesFollow(t, roomId);
    }
  }

  /** Two rows whose timestamps run against their ids, one row a page: the newer id is never listed. */
  lemma InvertedTimesHide(older: Row, newer: Row)
    requires older.roomId == newer.roomId && older.tsMs > newer.tsMs
    ensures var t := map[1 := older, 2 := newer];
      Scroll(t, older.roomId, 1, 1, None) == [1] && !ShowsAll(t, older.roomId, 1, 1)
  {
    var t := map[1 := older, 2 := newer];
    var all := Selected(t, older.roomId, None);
    RankedIsSorted(t, all);
    RankedIsUnique(t, all, [1, 2]);
    assert all == {1, 2};
  }

  // ---------- the module's functions ----------

  class Cache {
    var messages: map<int, Row>
    var sync: map<int, Span>
    var file: Db

    ghost function Contents(): Store
      reads this
    {
      Store(file, Db(messages, sync))
    }

    /** A connection opened on what a file holds. */
    constructor (file: Db)
      ensures Contents() == Store(file, file)
    {
      this.file, messages, sync := file, file.messages, file.sync;
    }

    method Commit()
      modifies this`file
      ensures file == Db(messages, sync)
    {
      file := Db(messages, sync);
    }

    /** Closes without a commit and opens again. */
    method Reopen()
      modifies this
      ensures Contents() == Step(old(Contents()), Restart)
    {
      messages, sync := file.messages, file.sync;
    }

    method UpdateSyncState(roomId: int, msgId: int)
      modifies this`sync
      ensures sync == Widened(old(sync), roomId, msgId)
    {
      if msgId <= 0 {
        return;
      }
      if roomId !in sync {
        sync := sync[roomId := Span(msgId, msgId)];
      } else {
        var low, high := sync[roomId].low, sync[roomId].high;
        if msgId < low {
          low := msgId;
        }
        if msgId > high {
          high := msgId;
        }
        sync := sync[roomId := Span(low, high)];
      }
    }

    method InsertMessage(msgId: int, row: Row) returns (error: Option<Error>)
      modifies this
      ensures error == Check(msgId, row)
      ensures Contents() == Step(old(Contents()), Insert(msgId, row))
      ensures old(IndexExact(Contents().live)) ==>
                (msgId in old(messages) ==> old(messages)[msgId].roomId == row.roomId) ==>
                IndexExact(Contents().live)
    {
      if IndexExact(Contents().live) {
        InsertKeepsIndexIff(Contents().live, msgId, row);
      }
      error := Check(msgId, row);
      if error.Some? {
        return;
      }
      if msgId !in messages {
        messages := messages[msgId := row];
      }
      Commit();
      UpdateSyncState(row.roomId, msgId);
    }

    method DeleteRoomMessages(roomId: int) returns (removed: Result<nat, Error>)
      modifies this
      ensures removed == if roomId <= 0 then Err(BadRoomId) else Ok(|RowsOf(old(messages), roomId)|)
      ensures Contents() == Step(old(Contents()), DeleteRoom(roomId))
    {
      if roomId <= 0 {
        return Err(BadRoomId);
      }
      var rows := RowsOf(messages, roomId);
      messages := messages - rows;
      sync := sync - {roomId};
      Commit();
      return Ok(|rows|);
    }

    method GetMinMsgId(roomId: int) returns (r: Result<Option<int>, Error>)
      ensures r.Err? <==> roomId <= 0
      ensures IndexExact(Contents().live) && r.Ok? ==>
                match r.value
                case None => forall id :: !Holds(Contents().live, roomId, id)
                case Some(low) =>
                  Holds(Contents().live, roomId, low) && forall id :: Holds(Contents().live, roomId, id) ==> low <= id
    {
      if roomId <= 0 {
        return Err(BadRoomId);
      }
      assert IndexExact(Contents().live) ==> RoomIndexed(Contents().live, roomId);
      return Ok(if roomId in sync then Some(sync[roomId].low) else None);
    }

    method GetMaxMsgId(roomId: int) returns (r: Result<Option<int>, Error>)
      ensures r.Err? <==> roomId <= 0
      ensures IndexExact(Contents().live) && r.Ok? ==>
                match r.value
                case None => forall id :: !Holds(Contents().live, roomId, id)
                case Some(high) =>
                  Holds(Contents().live, roomId, high) && forall id :: Holds(Contents().live, roomId, id) ==> id <= high
    {
      if roomId <= 0 {
        return Err(BadRoomId);
      }
      assert IndexExact(Contents().live) ==> RoomIndexed(Contents().live, roomId);
      return Ok(if roomId in sync then Some(sync[roomId].high) else None);
    }
  }
}
