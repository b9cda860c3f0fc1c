/**
 How the chat view walks up through the message cache: app/ui/_chat_helper_mixin.py and the bubble list
 of app/ui/chat_view.py. The rows of the first load are shown without their ids being recorded, so the
 first cursor is the indexed minimum of the room and not the least id on the screen.
 */
module ChatScroll {
  import opened FiniteSets
  import opened Wrappers
  import opened MessagesCache

  const FIRST_PAGE := 100
  const OLDER_PAGE := 30

  /** The bubbles from top to bottom, each as the id of its row, and the ids recorded as displayed. */
  datatype View = View(bubbles: seq<int>, displayed: set<int>)

  const BLANK := View([], {})

  function Reversed(ids: seq<int>): (r: seq<int>)
    ensures |r| == |ids| && forall i :: 0 <= i < |ids| ==> r[i] == ids[|ids| - 1 - i]
  {
    seq(|ids|, i requires 0 <= i < |ids| => ids[|ids| - 1 - i])
  }

  function Prepended(v: View, id: int): View {
    if id > 0 && id in v.displayed then v
    else View([id] + v.bubbles, if id > 0 then v.displayed + {id} else v.displayed)
  }

  function PrependedAll(v: View, ids: seq<int>): View
    decreases |ids|
  {
    if ids == [] then v else PrependedAll(Prepended(v, ids[0]), ids[1..])
  }

  lemma {:induction false} LeastOf(s: set<int>) returns (m: int)
    requires s != {}
    ensures m in s && forall x :: x in s ==> m <= x
    decreases |s|
  {
    Inhabited(s);
    var any :| any in s;
    var rest := s - {any};
    assert forall x :: x in s <==> x == any || x in rest;
    if rest == {} {
      m := any;
    } else {
      var low := LeastOf(rest);
      m := if low < any then low else any;
    }
  }

  lemma SomeLeast(s: set<int>)
    requires s != {}
    ensures exists m :: m in s && forall x :: x in s ==> m <= x
  {
    var m := LeastOf(s);
    assert m in s && forall x :: x in s ==> m <= x;
  }

  ghost function Least(s: set<int>): (m: int)
    requires s != {}
    ensures m in s && forall x :: x in s ==> m <= x
  {
    SomeLeast(s);
    var m :| m in s && forall x :: x in s ==> m <= x;
    m
  }

  /** The least displayed id if one is recorded, otherwise the indexed minimum. */
  ghost function Cursor(v: View, indexed: Option<int>): Option<int> {
    if v.displayed != {} then Some(Least(v.displayed)) else indexed
  }

  ghost function OlderThan(db: Db, roomId: int): int -> seq<int> {
    (cursor: int) => Page(db.messages, roomId, OLDER_PAGE, Some(cursor))
  }

  /** One scroll to the top: nothing at the end of the cache, otherwise the rows below the cursor. */
  ghost function Scrolled(v: View, indexed: Option<int>, older: int -> seq<int>): View
  {
    match Cursor(v, indexed)
    case None => v
    case Some(cursor) => if cursor <= 1 then v else PrependedAll(v, older(cursor))
  }

  class ChatView {
    var bubbles: seq<int>
    var displayed: set<int>

    ghost function Contents(): View
      reads this
    {
      View(bubbles, displayed)
    }

    constructor ()
      ensures Contents() == BLANK
    {
      bubbles, displayed := [], {};
    }

    method ClearMessages()
      modifies this
      ensures Contents() == BLANK
    {
      bubbles, displayed := [], {};
    }

    /** Switching rooms forgets the recorded ids; the bubbles are cleared separately. */
    method SetActiveRoom()
      modifies this`displayed
      ensures displayed == {}
    {
      displayed := {};
    }

    /** A bubble at the bottom; its id is recorded only if the caller passes it. */
    method AddMessage(row: int, messageId: Option<int>)
      modifies this
      ensures messageId.Some? && messageId.value > 0 && messageId.value in old(displayed) ==>
                Contents() == old(Contents())
      ensures messageId.None? || messageId.value <= 0 ==> Contents() == View(old(bubbles) + [row], old(displayed))
      ensures messageId.Some? && messageId.value > 0 && messageId.value !in old(displayed) ==>
                Contents() == View(old(bubbles) + [row], old(displayed) + {messageId.value})
    {
      if messageId.Some? && messageId.value > 0 {
        if messageId.value in displayed {
          return;
        }
        displayed := displayed + {messageId.value};
      }
      bubbles := bubbles + [row];
    }

    method PrependMessage(id: int)
      modifies this
      ensures Contents() == Prepended(old(Contents()), id)
    {
      if id > 0 {
        if id in displayed {
          return;
        }
        displayed := displayed + {id};
      }
      bubbles := [id] + bubbles;
    }

    method MinDisplayedMsgId() returns (m: int)
      requires forall id :: id in displayed ==> id > 0
      ensures m == if displayed == {} then 0 else Least(displayed)
    {
      m := 0;
      var rest := displayed;
      while rest != {}
        invariant rest <= displayed
        invariant m == 0 <==> rest == displayed
        invariant m != 0 ==> m in displayed && forall id :: id in displayed && id !in rest ==> m <= id
        decreases |rest|
      {
        Inhabited(rest);
        var id :| id in rest;
        if m == 0 || id < m {
          m := id;
        }
        rest := rest - {id};
      }
    }

    /** Entering a room: the newest rows, oldest of them on top, no id passed on. */
    method LoadLocalHistory(rows: seq<int>)
      modifies this
      ensures Contents() == View(old(bubbles) + Reversed(rows), old(displayed))
    {
      var i := |rows|;
      while i > 0
        invariant 0 <= i <= |rows|
        invariant Contents() == View(old(bubbles) + Reversed(rows)[..|rows| - i], old(displayed))
      {
        i := i - 1;
        AddMessage(rows[i], None);
        assert Reversed(rows)[..|rows| - i] == Reversed(rows)[..|rows| - i - 1] + [rows[i]];
      }
    }

    /** Switching to a room that has no history in memory. */
    method EnterRoom(rows: seq<int>)
      modifies this
      ensures Contents() == View(Reversed(rows), {})
    {
      ClearMessages();
      LoadLocalHistory(rows);
      SetActiveRoom();
    }

    /** Scrolling to the top: `indexed` is the room's indexed minimum, `older` the page below a cursor. */
    method OnLazyLoadRequested(indexed: Option<int>, older: int -> seq<int>)
        requires forall id :: id in displayed ==> id > 0
      modifies this
      ensures Contents() == Scrolled(old(Contents()), indexed, older)
      ensures forall id :: id in displayed ==> id > 0
    {
      var least := MinDisplayedMsgId();
      var cursor := if least > 0 then Some(least) else indexed;
      if cursor.None? || cursor.value <= 1 {
        return;
      }
      var rows := older(cursor.value);
      var i := 0;
      while i < |rows|
        invariant 0 <= i <= |rows|
        invariant forall id :: id in displayed ==> id > 0
        invariant PrependedAll(Contents(), rows[i..]) == PrependedAll(old(Contents()), rows)
      {
        assert rows[i..][1..] == rows[i + 1..];
        PrependMessage(rows[i]);
        i := i + 1;
      }
    }
  }

  // ---------- the walk as a whole ----------

  ghost function Indexed(db: Db, roomId: int): Option<int> {
    if roomId in db.sync then Some(db.sync[roomId].low) else None
  }

  ghost function FirstLoad(db: Db, roomId: int): seq<int> {
    Page(db.messages, roomId, FIRST_PAGE, None)
  }

  ghost function AllRows(db: Db, roomId: int): set<int> {
    Selected(db.messages, roomId, None)
  }

  ghost function Entered(db: Db, roomId: int): View {
    View(Reversed(FirstLoad(db, roomId)), {})
  }

  /** The view after entering the room and scrolling to the top `n` times. */
  ghost function AfterScrolls(db: Db, roomId: int, n: nat): View {
    if n == 0 then Entered(db, roomId)
    else Scrolled(AfterScrolls(db, roomId, n - 1), Indexed(db, roomId), OlderThan(db, roomId))
  }

  ghost predicate ShowsWholeRoom(db: Db, roomId: int, n: nat) {
    forall id :: id in AllRows(db, roomId) ==> id in AfterScrolls(db, roomId, n).bubbles
  }

  ghost predicate ShowsNoneTwice(db: Db, roomId: int, n: nat) {
    NoRepeats(AfterScrolls(db, roomId, n).bubbles)
  }

  lemma ReversedRepeats(ids: seq<int>)
    ensures NoRepeats(Reversed(ids)) <==> NoRepeats(ids)
    ensures forall x :: x in Reversed(ids) <==> x in ids
  {
    var r := Reversed(ids);
    assert forall i :: 0 <= i < |ids| ==> ids[i] == r[|ids| - 1 - i];
  }

  lemma FirstLoadFacts(db: Db, roomId: int)
    ensures NoRepeats(FirstLoad(db, roomId))
    ensures forall id :: id in FirstLoad(db, roomId) ==> id in AllRows(db, roomId)
    ensures (forall id :: id in AllRows(db, roomId) ==> id in FirstLoad(db, roomId))
       <==> |AllRows(db, roomId)| <= FIRST_PAGE
  {
    var s := AllRows(db, roomId);
    var ids := Ranked(db.messages, s);
    RankedIsSorted(db.messages, s);
    RankedCount(db.messages, s);
    PageWithin(db.messages, roomId, FIRST_PAGE, None);
    if |s| > FIRST_PAGE {
      assert ids[FIRST_PAGE] in ids && ids[FIRST_PAGE] in s;
      assert ids[FIRST_PAGE] !in ids[..FIRST_PAGE];
    }
  }

  // ---------- with an exact index ----------

  /** No row of the room has a negative id; what the cache's own calls insert never has. */
  ghost predicate NoneNegative(db: Db, roomId: int) {
    forall id :: id in AllRows(db, roomId) ==> id >= 0
  }

  /** The room has a row the server has not numbered, the row with id 0, and an indexed minimum above 1. */
  ghost predicate Unnumbered(db: Db, roomId: int) {
    0 in AllRows(db, roomId) && roomId in db.sync && db.sync[roomId].low > 1
  }

  function Zeros(n: nat): (r: seq<int>)
    ensures |r| == n && forall i :: 0 <= i < n ==> r[i] == 0
  {
    seq(n, i => 0)
  }

  /** Below an exact minimum there is at most the unnumbered row. */
  lemma BelowTheMinimum(db: Db, roomId: int)
    requires RoomIndexed(db, roomId) && NoneNegative(db, roomId) && roomId in db.sync
    ensures Page(db.messages, roomId, OLDER_PAGE, Some(db.sync[roomId].low))
         == if 0 in AllRows(db, roomId) then [0] else []
  {
    var low := db.sync[roomId].low;
    var s := Selected(db.messages, roomId, Some(low));
    forall id | id in s
      ensures id == 0
    {
      assert id in AllRows(db, roomId);
      assert !Holds(db, roomId, id);
    }
    if 0 in AllRows(db, roomId) {
      assert s == {0};
      RankedIsUnique(db.messages, s, [0]);
    } else {
      assert s == {};
    }
  }

  /** Each scroll puts the unnumbered row on top once more, if there is one, and nothing else. */
  lemma {:induction false} ScrollsOnlyRepeat(db: Db, roomId: int, n: nat)
    requires RoomIndexed(db, roomId) && NoneNegative(db, roomId)
    ensures AfterScrolls(db, roomId, n)
         == View((if Unnumbered(db, roomId) then Zeros(n) else []) + Reversed(FirstLoad(db, roomId)), {})
  {
    if n > 0 {
      ScrollsOnlyRepeat(db, roomId, n - 1);
      var before := AfterScrolls(db, roomId, n - 1);
      if roomId in db.sync {
        BelowTheMinimum(db, roomId);
        assert PrependedAll(before, []) == before;
        assert PrependedAll(before, [0]) == PrependedAll(Prepended(before, 0), []);
        assert Zeros(n) == [0] + Zeros(n - 1);
      }
    }
  }

  /** With an exact index the view shows the whole room exactly when the first load does, or when the
      only row the first load left out is the unnumbered one and the view was scrolled. */
  lemma WholeRoomIff(db: Db, roomId: int, n: nat)
    requires RoomIndexed(db, roomId) && NoneNegative(db, roomId)
    ensures ShowsWholeRoom(db, roomId, n)
       <==> || |AllRows(db, roomId)| <= FIRST_PAGE
            || (n > 0 && Unnumbered(db, roomId) && |AllRows(db, roomId)| == FIRST_PAGE + 1
                && 0 !in FirstLoad(db, roomId))
  {
    BubblesAre(db, roomId, n);
    FirstLoadFacts(db, roomId);
    if Unnumbered(db, roomId) {
      LeftOutIsZero(db, roomId);
    }
  }

  lemma LeftOutIsZero(db: Db, roomId: int)
    requires 0 in AllRows(db, roomId)
    ensures (forall id :: id in AllRows(db, roomId) ==> id == 0 || id in FirstLoad(db, roomId))
       <==> || |AllRows(db, roomId)| <= FIRST_PAGE
            || (|AllRows(db, roomId)| == FIRST_PAGE + 1 && 0 !in FirstLoad(db, roomId))
  {
    var s := AllRows(db, roomId);
    var ids := Ranked(db.messages, s);
    RankedIsSorted(db.messages, s);
    RankedCount(db.messages, s);
    if |s| > FIRST_PAGE {
      assert forall i :: 0 <= i < |ids| ==> ids[i] in ids && ids[i] in s;
      assert forall i :: FIRST_PAGE <= i < |ids| ==> ids[i] !in FirstLoad(db, roomId);
      assert ids[FIRST_PAGE] in s;
    }
    if |s| == FIRST_PAGE + 1 {
      forall id | id in s
        ensures id == ids[FIRST_PAGE] || id in FirstLoad(db, roomId)
      {
        var i :| 0 <= i < |ids| && ids[i] == id;
        assert i < FIRST_PAGE ==> FirstLoad(db, roomId)[i] == id;
      }
    } else if |s| > FIRST_PAGE + 1 {
      assert ids[FIRST_PAGE + 1] in s && ids[FIRST_PAGE] != ids[FIRST_PAGE + 1];
    }
  }

  /** With an exact index a row is shown twice exactly when the unnumbered row is scrolled to after it
      was loaded or scrolled to before. */
  lemma RepeatsIff(db: Db, roomId: int, n: nat)
    requires RoomIndexed(db, roomId) && NoneNegative(db, roomId)
    ensures !ShowsNoneTwice(db, roomId, n)
       <==> Unnumbered(db, roomId) && n + (if 0 in FirstLoad(db, roomId) then 1 else 0) >= 2 && n > 0
  {
    var first := FirstLoad(db, roomId);
    ScrollsOnlyRepeat(db, roomId, n);
    ReversedRepeats(first);
    FirstLoadFacts(db, roomId);
    var bubbles := AfterScrolls(db, roomId, n).bubbles;
    if Unnumbered(db, roomId) && n > 0 {
      if n > 1 {
        assert bubbles[0] == bubbles[1];
      }
      if 0 in first {
        var i :| 0 <= i < |first| && Reversed(first)[i] == 0;
        assert bubbles[0] == bubbles[n + i];
      }
      if n == 1 && 0 !in first {
        ZeroOnTop(Reversed(first));
      }
    } else {
      assert bubbles == Reversed(first);
    }
  }

  lemma ZeroOnTop(ids: seq<int>)
    requires NoRepeats(ids) && 0 !in ids
    ensures NoRepeats(Zeros(1) + ids)
  {
    var all := Zeros(1) + ids;
    forall i, j | 0 <= i < j < |all|
      ensures all[i] != all[j]
    {
      assert all[j] == ids[j - 1] && (i > 0 ==> all[i] == ids[i - 1]);
    }
  }

  /** Which rows are on the screen after `n` scrolls. */
  lemma BubblesAre(db: Db, roomId: int, n: nat)
    requires RoomIndexed(db, roomId) && NoneNegative(db, roomId)
    ensures forall id :: id in AfterScrolls(db, roomId, n).bubbles <==>
              id in FirstLoad(db, roomId) || (id == 0 && n > 0 && Unnumbered(db, roomId))
  {
    var first := FirstLoad(db, roomId);
    ScrollsOnlyRepeat(db, roomId, n);
    ReversedRepeats(first);
    assert n > 0 ==> Zeros(n)[0] == 0;
  }

  // ---------- with any index, when every row is numbered ----------

  ghost predicate Numbered(db: Db, roomId: int) {
    forall id :: id in AllRows(db, roomId) ==> id > 0
  }

  /** What following the cursor downwards from `cursor` lists. */
  ghost function Below(db: Db, roomId: int, cursor: int): seq<int> {
    if cursor <= 1 then [] else Scroll(db.messages, roomId, OLDER_PAGE, OLDER_PAGE, Some(cursor))
  }

  ghost function NewRows(db: Db, roomId: int, cursor: int): seq<int> {
    if cursor <= 1 then [] else Page(db.messages, roomId, OLDER_PAGE, Some(cursor))
  }

  function NextCursor(low: int, loaded: seq<int>): int {
    if loaded == [] then low else MinOf(loaded)
  }

  /** The rows that `n` scrolls loaded, in the order of loading. */
  ghost function Loaded(db: Db, roomId: int, low: int, n: nat): seq<int> {
    if n == 0 then []
    else
      var loaded := Loaded(db, roomId, low, n - 1);
      loaded + NewRows(db, roomId, NextCursor(low, loaded))
  }

  function ToSet(ids: seq<int>): set<int> {
    set id | id in ids
  }

  lemma {:induction false} PrependNew(v: View, ids: seq<int>)
    requires NoRepeats(ids) && forall id :: id in ids ==> id > 0 && id !in v.displayed
    ensures PrependedAll(v, ids) == View(Reversed(ids) + v.bubbles, v.displayed + ToSet(ids))
    decreases |ids|
  {
    if ids == [] {
      assert Reversed(ids) + v.bubbles == v.bubbles;
    } else {
      var next, rest := Prepended(v, ids[0]), ids[1..];
      assert forall id :: id in rest ==> id in ids && id != ids[0];
      PrependNew(next, rest);
      assert ids == [ids[0]] + rest;
      assert Reversed(ids) == Reversed(rest) + [ids[0]];
      assert Reversed(rest) + next.bubbles == Reversed(ids) + v.bubbles;
      assert next.displayed + ToSet(rest) == v.displayed + ToSet(ids);
    }
  }

  lemma MinOfJoin(loaded: seq<int>, page: seq<int>)
    requires page != [] && forall x, y :: x in page && y in loaded ==> x < y
    ensures MinOf(loaded + page) == MinOf(page)
  {
    var m := MinOf(loaded + page);
    assert MinOf(page) in loaded + page;
    assert m in page || m in loaded;
  }

  lemma LeastOfLoaded(loaded: seq<int>)
    requires loaded != []
    ensures ToSet(loaded) != {} && Least(ToSet(loaded)) == MinOf(loaded)
  {
    assert loaded[0] in ToSet(loaded);
    assert MinOf(loaded) in ToSet(loaded);
  }

  lemma NewRowsFacts(db: Db, roomId: int, cursor: int)
    ensures var page := NewRows(db, roomId, cursor);
      && NoRepeats(page)
      && (forall id :: id in page ==> id in AllRows(db, roomId) && id < cursor)
      && Below(db, roomId, cursor) == page + if page == [] then [] else Below(db, roomId, MinOf(page))
  {
    RankedIsSorted(db.messages, Selected(db.messages, roomId, Some(cursor)));
    PageWithin(db.messages, roomId, OLDER_PAGE, Some(cursor));
  }

  /** What was loaded so far and what is still below the cursor make up what is below the start. */
  ghost predicate Splits(db: Db, roomId: int, low: int, loaded: seq<int>) {
    var cursor := NextCursor(low, loaded);
    && loaded + Below(db, roomId, cursor) == Below(db, roomId, low)
    && forall id :: id in loaded ==> id in AllRows(db, roomId) && cursor <= id < low
  }

  lemma Regroup(loaded: seq<int>, page: seq<int>, later: seq<int>)
    ensures loaded + (page + later) == (loaded + page) + later
  {
  }

  /** The cursor after one more page. */
  lemma CursorMoves(db: Db, roomId: int, low: int, loaded: seq<int>, page: seq<int>)
    requires page == NewRows(db, roomId, NextCursor(low, loaded))
    ensures NextCursor(low, loaded + page) == if page == [] then NextCursor(low, loaded) else MinOf(page)
  {
    NewRowsFacts(db, roomId, NextCursor(low, loaded));
    if page == [] {
      assert loaded + page == loaded;
    } else {
      MinOfJoin(loaded, page);
    }
  }

  lemma SplitsFurther(db: Db, roomId: int, low: int, loaded: seq<int>, page: seq<int>)
    requires Splits(db, roomId, low, loaded) && page == NewRows(db, roomId, NextCursor(low, loaded))
    ensures Splits(db, roomId, low, loaded + page)
  {
    var cursor := NextCursor(low, loaded);
    NewRowsFacts(db, roomId, cursor);
    CursorMoves(db, roomId, low, loaded, page);
    if page == [] {
      assert loaded + page == loaded;
    } else {
      Regroup(loaded, page, Below(db, roomId, MinOf(page)));
      forall id | id in loaded + page
        ensures id in AllRows(db, roomId) && MinOf(page) <= id < low
      {
        assert id in page || id in loaded;
        CursorBound(low, loaded);
      }
    }
  }

  lemma CursorBound(low: int, loaded: seq<int>)
    requires forall id :: id in loaded ==> id < low
    ensures NextCursor(low, loaded) <= low
  {
  }

  lemma {:induction false} LoadedSplits(db: Db, roomId: int, low: int, n: nat)
    ensures Splits(db, roomId, low, Loaded(db, roomId, low, n))
  {
    if n == 0 {
      assert [] + Below(db, roomId, low) == Below(db, roomId, low);
    } else {
      var loaded := Loaded(db, roomId, low, n - 1);
      LoadedSplits(db, roomId, low, n - 1);
      SplitsFurther(db, roomId, low, loaded, NewRows(db, roomId, NextCursor(low, loaded)));
    }
  }

  /** The first load and, above it, the rows loaded since, which alone are recorded. */
  ghost predicate Holding(v: View, first: seq<int>, loaded: seq<int>) {
    v.bubbles == Reversed(first + loaded) && v.displayed == ToSet(loaded)
  }

  lemma ScrollLoads(db: Db, roomId: int, v: View, first: seq<int>, loaded: seq<int>, page: seq<int>)
    requires Numbered(db, roomId) && roomId in db.sync && Splits(db, roomId, db.sync[roomId].low, loaded)
    requires Holding(v, first, loaded)
    requires page == NewRows(db, roomId, NextCursor(db.sync[roomId].low, loaded))
    ensures Holding(Scrolled(v, Indexed(db, roomId), OlderThan(db, roomId)), first, loaded + page)
  {
    var cursor := NextCursor(db.sync[roomId].low, loaded);
    NewRowsFacts(db, roomId, cursor);
    CursorIsNext(v, loaded, db.sync[roomId].low);
    PrependNew(v, page);
    JoinReversed(first, loaded, page);
  }

  lemma CursorIsNext(v: View, loaded: seq<int>, low: int)
    requires v.displayed == ToSet(loaded)
    ensures Cursor(v, Some(low)) == Some(NextCursor(low, loaded))
  {
    if loaded != [] {
      LeastOfLoaded(loaded);
    }
  }

  /** The view after `n` scrolls holds the first load and, above it, the rows loaded since. */
  lemma {:induction false} ScrollsLoad(db: Db, roomId: int, n: nat)
    requires Numbered(db, roomId) && roomId in db.sync
    ensures Holding(AfterScrolls(db, roomId, n), FirstLoad(db, roomId), Loaded(db, roomId, db.sync[roomId].low, n))
  {
    var first, low := FirstLoad(db, roomId), db.sync[roomId].low;
    if n == 0 {
      assert first + [] == first;
    } else {
      var m: nat := n - 1;
      var loaded := Loaded(db, roomId, low, m);
      var page := NewRows(db, roomId, NextCursor(low, loaded));
      assert Loaded(db, roomId, low, n) == loaded + page;
      assert Holding(AfterScrolls(db, roomId, m), first, loaded) by {
        ScrollsLoad(db, roomId, m);
      }
      assert Splits(db, roomId, low, loaded) by {
        LoadedSplits(db, roomId, low, m);
      }
      ScrollLoads(db, roomId, AfterScrolls(db, roomId, m), first, loaded, page);
    }
  }

  lemma JoinReversed(first: seq<int>, loaded: seq<int>, page: seq<int>)
    ensures Reversed(page) + Reversed(first + loaded) == Reversed(first + (loaded + page))
    ensures ToSet(loaded) + ToSet(page) == ToSet(loaded + page)
  {
    assert first + (loaded + page) == first + loaded + page;
  }

  ghost function LeftBelow(db: Db, roomId: int, cursor: int): nat {
    |Selected(db.messages, roomId, Some(cursor))|
  }

  /** A page of new rows leaves fewer rows below the cursor. */
  lemma FewerLeft(db: Db, roomId: int, cursor: int)
    requires NewRows(db, roomId, cursor) != []
    ensures LeftBelow(db, roomId, MinOf(NewRows(db, roomId, cursor))) < LeftBelow(db, roomId, cursor)
  {
    NewRowsFacts(db, roomId, cursor);
    PageWithin(db.messages, roomId, OLDER_PAGE, Some(cursor));
    CursorShrinks(db.messages, roomId, Some(cursor), MinOf(NewRows(db, roomId, cursor)));
  }

  /** Nothing is left below the cursor, or at least `n` rows fewer than at the start. */
  ghost predicate Near(db: Db, roomId: int, low: int, loaded: seq<int>, n: nat) {
    var cursor := NextCursor(low, loaded);
    NewRows(db, roomId, cursor) == [] || LeftBelow(db, roomId, cursor) + n <= LeftBelow(db, roomId, low)
  }

  lemma NearerByOne(db: Db, roomId: int, low: int, loaded: seq<int>, page: seq<int>, n: nat)
    requires page == NewRows(db, roomId, NextCursor(low, loaded))
    requires Near(db, roomId, low, loaded, n)
    ensures Near(db, roomId, low, loaded + page, n + 1)
  {
    var cursor := NextCursor(low, loaded);
    CursorMoves(db, roomId, low, loaded, page);
    if page != [] {
      FewerLeft(db, roomId, cursor);
    }
  }

  /** After enough scrolls everything below the start is loaded. */
  lemma {:induction false} EnoughScrolls(db: Db, roomId: int, low: int, n: nat)
    ensures Near(db, roomId, low, Loaded(db, roomId, low, n), n)
  {
    if n > 0 {
      var m: nat := n - 1;
      var loaded := Loaded(db, roomId, low, m);
      var page := NewRows(db, roomId, NextCursor(low, loaded));
      assert Loaded(db, roomId, low, n) == loaded + page;
      assert Near(db, roomId, low, loaded, m) by {
        EnoughScrolls(db, roomId, low, m);
      }
      NearerByOne(db, roomId, low, loaded, page, m);
    }
  }

  /** Scrolled to the end, the view holds the first load and what following the cursor down from the
      indexed minimum lists. */
  lemma ScrolledToTheEnd(db: Db, roomId: int, n: nat)
    requires Numbered(db, roomId) && roomId in db.sync
    requires n > |Selected(db.messages, roomId, Indexed(db, roomId))|
    ensures AfterScrolls(db, roomId, n).bubbles
         == Reversed(FirstLoad(db, roomId) + Below(db, roomId, db.sync[roomId].low))
  {
    var low := db.sync[roomId].low;
    var loaded := Loaded(db, roomId, low, n);
    ScrollsLoad(db, roomId, n);
    LoadedSplits(db, roomId, low, n);
    EnoughScrolls(db, roomId, low, n);
    NewRowsFacts(db, roomId, NextCursor(low, loaded));
    assert loaded + [] == loaded;
  }

  /** With rows of the first load below the indexed minimum, the best of those is loaded again. */
  lemma TopIsLoadedAgain(db: Db, roomId: int, low: int, id: int)
    requires low > 1 && id in FirstLoad(db, roomId) && id < low
    ensures NewRows(db, roomId, low) != [] && NewRows(db, roomId, low)[0] in FirstLoad(db, roomId)
  {
    var t, below := db.messages, Selected(db.messages, roomId, Some(low));
    PageWithin(t, roomId, FIRST_PAGE, None);
    RankedIsSorted(t, below);
    assert id in below;
    var top := Ranked(t, below)[0];
    assert top in Ranked(t, below) && top in AllRows(db, roomId);
    if top != id {
      var i :| 0 <= i < |Ranked(t, below)| && Ranked(t, below)[i] == id;
      assert Above(t, top, id);
      AboveIsLoaded(db, roomId, top, id);
    }
  }

  lemma AboveIsLoaded(db: Db, roomId: int, x: int, y: int)
    requires x in AllRows(db, roomId) && y in FirstLoad(db, roomId) && y in db.messages
    requires Above(db.messages, x, y)
    ensures x in FirstLoad(db, roomId)
  {
    var ids := Ranked(db.messages, AllRows(db, roomId));
    RankedIsSorted(db.messages, AllRows(db, roomId));
    var i :| 0 <= i < |ids| && ids[i] == x;
    var j :| 0 <= j < |FirstLoad(db, roomId)| && FirstLoad(db, roomId)[j] == y;
    assert ids[j] == y;
    assert i < j;
    assert FirstLoad(db, roomId)[i] == x;
  }

  lemma RepeatsAcross(a: seq<int>, b: seq<int>)
    requires NoRepeats(a) && NoRepeats(b)
    ensures NoRepeats(a + b) <==> forall x :: x in a ==> x !in b
  {
    if NoRepeats(a + b) {
      forall x | x in a
        ensures x !in b
      {
        var i :| 0 <= i < |a| && a[i] == x;
        assert (a + b)[i] == x;
        assert forall j :: 0 <= j < |b| ==> (a + b)[|a| + j] == b[j];
      }
    }
    if forall x :: x in a ==> x !in b {
      forall i, j | 0 <= i < j < |a + b|
        ensures (a + b)[i] != (a + b)[j]
      {
        if i < |a| <= j {
          assert a[i] in a && b[j - |a|] in b;
        }
      }
    }
  }

  lemma LoadedOnce(db: Db, roomId: int, low: int, n: nat)
    ensures NoRepeats(Loaded(db, roomId, low, n))
  {
    var loaded, rest := Loaded(db, roomId, low, n), Below(db, roomId, low);
    LoadedSplits(db, roomId, low, n);
    if low > 1 {
      ScrollShowsNoneTwice(db.messages, roomId, OLDER_PAGE, OLDER_PAGE, Some(low));
    }
    assert forall i :: 0 <= i < |loaded| ==> loaded[i] == rest[i];
  }

  lemma {:induction false} LoadedGrows(db: Db, roomId: int, low: int, n: nat)
    requires n > 0
    ensures forall id :: id in NewRows(db, roomId, low) ==> id in Loaded(db, roomId, low, n)
  {
    if n == 1 {
      assert Loaded(db, roomId, low, 0) == [];
      assert [] + NewRows(db, roomId, low) == NewRows(db, roomId, low);
    } else {
      LoadedGrows(db, roomId, low, n - 1);
    }
  }

  /** Whatever the index says: once scrolled, the view shows a row twice exactly when the first load went
      below the indexed minimum. */
  lemma StaleIndexRepeatsIff(db: Db, roomId: int, n: nat)
    requires Numbered(db, roomId) && roomId in db.sync && n > 0
    ensures !ShowsNoneTwice(db, roomId, n) <==> exists id :: id in FirstLoad(db, roomId) && id < db.sync[roomId].low
  {
    var first, low := FirstLoad(db, roomId), db.sync[roomId].low;
    var loaded := Loaded(db, roomId, low, n);
    ScrollsLoad(db, roomId, n);
    ReversedRepeats(first + loaded);
    FirstLoadFacts(db, roomId);
    LoadedOnce(db, roomId, low, n);
    RepeatsAcross(first, loaded);
    LoadedSplits(db, roomId, low, n);
    if id :| id in first && id < low {
      assert id in AllRows(db, roomId);
      TopIsLoadedAgain(db, roomId, low, id);
      LoadedGrows(db, roomId, low, n);
      assert NewRows(db, roomId, low)[0] in NewRows(db, roomId, low);
    }
  }

  // ---------- over runs of the cache ----------

  lemma {:induction false} CachedIdsNotNegative(ops: seq<Op>)
    ensures forall id :: id in Run(ops).live.messages || id in Run(ops).saved.messages ==> id >= 0
  {
    if ops != [] {
      CachedIdsNotNegative(ops[..|ops| - 1]);
    }
  }

  /** As long as restarts lose no bound and every id belongs to one room: when all rows are numbered, no
      amount of scrolling shows more than the first load, nor any row twice. */
  lemma ScrollingShowsNoMore(ops: seq<Op>, roomId: int, n: nat)
    requires OneRoomEach(ops) && RestartsSaved(ops) && Numbered(Run(ops).live, roomId)
    ensures AfterScrolls(Run(ops).live, roomId, n) == Entered(Run(ops).live, roomId)
    ensures ShowsWholeRoom(Run(ops).live, roomId, n) <==> |AllRows(Run(ops).live, roomId)| <= FIRST_PAGE
  {
    var db := Run(ops).live;
    assert ops[..|ops|] == ops;
    SavedRestartsKeepIndex(ops, |ops|);
    assert RoomIndexed(db, roomId);
    ScrollsOnlyRepeat(db, roomId, n);
    WholeRoomIff(db, roomId, n);
    assert [] + Reversed(FirstLoad(db, roomId)) == Reversed(FirstLoad(db, roomId));
  }
}
