/** The notification inbox: newest-first keyset pages with one row of lookahead, and marking as read. */
module Inbox {
  import opened Wrappers
  import opened Names
  import opened Sorting
  import opened Keyset

  datatype Note = Note(id: nat, recipient: Name, createdAt: int, readAt: Option<int>)

  /** What the cursor encodes. */
  datatype Key = Key(createdAt: int, id: nat)

  function KeyOf(note: Note): Key {
    Key(note.createdAt, note.id)
  }

  predicate Newer(a: Key, b: Key) {
    a.createdAt > b.createdAt || (a.createdAt == b.createdAt && a.id > b.id)
  }

  function NewestFirst(): (Key, Key) -> bool {
    (a, b) => a == b || Newer(a, b)
  }

  lemma NewestFirstIsTotal()
    ensures TotalPreorder(NewestFirst()) && Antisymmetric(NewestFirst())
  {
  }

  function Listed(keys: seq<Key>): seq<Key> {
    NewestFirstIsTotal();
    Sort(keys, NewestFirst())
  }

  function Listing(): seq<Key> -> seq<Key> {
    keys => Listed(keys)
  }

  lemma ListingSorts()
    ensures Sorts(Listing(), NewestFirst())
  {
    NewestFirstIsTotal();
    forall keys: seq<Key>
      ensures Sorted(Listing()(keys), NewestFirst()) && multiset(Listing()(keys)) == multiset(keys)
    {
      SortMultiset(keys, NewestFirst());
    }
  }

  /// Reading a page

  predicate Concerns(note: Note, user: Name, unreadOnly: bool) {
    note.recipient == user && (unreadOnly ==> note.readAt.None?)
  }

  /** The user's notifications, as keys. */
  function Visible(rows: seq<Note>, user: Name, unreadOnly: bool): seq<Key> {
    if rows == [] then []
    else
      var last := rows[|rows| - 1];
      Visible(rows[..|rows| - 1], user, unreadOnly) + if Concerns(last, user, unreadOnly) then [KeyOf(last)] else []
  }

  function UnreadCount(rows: seq<Note>, user: Name): nat {
    |Visible(rows, user, true)|
  }

  /** The rows of the user, or the unread ones, by position. */
  function Theirs(rows: seq<Note>, user: Name, unreadOnly: bool): set<nat> {
    set i | 0 <= i < |rows| && rows[i].recipient == user && (unreadOnly ==> rows[i].readAt.None?)
  }

  /** One key for each. */
  lemma {:induction false} VisibleCounts(rows: seq<Note>, user: Name, unreadOnly: bool)
    ensures |Visible(rows, user, unreadOnly)| == |Theirs(rows, user, unreadOnly)|
  {
    if rows == [] {
      assert Theirs(rows, user, unreadOnly) == {};
    } else {
      var n := |rows| - 1;
      var front, last := rows[..n], rows[n];
      VisibleCounts(front, user, unreadOnly);
      assert Theirs(rows, user, unreadOnly)
             == Theirs(front, user, unreadOnly)
                + if last.recipient == user && (unreadOnly ==> last.readAt.None?) then {n} else {};
    }
  }

  /** What is visible are the keys of those rows. */
  lemma {:induction false} VisibleMeans(rows: seq<Note>, user: Name, unreadOnly: bool, key: Key)
    ensures key in Visible(rows, user, unreadOnly)
            <==> exists i :: i in Theirs(rows, user, unreadOnly) && key == Key(rows[i].createdAt, rows[i].id)
  {
    if rows == [] {
    } else {
      var n := |rows| - 1;
      VisibleMeans(rows[..n], user, unreadOnly, key);
      assert forall i :: i in Theirs(rows[..n], user, unreadOnly) ==>
                           i in Theirs(rows, user, unreadOnly) && rows[..n][i] == rows[i];
      assert forall i :: i in Theirs(rows, user, unreadOnly) && i != n ==> i in Theirs(rows[..n], user, unreadOnly);
      assert n in Theirs(rows, user, unreadOnly) <==> Concerns(rows[n], user, unreadOnly);
    }
  }

  function Least(a: nat, b: nat): nat {
    if a <= b then a else b
  }

  function ClampLimit(limit: int): nat {
    if limit > 100 then 100 else if limit < 1 then 1 else limit
  }

  function InboxPage(rows: seq<Note>, user: Name, unreadOnly: bool, limit: int, cursor: Option<Key>): seq<Key> {
    Page(Listing(), Visible(rows, user, unreadOnly), NewestFirst(), cursor, ClampLimit(limit))
  }

  function Left(rows: seq<Note>, user: Name, unreadOnly: bool, cursor: Option<Key>): seq<Key> {
    Rest(Visible(rows, user, unreadOnly), NewestFirst(), cursor)
  }

  method Query(rows: seq<Note>, user: Name, unreadOnly: bool, cursor: Option<Key>) returns (matching: seq<Key>)
    ensures matching == Left(rows, user, unreadOnly, cursor)
  {
    matching := Visible(rows, user, unreadOnly);
    if cursor.Some? {
      matching := Filter(matching, Past(NewestFirst(), cursor));
    } else {
      FilterAll(matching, Past(NewestFirst(), cursor));
    }
  }

  /** One row more than the page tells whether anything remains behind it. */
  lemma Peek(matching: seq<Key>, size: nat)
    requires size > 0
    ensures var listing := Listing()(matching);
            var peeked := Take(listing, size + 1);
            && Take(peeked, size) == Take(listing, size)
            && (|peeked| > size <==> |matching| > |Take(listing, size)|)
            && (|peeked| > size ==> Take(listing, size) != [])
  {
    ListingSorts();
    SortLength(Listing(), NewestFirst(), matching);
  }

  class Mailbox {
    var rows: seq<Note>

    /** One page, and a cursor exactly when something remains behind it. */
    method GetInbox(user: Name, unreadOnly: bool, limit: int, cursor: Option<Key>)
      returns (items: seq<Key>, unread: nat, next: Option<Key>)
      ensures items == InboxPage(rows, user, unreadOnly, limit, cursor)
      ensures |items| == Least(if limit > 100 then 100 else if limit < 1 then 1 else limit,
                               |Left(rows, user, unreadOnly, cursor)|)
      ensures unread == |Theirs(rows, user, true)|
      ensures next.Some? <==> |Left(rows, user, unreadOnly, cursor)| > |items|
      ensures next.Some? ==> items != [] && next.value == items[|items| - 1]
    {
      ListingSorts();
      var matching := Query(rows, user, unreadOnly, cursor);
      var size := ClampLimit(limit);
      var peeked := Take(Listing()(matching), size + 1);
      Peek(matching, size);
      var hasMore := |peeked| > size;
      items := Take(peeked, size);
      next := if hasMore && items != [] then Some(items[|items| - 1]) else None;
      unread := UnreadCount(rows, user);
      VisibleCounts(rows, user, true);
      PageLength(Listing(), Visible(rows, user, unreadOnly), NewestFirst(), cursor, size);
    }

    /** Marks the user's unread notifications among `ids`, or all of them, as read. */
    method MarkInboxRead(user: Name, ids: Option<set<nat>>, now: int) returns (count: nat)
      modifies this
      ensures rows == Marked(old(rows), user, ids, now)
      ensures count == Flipped(old(rows), user, ids)
    {
      count := 0;
      var i := 0;
      ghost var before := rows;
      while i < |rows|
        invariant i <= |rows| == |before| && rows == MarkedTo(before, i, user, ids, now)
        invariant count == Flipped(before[..i], user, ids)
      {
        MarkNext(before, i, user, ids, now);
        if Flips(rows[i], user, ids) {
          rows := rows[i := rows[i].(readAt := Some(now))];
          count := count + 1;
        }
        i := i + 1;
      }
      assert before[..i] == before;
    }
  }

  /** The user's unread rows among the ids, by position. */
  function Fresh(rows: seq<Note>, user: Name, ids: Option<set<nat>>): set<nat> {
    set i | 0 <= i < |rows| && Flips(rows[i], user, ids)
  }

  lemma {:induction false} FlippedCounts(rows: seq<Note>, user: Name, ids: Option<set<nat>>)
    ensures Flipped(rows, user, ids) == |Fresh(rows, user, ids)|
  {
    if rows == [] {
      assert Fresh(rows, user, ids) == {};
    } else {
      var n := |rows| - 1;
      var front, last := rows[..n], rows[n];
      FlippedCounts(front, user, ids);
      assert Fresh(rows, user, ids)
             == Fresh(front, user, ids) + if Flips(last, user, ids) then {n} else {};
    }
  }

  predicate Flips(note: Note, user: Name, ids: Option<set<nat>>) {
    note.recipient == user && note.readAt.None? && (ids.Some? ==> note.id in ids.value)
  }

  function Mark(note: Note, user: Name, ids: Option<set<nat>>, now: int): Note {
    if Flips(note, user, ids) then note.(readAt := Some(now)) else note
  }

  function Marked(rows: seq<Note>, user: Name, ids: Option<set<nat>>, now: int): (marked: seq<Note>)
    ensures |marked| == |rows|
  {
    seq(|rows|, i requires 0 <= i < |rows| => Mark(rows[i], user, ids, now))
  }

  function Flipped(rows: seq<Note>, user: Name, ids: Option<set<nat>>): nat {
    if rows == [] then 0
    else Flipped(rows[..|rows| - 1], user, ids) + if Flips(rows[|rows| - 1], user, ids) then 1 else 0
  }

  /** Marking makes exactly the fresh rows read, now, and there are as many as it reports. */
  lemma MarkedMeans(rows: seq<Note>, user: Name, ids: Option<set<nat>>, now: int)
    ensures |Marked(rows, user, ids, now)| == |rows| && Flipped(rows, user, ids) == |Fresh(rows, user, ids)|
    ensures forall i :: i in Fresh(rows, user, ids)
                        <==> 0 <= i < |rows| && rows[i].recipient == user && rows[i].readAt.None?
                             && (ids.Some? ==> rows[i].id in ids.value)
    ensures forall i :: 0 <= i < |rows| ==>
                          Marked(rows, user, ids, now)[i]
                          == if i in Fresh(rows, user, ids) then rows[i].(readAt := Some(now)) else rows[i]
  {
    FlippedCounts(rows, user, ids);
  }

  /** The first `i` rows marked. */
  function MarkedTo(rows: seq<Note>, i: nat, user: Name, ids: Option<set<nat>>, now: int): seq<Note>
    requires i <= |rows|
  {
    Marked(rows[..i], user, ids, now) + rows[i..]
  }

  lemma MarkNext(rows: seq<Note>, i: nat, user: Name, ids: Option<set<nat>>, now: int)
    requires i < |rows|
    ensures MarkedTo(rows, i, user, ids, now)[i] == rows[i]
    ensures MarkedTo(rows, i + 1, user, ids, now)
            == MarkedTo(rows, i, user, ids, now)[i := Mark(rows[i], user, ids, now)]
    ensures Flipped(rows[..i + 1], user, ids)
            == Flipped(rows[..i], user, ids) + if Flips(rows[i], user, ids) then 1 else 0
  {
    assert rows[..i + 1][..i] == rows[..i];
  }

  /** Marking again flips nothing, and what was flipped is what is no longer unread; nobody else's count
      moves. */
  lemma {:induction false} MarkingCounts(rows: seq<Note>, user: Name, ids: Option<set<nat>>, now: int, other: Name)
    ensures Flipped(Marked(rows, user, ids, now), user, ids) == 0
    ensures UnreadCount(rows, user) == UnreadCount(Marked(rows, user, ids, now), user) + Flipped(rows, user, ids)
    ensures other != user ==> UnreadCount(Marked(rows, user, ids, now), other) == UnreadCount(rows, other)
    ensures ids.None? ==> UnreadCount(Marked(rows, user, ids, now), user) == 0
  {
    if rows == [] {
    } else {
      var front := rows[..|rows| - 1];
      MarkingCounts(front, user, ids, now, other);
      assert Marked(rows, user, ids, now)[..|rows| - 1] == Marked(front, user, ids, now);
    }
  }

  /// Walking the inbox while it changes

  /** Between two pages notifications newer than the cursor may be added, shown ones may be marked read,
      and other people's may change in any way that keeps them theirs. */
  ghost predicate Quiet(rows: seq<Note>, later: seq<Note>, user: Name, cursor: Key) {
    && |rows| <= |later|
    && (forall j :: 0 <= j < |rows| ==> MayBecome(rows[j], later[j], user, cursor))
    && (forall j :: |rows| <= j < |later| ==>
          later[j].recipient != user || !Behind(NewestFirst(), Some(cursor), KeyOf(later[j])))
  }

  predicate MayBecome(note: Note, now: Note, user: Name, cursor: Key) {
    && now.id == note.id && now.recipient == note.recipient && now.createdAt == note.createdAt
    && (now.readAt != note.readAt && note.recipient == user ==> !Behind(NewestFirst(), Some(cursor), KeyOf(note)))
  }

  lemma LeftSnoc(rows: seq<Note>, i: nat, user: Name, unreadOnly: bool, cursor: Option<Key>)
    requires i < |rows|
    ensures Left(rows[..i + 1], user, unreadOnly, cursor) ==
            if Concerns(rows[i], user, unreadOnly) && Behind(NewestFirst(), cursor, KeyOf(rows[i]))
            then Left(rows[..i], user, unreadOnly, cursor) + [KeyOf(rows[i])]
            else Left(rows[..i], user, unreadOnly, cursor)
  {
    assert rows[..i + 1][..i] == rows[..i];
    var keys := Visible(rows[..i], user, unreadOnly);
    if Concerns(rows[i], user, unreadOnly) {
      assert (keys + [KeyOf(rows[i])])[..|keys|] == keys;
    } else {
      assert keys + [] == keys;
    }
  }

  /** A row shown behind the cursor is shown there still. */
  lemma StillShown(note: Note, now: Note, user: Name, unreadOnly: bool, cursor: Key)
    requires MayBecome(note, now, user, cursor)
    ensures KeyOf(now) == KeyOf(note)
    ensures Concerns(now, user, unreadOnly) && Behind(NewestFirst(), Some(cursor), KeyOf(now))
            <==> Concerns(note, user, unreadOnly) && Behind(NewestFirst(), Some(cursor), KeyOf(note))
  {
  }

  /** Row by row, a quiet change of the old rows shows the same keys behind the cursor. */
  lemma {:induction false} OldRowsKeep(rows: seq<Note>, later: seq<Note>, user: Name, unreadOnly: bool, cursor: Key,
                                       i: nat)
    requires Quiet(rows, later, user, cursor) && i <= |rows|
    ensures Left(later[..i], user, unreadOnly, Some(cursor)) == Left(rows[..i], user, unreadOnly, Some(cursor))
    decreases i
  {
    if i == 0 {
      assert later[..0] == rows[..0];
    } else {
      OldRowsKeep(rows, later, user, unreadOnly, cursor, i - 1);
      LeftSnoc(later, i - 1, user, unreadOnly, Some(cursor));
      LeftSnoc(rows, i - 1, user, unreadOnly, Some(cursor));
      StillShown(rows[i - 1], later[i - 1], user, unreadOnly, cursor);
    }
  }

  /** The new rows show nothing behind it. */
  lemma {:induction false} NewRowsKeep(rows: seq<Note>, later: seq<Note>, user: Name, unreadOnly: bool, cursor: Key,
                                       i: nat)
    requires Quiet(rows, later, user, cursor) && |rows| <= i <= |later|
    ensures Left(later[..i], user, unreadOnly, Some(cursor)) == Left(later[..|rows|], user, unreadOnly, Some(cursor))
    decreases i
  {
    if i == |rows| {
    } else {
      NewRowsKeep(rows, later, user, unreadOnly, cursor, i - 1);
      LeftSnoc(later, i - 1, user, unreadOnly, Some(cursor));
    }
  }

  lemma QuietIsSameBehind(rows: seq<Note>, later: seq<Note>, user: Name, unreadOnly: bool, cursor: Key)
    requires Quiet(rows, later, user, cursor)
    ensures SameBehind(Visible(rows, user, unreadOnly), Visible(later, user, unreadOnly), NewestFirst(), Some(cursor))
  {
    OldRowsKeep(rows, later, user, unreadOnly, cursor, |rows|);
    NewRowsKeep(rows, later, user, unreadOnly, cursor, |later|);
    assert later[..|later|] == later && rows[..|rows|] == rows;
  }

  ghost predicate DistinctIds(rows: seq<Note>) {
    forall i, j :: 0 <= i < j < |rows| ==> rows[i].id != rows[j].id
  }

  lemma {:induction false} VisibleHasRow(rows: seq<Note>, user: Name, unreadOnly: bool, key: Key) returns (i: nat)
    requires key in Visible(rows, user, unreadOnly)
    ensures i < |rows| && KeyOf(rows[i]) == key
  {
    var front, last := rows[..|rows| - 1], rows[|rows| - 1];
    if key in Visible(front, user, unreadOnly) {
      i := VisibleHasRow(front, user, unreadOnly, key);
    } else {
      i := |rows| - 1;
    }
  }

  lemma {:induction false} VisibleIsUnique(rows: seq<Note>, user: Name, unreadOnly: bool, key: Key)
    requires DistinctIds(rows)
    ensures multiset(Visible(rows, user, unreadOnly))[key] <= 1
  {
    if rows == [] {
    } else {
      var front, last := rows[..|rows| - 1], rows[|rows| - 1];
      VisibleIsUnique(front, user, unreadOnly, key);
      if key in Visible(front, user, unreadOnly) {
        var i := VisibleHasRow(front, user, unreadOnly, key);
        assert rows[i].id != last.id;
      }
      assert multiset(Visible(front, user, unreadOnly))[key] > 0 <==> key in Visible(front, user, unreadOnly);
    }
  }

  lemma NoKeyTwice(rows: seq<Note>, user: Name, unreadOnly: bool)
    requires DistinctIds(rows)
    ensures Unique(Visible(rows, user, unreadOnly))
  {
    forall key
      ensures multiset(Visible(rows, user, unreadOnly))[key] <= 1
    {
      VisibleIsUnique(rows, user, unreadOnly, key);
    }
  }

  /** `GetInbox` called again and again with the cursor it returned. */
  ghost predicate Visited(tables: seq<seq<Note>>, pages: seq<seq<Key>>, user: Name, unreadOnly: bool, limit: int) {
    && |pages| == |tables| > 0
    && (forall i :: 0 <= i < |pages| ==> VisitedAt(tables, pages, user, unreadOnly, limit, i))
  }

  ghost predicate VisitedAt(tables: seq<seq<Note>>, pages: seq<seq<Key>>, user: Name, unreadOnly: bool, limit: int,
                            i: nat)
    requires i < |pages| == |tables|
  {
    && DistinctIds(tables[i])
    && pages[i] == InboxPage(tables[i], user, unreadOnly, limit, CursorAt(pages, None, i))
    && (i + 1 < |pages| ==> pages[i] != [] && Quiet(tables[i], tables[i + 1], user, pages[i][|pages[i]| - 1]))
  }

  function Snapshots(tables: seq<seq<Note>>, user: Name, unreadOnly: bool): seq<seq<Key>> {
    seq(|tables|, i requires 0 <= i < |tables| => Visible(tables[i], user, unreadOnly))
  }

  lemma VisitedIsTurned(tables: seq<seq<Note>>, pages: seq<seq<Key>>, user: Name, unreadOnly: bool, limit: int, i: nat)
    requires |pages| == |tables| && i < |pages| && VisitedAt(tables, pages, user, unreadOnly, limit, i)
    ensures Turned(Listing(), Snapshots(tables, user, unreadOnly), pages, NewestFirst(), None, ClampLimit(limit), i)
  {
    NoKeyTwice(tables[i], user, unreadOnly);
    if i + 1 < |pages| {
      QuietIsSameBehind(tables[i], tables[i + 1], user, unreadOnly, pages[i][|pages[i]| - 1]);
    }
  }

  lemma VisitedIsWalked(tables: seq<seq<Note>>, pages: seq<seq<Key>>, user: Name, unreadOnly: bool, limit: int)
    requires Visited(tables, pages, user, unreadOnly, limit)
    ensures Walked(Listing(), Snapshots(tables, user, unreadOnly), pages, NewestFirst(), None, ClampLimit(limit))
  {
    forall i: nat | i < |pages|
      ensures Turned(Listing(), Snapshots(tables, user, unreadOnly), pages, NewestFirst(), None, ClampLimit(limit), i)
    {
      assert VisitedAt(tables, pages, user, unreadOnly, limit, i);
      VisitedIsTurned(tables, pages, user, unreadOnly, limit, i);
    }
  }

  /** The last answer carried no cursor: its page took all that was left, at most a page. */
  lemma NoCursorNothingLeft(tables: seq<seq<Note>>, pages: seq<seq<Key>>, user: Name, unreadOnly: bool, limit: int)
    requires Visited(tables, pages, user, unreadOnly, limit)
    requires var k := |pages| - 1; |Left(tables[k], user, unreadOnly, CursorAt(pages, None, k))| <= |pages[k]|
    ensures var k := |pages| - 1; |Left(tables[k], user, unreadOnly, CursorAt(pages, None, k))| <= ClampLimit(limit)
  {
    var k := |pages| - 1;
    assert VisitedAt(tables, pages, user, unreadOnly, limit, k);
    ListingSorts();
    PageLength(Listing(), Visible(tables[k], user, unreadOnly), NewestFirst(), CursorAt(pages, None, k),
               ClampLimit(limit));
  }

  /** Following `next_cursor` to its end visits every notification present at the start, unread-only or
      not, exactly once and newest first, although newer ones arrive and shown ones are marked read. */
  lemma InboxWalk(tables: seq<seq<Note>>, pages: seq<seq<Key>>, user: Name, unreadOnly: bool, limit: int)
    requires Visited(tables, pages, user, unreadOnly, limit)
    requires var k := |pages| - 1; |Left(tables[k], user, unreadOnly, CursorAt(pages, None, k))| <= |pages[k]|
    ensures Concat(pages) == Listing()(Visible(tables[0], user, unreadOnly))
  {
    ListingSorts();
    VisitedIsWalked(tables, pages, user, unreadOnly, limit);
    NoCursorNothingLeft(tables, pages, user, unreadOnly, limit);
    LastPageEnds(Listing(), Snapshots(tables, user, unreadOnly), pages, NewestFirst(), None, ClampLimit(limit));
    FilterAll(Visible(tables[0], user, unreadOnly), Past(NewestFirst(), None));
  }

  /** The listing is of exactly the user's notifications, strictly newest first. */
  lemma ListedNewestFirst(rows: seq<Note>, user: Name, unreadOnly: bool)
    requires DistinctIds(rows)
    ensures var listing := Listing()(Visible(rows, user, unreadOnly));
            && multiset(listing) == multiset(Visible(rows, user, unreadOnly))
            && forall i, j :: 0 <= i < j < |listing| ==>
                                listing[i].createdAt > listing[j].createdAt
                                || (listing[i].createdAt == listing[j].createdAt && listing[i].id > listing[j].id)
  {
    ListingSorts();
    NoKeyTwice(rows, user, unreadOnly);
    var listing := Listing()(Visible(rows, user, unreadOnly));
    assert Sorted(listing, NewestFirst()) && multiset(listing) == multiset(Visible(rows, user, unreadOnly));
    forall i, j | 0 <= i < j < |listing|
      ensures Newer(listing[i], listing[j])
    {
      assert NewestFirst()(listing[i], listing[j]);
      assert multiset(Visible(rows, user, unreadOnly))[listing[i]] <= 1;
      TwiceIn(listing, i, j);
    }
  }
}
