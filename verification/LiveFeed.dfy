/** The live feed: three sources merged by (timestamp, kind, id), each queried by its own keyset and
    limit, and paged by one cursor. */
module LiveFeed {
  import opened Wrappers
  import opened Sorting
  import opened Keyset

  /** In the order the cursor breaks ties. */
  datatype Kind = Comment | Post | Vote

  datatype Event = Event(ts: int, kind: Kind, id: nat)

  datatype Tables = Tables(comments: seq<Event>, posts: seq<Event>, votes: seq<Event>)

  const PAGE_SIZE := 30
  const FETCH_PER_SOURCE := 300
  const NEWER_LIMIT := 50

  function Rank(kind: Kind): nat {
    match kind
    case Comment => 0
    case Post => 1
    case Vote => 2
  }

  function Source(tables: Tables, kind: Kind): seq<Event> {
    match kind
    case Comment => tables.comments
    case Post => tables.posts
    case Vote => tables.votes
  }

  /** Each table holds its own kind, and no row twice. */
  ghost predicate WellKept(tables: Tables) {
    forall kind :: Unique(Source(tables, kind)) && forall e :: e in Source(tables, kind) ==> e.kind == kind
  }

  /// The global order

  predicate Newer(a: Event, b: Event) {
    a.ts > b.ts || (a.ts == b.ts && (Rank(a.kind) > Rank(b.kind) || (a.kind == b.kind && a.id > b.id)))
  }

  /** Later events are newer; at one time votes come before posts and posts before comments, and of one kind the
      larger id first. */
  lemma NewerMeans(a: Event, b: Event)
    ensures a.ts > b.ts ==> Newer(a, b) && !Newer(b, a)
    ensures a.ts == b.ts && a.kind.Vote? && !b.kind.Vote? ==> Newer(a, b) && !Newer(b, a)
    ensures a.ts == b.ts && a.kind.Post? && b.kind.Comment? ==> Newer(a, b) && !Newer(b, a)
    ensures a.ts == b.ts && a.kind == b.kind ==> (Newer(a, b) <==> a.id > b.id)
  {
  }

  /** Newest first on older pages; oldest first while looking for what is newer. */
  function Order(newer: bool): (Event, Event) -> bool {
    (a, b) => a == b || (if newer then Newer(b, a) else Newer(a, b))
  }

  lemma OrderIsTotal(newer: bool)
    ensures TotalPreorder(Order(newer)) && Antisymmetric(Order(newer))
  {
  }

  function Listed(events: seq<Event>, newer: bool): seq<Event> {
    OrderIsTotal(newer);
    Sort(events, Order(newer))
  }

  function Listing(newer: bool): seq<Event> -> seq<Event> {
    events => Listed(events, newer)
  }

  lemma ListingSorts(newer: bool)
    ensures Sorts(Listing(newer), Order(newer))
  {
    OrderIsTotal(newer);
    forall events: seq<Event>
      ensures Sorted(Listing(newer)(events), Order(newer)) && multiset(Listing(newer)(events)) == multiset(events)
    {
      SortMultiset(events, Order(newer));
    }
  }

  /// One source

  /** What the query asks of a row: a source of another kind owns its whole tie group, or none of it. */
  predicate KeysetPredicate(row: Event, cursor: Event, newer: bool) {
    if newer then
      if Rank(row.kind) > Rank(cursor.kind) then row.ts >= cursor.ts
      else if Rank(row.kind) < Rank(cursor.kind) then row.ts > cursor.ts
      else row.ts > cursor.ts || (row.ts == cursor.ts && row.id > cursor.id)
    else
      if Rank(row.kind) < Rank(cursor.kind) then row.ts <= cursor.ts
      else if Rank(row.kind) > Rank(cursor.kind) then row.ts < cursor.ts
      else row.ts < cursor.ts || (row.ts == cursor.ts && row.id < cursor.id)
  }

  /** The per-source keyset is the global comparison with the cursor. */
  lemma KeysetIsGlobal(row: Event, cursor: Event, newer: bool)
    ensures KeysetPredicate(row, cursor, newer) <==> Behind(Order(newer), Some(cursor), row)
  {
    assert Rank(row.kind) == Rank(cursor.kind) <==> row.kind == cursor.kind;
  }

  function Matches(cursor: Option<Event>, newer: bool): Event -> bool {
    row => cursor.Some? ==> KeysetPredicate(row, cursor.value, newer)
  }

  function FetchRows(rows: seq<Event>, newer: bool, cursor: Option<Event>): seq<Event> {
    Take(Listing(newer)(Filter(rows, Matches(cursor, newer))), FETCH_PER_SOURCE)
  }

  lemma {:induction false} SameFilter(rows: seq<Event>, newer: bool, cursor: Option<Event>)
    ensures Filter(rows, Matches(cursor, newer)) == Rest(rows, Order(newer), cursor)
  {
    if rows == [] {
    } else {
      SameFilter(rows[..|rows| - 1], newer, cursor);
      if cursor.Some? { KeysetIsGlobal(rows[|rows| - 1], cursor.value, newer); }
    }
  }

  /// The merge

  function Sources(tables: Tables, kinds: seq<Kind>): seq<seq<Event>> {
    seq(|kinds|, i requires 0 <= i < |kinds| => Source(tables, kinds[i]))
  }

  /** Every event of the selected kinds. */
  function Feed(tables: Tables, kinds: seq<Kind>): seq<Event> {
    Concat(Sources(tables, kinds))
  }

  function Limit(newer: bool): nat {
    if newer then NEWER_LIMIT else PAGE_SIZE
  }

  /** What the page should show, before the newer ones are turned newest first. */
  function FeedPage(tables: Tables, newer: bool, cursor: Option<Event>, kinds: seq<Kind>): seq<Event> {
    Page(Listing(newer), Feed(tables, kinds), Order(newer), cursor, Limit(newer))
  }

  function Reversed(s: seq<Event>): seq<Event> {
    if s == [] then [] else Reversed(s[1..]) + [s[0]]
  }

  function Rests(tables: Tables, newer: bool, cursor: Option<Event>, kinds: seq<Kind>): seq<seq<Event>> {
    seq(|kinds|, i requires 0 <= i < |kinds| => Rest(Source(tables, kinds[i]), Order(newer), cursor))
  }

  lemma {:induction false} FilterConcat(a: seq<Event>, b: seq<Event>, p: Event -> bool)
    ensures Filter(a + b, p) == Filter(a, p) + Filter(b, p)
  {
    if b == [] {
      assert a + b == a;
    } else {
      FilterConcat(a, b[..|b| - 1], p);
      assert (a + b)[..|a + b| - 1] == a + b[..|b| - 1];
    }
  }

  lemma {:induction false} RestOfFeed(tables: Tables, newer: bool, cursor: Option<Event>, kinds: seq<Kind>)
    ensures Rest(Feed(tables, kinds), Order(newer), cursor) == Concat(Rests(tables, newer, cursor, kinds))
  {
    if kinds == [] {
    } else {
      var front := kinds[..|kinds| - 1];
      RestOfFeed(tables, newer, cursor, front);
      assert Sources(tables, kinds)[..|kinds| - 1] == Sources(tables, front);
      assert Rests(tables, newer, cursor, kinds)[..|kinds| - 1] == Rests(tables, newer, cursor, front);
      FilterConcat(Feed(tables, front), Source(tables, kinds[|kinds| - 1]), Past(Order(newer), cursor));
    }
  }

  lemma FetchedIsHead(tables: Tables, newer: bool, cursor: Option<Event>, kinds: seq<Kind>, i: nat)
    requires i < |kinds|
    ensures FetchRows(Source(tables, kinds[i]), newer, cursor)
            == Heads(Listing(newer), Rests(tables, newer, cursor, kinds), FETCH_PER_SOURCE)[i]
  {
    SameFilter(Source(tables, kinds[i]), newer, cursor);
  }

  lemma {:induction false} FetchedIsBehind(rows: seq<Event>, newer: bool, cursor: Option<Event>, e: Event)
    requires e in FetchRows(rows, newer, cursor)
    ensures Behind(Order(newer), cursor, e)
  {
    var rest := Filter(rows, Matches(cursor, newer));
    ListingSorts(newer);
    SameFilter(rows, newer, cursor);
    RestCount(rows, Order(newer), cursor, e);
    assert multiset(Listing(newer)(rest)) == multiset(rest);
    assert multiset(Listing(newer)(rest))[e] > 0;
  }

  /** Queries every source, keeps what lies past the cursor in the global order, and cuts one page. */
  method CollectRows(tables: Tables, newer: bool, cursor: Option<Event>, kinds: seq<Kind>) returns (rows: seq<Event>)
    ensures rows == Concat(Heads(Listing(newer), Rests(tables, newer, cursor, kinds), 300))
    ensures forall e :: e in rows ==> Behind(Order(newer), cursor, e)
  {
    rows := [];
    ghost var heads := Heads(Listing(newer), Rests(tables, newer, cursor, kinds), FETCH_PER_SOURCE);
    for i := 0 to |kinds|
      invariant rows == Concat(heads[..i])
      invariant forall e :: e in rows ==> Behind(Order(newer), cursor, e)
    {
      FetchedIsHead(tables, newer, cursor, kinds, i);
      ConcatSnoc(heads, i);
      var fetched := FetchRows(Source(tables, kinds[i]), newer, cursor);
      forall e | e in fetched
        ensures Behind(Order(newer), cursor, e)
      {
        FetchedIsBehind(Source(tables, kinds[i]), newer, cursor, e);
      }
      rows := rows + fetched;
    }
    assert heads[..|kinds|] == heads;
  }

  /** Fetching at most 300 rows of each source loses nothing from the page. */
  lemma NothingLost(tables: Tables, newer: bool, cursor: Option<Event>, kinds: seq<Kind>)
    ensures var heads := Heads(Listing(newer), Rests(tables, newer, cursor, kinds), 300);
            Take(Listing(newer)(Concat(heads)), if newer then 50 else 30)
            == FeedPage(tables, newer, cursor, kinds)
  {
    var parts := Rests(tables, newer, cursor, kinds);
    ListingSorts(newer);
    HeadsSuffice(Listing(newer), Order(newer), [], parts, FETCH_PER_SOURCE, Limit(newer));
    RestOfFeed(tables, newer, cursor, kinds);
    assert [] + Concat(parts) == Concat(parts);
    var heads := Concat(Heads(Listing(newer), parts, FETCH_PER_SOURCE));
    assert [] + heads == heads;
  }

  /** The page as it is shown: newest first in either direction. */
  function Shown(page: seq<Event>, newer: bool): (items: seq<Event>) {
    if newer then Reversed(page) else page
  }

  lemma ShownMeans(tables: Tables, newer: bool, cursor: Option<Event>, kinds: seq<Kind>)
    ensures var page := FeedPage(tables, newer, cursor, kinds);
            var items := Shown(page, newer);
            && |items| == |page| <= (if newer then 50 else 30)
            && forall i :: 0 <= i < |page| ==> items[i] == if newer then page[|page| - 1 - i] else page[i]
  {
    ReversedAt(FeedPage(tables, newer, cursor, kinds));
  }

  method CollectEvents(tables: Tables, newer: bool, cursor: Option<Event>, kinds: seq<Kind>) returns (items: seq<Event>)
    ensures items == Shown(FeedPage(tables, newer, cursor, kinds), newer)
  {
    var rows := CollectRows(tables, newer, cursor, kinds);
    if cursor.Some? {
      FilterAll(rows, Past(Order(newer), cursor));
      rows := Filter(rows, Past(Order(newer), cursor));
    }
    rows := Listing(newer)(rows);
    NothingLost(tables, newer, cursor, kinds);
    items := Take(rows, Limit(newer));
    if newer {
      items := Reversed(items);
    }
  }

  lemma {:induction false} ReversedAt(s: seq<Event>)
    ensures |Reversed(s)| == |s| && forall i :: 0 <= i < |s| ==> Reversed(s)[i] == s[|s| - 1 - i]
  {
    if s == [] {
    } else {
      ReversedAt(s[1..]);
    }
  }

  /// Paging through the feed

  /** The older pages are complete when one came back short; nothing is promised of newer ones. */
  function HasMore(items: seq<Event>, since: Option<Event>): bool {
    |items| == PAGE_SIZE && since.None?
  }

  function NextCursor(items: seq<Event>): Option<Event> {
    if items == [] then None else Some(items[|items| - 1])
  }

  /** More is promised exactly of a full page of older events, and the cursor is the last event shown. */
  lemma MoreMeans(items: seq<Event>, since: Option<Event>)
    ensures HasMore(items, since) <==> |items| == 30 && since.None?
    ensures items == [] ==> NextCursor(items) == None
    ensures items != [] ==> NextCursor(items) == Some(items[|items| - 1])
  {
  }

  lemma {:induction false} UniqueFeed(tables: Tables, kinds: seq<Kind>, e: Event)
    requires WellKept(tables) && DistinctKinds(kinds)
    ensures multiset(Feed(tables, kinds))[e] <= if e.kind in kinds then 1 else 0
  {
    if kinds == [] {
    } else {
      var front, last := kinds[..|kinds| - 1], kinds[|kinds| - 1];
      UniqueFeed(tables, front, e);
      assert Sources(tables, kinds)[..|kinds| - 1] == Sources(tables, front);
      assert Feed(tables, kinds) == Feed(tables, front) + Source(tables, last);
      assert kinds == front + [last];
      assert e in Source(tables, last) <==> multiset(Source(tables, last))[e] > 0;
      assert multiset(Source(tables, last))[e] <= 1;
    }
  }

  predicate DistinctKinds(kinds: seq<Kind>) {
    forall i, j :: 0 <= i < j < |kinds| ==> kinds[i] != kinds[j]
  }

  /** The feed as each request finds it. */
  function Feeds(found: seq<Tables>, kinds: seq<Kind>): seq<seq<Event>> {
    seq(|found|, i requires 0 <= i < |found| => Feed(found[i], kinds))
  }

  /** Every event not newer than the cursor stays; newer ones may arrive, or go. */
  ghost predicate OnlyNewerMove(before: seq<Event>, after: seq<Event>, cursor: Event) {
    forall e :: !Newer(e, cursor) ==> multiset(after)[e] == multiset(before)[e]
  }

  /** One request after the other, each with the previous page's `next_cursor`, while newer events arrive. */
  ghost predicate Followed(found: seq<Tables>, kinds: seq<Kind>, pages: seq<seq<Event>>) {
    |pages| == |found| && forall i :: 0 <= i < |pages| ==> FollowedAt(found, kinds, pages, i)
  }

  ghost predicate FollowedAt(found: seq<Tables>, kinds: seq<Kind>, pages: seq<seq<Event>>, i: nat)
    requires i < |pages| == |found|
  {
    && WellKept(found[i])
    && pages[i] == FeedPage(found[i], false, if i == 0 then None else NextCursor(pages[i - 1]), kinds)
    && (i + 1 < |pages| ==>
          && HasMore(pages[i], None)
          && OnlyNewerMove(Feed(found[i], kinds), Feed(found[i + 1], kinds), NextCursor(pages[i]).value))
  }

  /** Events that arrive between two pages, all newer than the cursor, do not disturb the walk. */
  lemma ArrivalsDoNotDisturb(before: seq<Event>, after: seq<Event>, cursor: Event)
    requires OnlyNewerMove(before, after, cursor)
    ensures SameBehind(before, after, Order(false), Some(cursor))
  {
    forall e
      ensures multiset(Rest(before, Order(false), Some(cursor)))[e]
              == multiset(Rest(after, Order(false), Some(cursor)))[e]
    {
      RestCount(before, Order(false), Some(cursor), e);
      RestCount(after, Order(false), Some(cursor), e);
    }
  }

  lemma NoEventTwice(tables: Tables, kinds: seq<Kind>)
    requires WellKept(tables) && DistinctKinds(kinds)
    ensures Unique(Feed(tables, kinds))
  {
    forall e
      ensures multiset(Feed(tables, kinds))[e] <= 1
    {
      UniqueFeed(tables, kinds, e);
    }
  }

  /** Up to page `k` the walk's cursor is the previous page's `next_cursor`. */
  lemma CursorIsNext(found: seq<Tables>, kinds: seq<Kind>, pages: seq<seq<Event>>, i: nat)
    requires Followed(found, kinds, pages) && 0 < i < |pages|
    ensures pages[i - 1] != [] && CursorAt(pages, None, i) == NextCursor(pages[i - 1])
    ensures SameBehind(Feeds(found, kinds)[i - 1], Feeds(found, kinds)[i], Order(false), CursorAt(pages, None, i))
  {
    assert FollowedAt(found, kinds, pages, i - 1);
    ArrivalsDoNotDisturb(Feed(found[i - 1], kinds), Feed(found[i], kinds), NextCursor(pages[i - 1]).value);
  }

  lemma FollowedPage(found: seq<Tables>, kinds: seq<Kind>, pages: seq<seq<Event>>, i: nat)
    requires DistinctKinds(kinds) && Followed(found, kinds, pages) && i < |pages|
    ensures Unique(Feeds(found, kinds)[i])
    ensures pages[i] == Page(Listing(false), Feeds(found, kinds)[i], Order(false), CursorAt(pages, None, i), PAGE_SIZE)
  {
    assert FollowedAt(found, kinds, pages, i);
    NoEventTwice(found[i], kinds);
    if i > 0 { CursorIsNext(found, kinds, pages, i); }
  }

  lemma FollowedTurns(found: seq<Tables>, kinds: seq<Kind>, pages: seq<seq<Event>>, feeds: seq<seq<Event>>, i: nat)
    requires DistinctKinds(kinds) && Followed(found, kinds, pages) && i < |pages| && feeds == Feeds(found, kinds)
    ensures Turned(Listing(false), feeds, pages, Order(false), None, PAGE_SIZE, i)
  {
    FollowedPage(found, kinds, pages, i);
    if i + 1 < |pages| { CursorIsNext(found, kinds, pages, i + 1); }
    Turn(Listing(false), feeds, pages, Order(false), None, PAGE_SIZE, i);
  }

  lemma FollowedIsWalked(found: seq<Tables>, kinds: seq<Kind>, pages: seq<seq<Event>>)
    requires DistinctKinds(kinds) && Followed(found, kinds, pages)
    ensures Walked(Listing(false), Feeds(found, kinds), pages, Order(false), None, PAGE_SIZE)
  {
    var feeds := Feeds(found, kinds);
    forall i: nat | i < |pages|
      ensures Turned(Listing(false), feeds, pages, Order(false), None, PAGE_SIZE, i)
    {
      FollowedTurns(found, kinds, pages, feeds, i);
    }
  }

  /** What the pages show is the front of the listing there was at the first request. */
  lemma PagesAreFront(found: seq<Tables>, kinds: seq<Kind>, pages: seq<seq<Event>>) returns (left: seq<Event>)
    requires DistinctKinds(kinds) && Followed(found, kinds, pages) && pages != []
    ensures Concat(pages) + left == Listing(false)(Feed(found[0], kinds))
    ensures !HasMore(pages[|pages| - 1], None) ==> left == []
  {
    var feeds, k := Feeds(found, kinds), |pages| - 1;
    ListingSorts(false);
    FollowedIsWalked(found, kinds, pages);
    FilterAll(feeds[0], Past(Order(false), None));
    WalkIsStable(Listing(false), feeds, pages, Order(false), None, PAGE_SIZE);
    left := Remaining(Listing(false), feeds, pages, Order(false), None, k);
    if !HasMore(pages[k], None) {
      assert Turned(Listing(false), feeds, pages, Order(false), None, PAGE_SIZE, k);
      PageLength(Listing(false), feeds[k], Order(false), CursorAt(pages, None, k), PAGE_SIZE);
      LastPageEnds(Listing(false), feeds, pages, Order(false), None, PAGE_SIZE);
      left := [];
    }
  }

  /** Following `next_cursor` until `has_more` is false shows exactly the events of the selected kinds that
      were there at the first request, each once, strictly newest first: no gap and no repeat, ties across
      kinds included, whatever newer events arrive on the way. */
  lemma FollowingCursorsShowsAll(found: seq<Tables>, kinds: seq<Kind>, pages: seq<seq<Event>>)
    requires DistinctKinds(kinds) && Followed(found, kinds, pages)
    requires pages != [] && !HasMore(pages[|pages| - 1], None)
    ensures multiset(Concat(pages)) == multiset(Feed(found[0], kinds))
    ensures forall i, j :: 0 <= i < j < |Concat(pages)| ==> Newer(Concat(pages)[i], Concat(pages)[j])
  {
    assert FollowedAt(found, kinds, pages, 0);
    var left := PagesAreFront(found, kinds, pages);
    assert Concat(pages) + [] == Concat(pages);
    StrictlyNewer(found[0], kinds, Concat(pages));
  }

  lemma {:induction false} FullPages(pages: seq<seq<Event>>)
    requires forall i :: 0 <= i < |pages| ==> |pages[i]| == PAGE_SIZE
    ensures |Concat(pages)| == PAGE_SIZE * |pages|
  {
    if pages == [] {
    } else {
      FullPages(pages[..|pages| - 1]);
    }
  }

  /** The walk ends: however many newer events arrive, the pages asked for are at most one more than the
      full pages of the feed at the first request. */
  lemma WalkEnds(found: seq<Tables>, kinds: seq<Kind>, pages: seq<seq<Event>>)
    requires DistinctKinds(kinds) && Followed(found, kinds, pages) && pages != []
    ensures |pages| <= |Feed(found[0], kinds)| / 30 + 1
  {
    var front := pages[..|pages| - 1];
    var left := PagesAreFront(found, kinds, pages);
    forall i: nat | i < |front|
      ensures |front[i]| == PAGE_SIZE
    {
      assert FollowedAt(found, kinds, pages, i);
    }
    FullPages(front);
    ListingSorts(false);
    SortLength(Listing(false), Order(false), Feed(found[0], kinds));
    assert |Concat(pages)| == PAGE_SIZE * (|pages| - 1) + |pages[|pages| - 1]|;
  }

  lemma StrictlyNewer(tables: Tables, kinds: seq<Kind>, shown: seq<Event>)
    requires WellKept(tables) && DistinctKinds(kinds)
    requires shown == Listing(false)(Feed(tables, kinds))
    ensures multiset(shown) == multiset(Feed(tables, kinds))
    ensures forall i, j :: 0 <= i < j < |shown| ==> Newer(shown[i], shown[j])
  {
    ListingSorts(false);
    assert Sorted(shown, Order(false)) && multiset(shown) == multiset(Feed(tables, kinds));
    forall i, j | 0 <= i < j < |shown|
      ensures Newer(shown[i], shown[j])
    {
      assert Order(false)(shown[i], shown[j]);
      UniqueFeed(tables, kinds, shown[i]);
      TwiceIn(shown, i, j);
    }
  }

  /** Asked for what is newer than an event, the feed shows the closest ones: an event left out is newer
      than every one shown, and only a full page of fifty leaves any out. */
  lemma NewerIsClosest(tables: Tables, kinds: seq<Kind>, since: Event, shown: Event, missed: Event)
    requires var page := FeedPage(tables, true, Some(since), kinds); shown in page && missed !in page
    requires missed in Feed(tables, kinds) && Newer(missed, since)
    ensures Newer(missed, shown) && |FeedPage(tables, true, Some(since), kinds)| == 50
  {
    ListingSorts(true);
    PageIsClosest(Listing(true), Feed(tables, kinds), Order(true), Some(since), NEWER_LIMIT, shown, missed);
  }
}
