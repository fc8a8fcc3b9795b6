/** Keyset paging over any total order: pages cut one sorted listing, whatever is added in front of the
    cursor between them, and fetching a bounded head of each source loses nothing from a page. */
module Keyset {
  import opened Wrappers
  import opened Sorting

  /** `sort` lists any rows in the order `before`. */
  ghost predicate Sorts<T(!new)>(sort: seq<T> -> seq<T>, before: (T, T) -> bool) {
    && TotalPreorder(before) && Antisymmetric(before)
    && (forall s: seq<T> {:trigger sort(s)} :: Sorted(sort(s), before) && multiset(sort(s)) == multiset(s))
  }

  lemma TwiceIn<T(!new)>(s: seq<T>, i: nat, j: nat)
    requires i < j < |s|
    ensures s[i] == s[j] ==> multiset(s)[s[i]] >= 2
  {
    assert s == s[..i] + [s[i]] + s[i + 1..j] + [s[j]] + s[j + 1..];
    assert multiset(s)
           == multiset(s[..i]) + multiset{s[i]} + multiset(s[i + 1..j]) + multiset{s[j]} + multiset(s[j + 1..]);
  }

  function Filter<T>(s: seq<T>, p: T -> bool): seq<T> {
    if s == [] then []
    else Filter(s[..|s| - 1], p) + if p(s[|s| - 1]) then [s[|s| - 1]] else []
  }

  function Take<T>(s: seq<T>, n: nat): seq<T> {
    if |s| <= n then s else s[..n]
  }

  lemma {:induction false} FilterCount<T(!new)>(s: seq<T>, p: T -> bool, x: T)
    ensures multiset(Filter(s, p))[x] == if p(x) then multiset(s)[x] else 0
  {
    if s == [] {
    } else {
      FilterCount(s[..|s| - 1], p, x);
      assert s == s[..|s| - 1] + [s[|s| - 1]];
    }
  }

  lemma {:induction false} FilterAll<T(!new)>(s: seq<T>, p: T -> bool)
    requires forall i :: 0 <= i < |s| ==> p(s[i])
    ensures Filter(s, p) == s
  {
    if s == [] {
    } else {
      var front := s[..|s| - 1];
      FilterAll(front, p);
      assert s == front + [s[|s| - 1]];
    }
  }

  lemma SortUnique<T(!new)>(sort: seq<T> -> seq<T>, before: (T, T) -> bool, s: seq<T>, t: seq<T>)
    requires Sorts(sort, before) && Sorted(t, before) && multiset(t) == multiset(s)
    ensures sort(s) == t
  {
    assert Sorted(sort(s), before) && multiset(sort(s)) == multiset(s);
    SortedUnique(sort(s), t, before);
  }

  /// Merging sources of which only a head was fetched

  lemma {:induction false} InsertBehind<T(!new)>(x: T, s: seq<T>, before: (T, T) -> bool, n: nat)
    requires TotalPreorder(before) && Sorted(s, before) && 0 < n <= |s| && before(s[n - 1], x)
    ensures Insert(x, s, before)[..n] == s[..n]
  {
    assert before(s[0], x);
    if n == 1 {
    } else {
      InsertBehind(x, s[1..], before, n - 1);
      var rest := Insert(x, s[1..], before);
      assert ([s[0]] + rest)[..n] == [s[0]] + rest[..n - 1];
    }
  }

  lemma {:induction false} InsertMovesUp<T(!new)>(x: T, s: seq<T>, before: (T, T) -> bool, i: nat)
    requires TotalPreorder(before) && Sorted(s, before) && i < |s|
    ensures before(Insert(x, s, before)[i], s[i])
  {
    assert before(s[i], s[i]);
    if before(s[0], x) {
      if i > 0 { InsertMovesUp(x, s[1..], before, i - 1); }
    } else if i > 0 {
      assert before(s[i - 1], s[i]);
    }
  }

  lemma SortSnoc<T(!new)>(sort: seq<T> -> seq<T>, before: (T, T) -> bool, s: seq<T>, x: T)
    requires Sorts(sort, before)
    ensures Sorted(sort(s), before) && sort(s + [x]) == Insert(x, sort(s), before)
  {
    assert Sorted(sort(s), before) && multiset(sort(s)) == multiset(s);
    InsertMultiset(x, sort(s), before);
    SortUnique(sort, before, s + [x], Insert(x, sort(s), before));
  }

  /** More rows only bring the n-th one forward. */
  lemma {:induction false} NthBefore<T(!new)>(sort: seq<T> -> seq<T>, before: (T, T) -> bool, head: seq<T>,
                                              more: seq<T>, n: nat)
    requires Sorts(sort, before) && Sorted(head, before) && n < |head|
    ensures |sort(head + more)| == |head| + |more| && before(sort(head + more)[n], head[n])
  {
    if more == [] {
      assert head + more == head;
      SortUnique(sort, before, head, head);
    } else {
      var front, x := more[..|more| - 1], more[|more| - 1];
      NthBefore(sort, before, head, front, n);
      assert head + more == (head + front) + [x];
      SortSnoc(sort, before, head + front, x);
      InsertMovesUp(x, sort(head + front), before, n);
    }
  }

  /** Rows behind `n` others never reach the first `n`. */
  lemma {:induction false} DropBehind<T(!new)>(sort: seq<T> -> seq<T>, before: (T, T) -> bool,
                                               head: seq<T>, more: seq<T>, late: seq<T>, n: nat)
    requires Sorts(sort, before) && Sorted(head, before) && 0 < n <= |head|
    requires forall x, z :: x in head && z in late ==> before(x, z)
    ensures Take(sort(head + more + late), n) == Take(sort(head + more), n)
  {
    if late == [] {
      assert head + more + late == head + more;
    } else {
      var front, z := late[..|late| - 1], late[|late| - 1];
      DropBehind(sort, before, head, more, front, n);
      assert head + more + late == (head + more + front) + [z];
      assert head + more + front == head + (more + front);
      NthBefore(sort, before, head, more + front, n - 1);
      SortSnoc(sort, before, head + more + front, z);
      assert before(head[n - 1], z);
      InsertBehind(z, sort(head + more + front), before, n);
    }
  }

  lemma SortLength<T(!new)>(sort: seq<T> -> seq<T>, before: (T, T) -> bool, s: seq<T>)
    requires Sorts(sort, before)
    ensures |sort(s)| == |s| && Sorted(sort(s), before)
  {
    assert multiset(sort(s)) == multiset(s);
    assert |multiset(sort(s))| == |sort(s)| && |multiset(s)| == |s|;
  }

  /** Of one source, its first `fetch` rows are enough for a page of up to `fetch` rows. */
  lemma HeadSuffices<T(!new)>(sort: seq<T> -> seq<T>, before: (T, T) -> bool,
                              source: seq<T>, others: seq<T>, fetch: nat, n: nat)
    requires Sorts(sort, before) && 0 < n <= fetch
    ensures Take(sort(source + others), n) == Take(sort(Take(sort(source), fetch) + others), n)
  {
    var all := sort(source);
    SortLength(sort, before, source);
    var head := Take(all, fetch);
    var late := all[|head|..];
    assert all == head + late;
    assert multiset(source) == multiset(head) + multiset(late);
    assert multiset(source + others) == multiset(head + others + late);
    var merged := sort(head + others + late);
    SortUnique(sort, before, source + others, merged);
    if late != [] {
      DropBehind(sort, before, head, others, late, n);
    } else {
      assert head + others + late == head + others;
    }
  }

  function Concat<T>(parts: seq<seq<T>>): seq<T> {
    if parts == [] then [] else Concat(parts[..|parts| - 1]) + parts[|parts| - 1]
  }

  function Heads<T>(sort: seq<T> -> seq<T>, parts: seq<seq<T>>, fetch: nat): seq<seq<T>> {
    seq(|parts|, i requires 0 <= i < |parts| => Take(sort(parts[i]), fetch))
  }

  lemma SortPermuted<T(!new)>(sort: seq<T> -> seq<T>, before: (T, T) -> bool, s: seq<T>, t: seq<T>)
    requires Sorts(sort, before) && multiset(s) == multiset(t)
    ensures sort(s) == sort(t)
  {
    SortUnique(sort, before, s, sort(t));
  }

  /** One more source: its head stands in for it among the rows already at hand. */
  lemma HeadOfOneMore<T(!new)>(sort: seq<T> -> seq<T>, before: (T, T) -> bool, seen: seq<T>, front: seq<T>,
                               last: seq<T>, fetch: nat, n: nat)
    requires Sorts(sort, before) && 0 < n <= fetch
    ensures Take(sort(seen + (front + last)), n) == Take(sort((Take(sort(last), fetch) + seen) + front), n)
  {
    SortPermuted(sort, before, seen + (front + last), last + (seen + front));
    HeadSuffices(sort, before, last, seen + front, fetch, n);
    var head := Take(sort(last), fetch);
    assert head + (seen + front) == (head + seen) + front;
  }

  lemma HeadsSnoc<T(!new)>(sort: seq<T> -> seq<T>, parts: seq<seq<T>>, fetch: nat)
    requires parts != []
    ensures Concat(Heads(sort, parts, fetch))
            == Concat(Heads(sort, parts[..|parts| - 1], fetch)) + Take(sort(parts[|parts| - 1]), fetch)
  {
    var heads := Heads(sort, parts, fetch);
    assert heads[..|heads| - 1] == Heads(sort, parts[..|parts| - 1], fetch);
  }

  /** A page over any number of sources needs only the head of each. */
  lemma {:induction false} HeadsSuffice<T(!new)>(sort: seq<T> -> seq<T>, before: (T, T) -> bool, seen: seq<T>,
                                                 parts: seq<seq<T>>, fetch: nat, n: nat)
    requires Sorts(sort, before) && 0 < n <= fetch
    ensures Take(sort(seen + Concat(parts)), n) == Take(sort(seen + Concat(Heads(sort, parts, fetch))), n)
    decreases |parts|
  {
    if parts == [] {
    } else {
      var front, last := parts[..|parts| - 1], parts[|parts| - 1];
      var head := Take(sort(last), fetch);
      var fetched := Concat(Heads(sort, front, fetch));
      HeadOfOneMore(sort, before, seen, Concat(front), last, fetch, n);
      HeadsSuffice(sort, before, head + seen, front, fetch, n);
      HeadsSnoc(sort, parts, fetch);
      SortPermuted(sort, before, (head + seen) + fetched, seen + (fetched + head));
    }
  }

  /// Pages

  /** The rows strictly behind the cursor, or all of them. */
  predicate Behind<T(==)>(before: (T, T) -> bool, cursor: Option<T>, x: T) {
    cursor.None? || (before(cursor.value, x) && x != cursor.value)
  }

  function Past<T(==)>(before: (T, T) -> bool, cursor: Option<T>): T -> bool {
    x => Behind(before, cursor, x)
  }

  function Rest<T(==)>(s: seq<T>, before: (T, T) -> bool, cursor: Option<T>): seq<T> {
    Filter(s, Past(before, cursor))
  }

  function Page<T(==)>(sort: seq<T> -> seq<T>, s: seq<T>, before: (T, T) -> bool, cursor: Option<T>, n: nat): seq<T> {
    Take(sort(Rest(s, before, cursor)), n)
  }

  lemma RestCount<T(!new)>(s: seq<T>, before: (T, T) -> bool, cursor: Option<T>, x: T)
    ensures multiset(Rest(s, before, cursor))[x] == if Behind(before, cursor, x) then multiset(s)[x] else 0
  {
    FilterCount(s, Past(before, cursor), x);
  }

  /** What is behind a row of a strict listing is what follows it there. */
  lemma TailIsBehind<T(!new)>(listing: seq<T>, before: (T, T) -> bool, i: nat, x: T)
    requires TotalPreorder(before) && Antisymmetric(before) && Sorted(listing, before) && Unique(listing)
             && i < |listing|
    ensures multiset(listing[i + 1..])[x] == if Behind(before, Some(listing[i]), x) then multiset(listing)[x] else 0
  {
    var head, tail := listing[..i + 1], listing[i + 1..];
    assert listing == head + tail;
    assert multiset(listing)[x] == multiset(head)[x] + multiset(tail)[x];
    assert multiset(listing)[x] <= 1;
    if x in head {
      var k :| 0 <= k < |head| && head[k] == x;
      assert k < i ==> before(listing[k], listing[i]);
      assert multiset(head)[x] > 0;
    }
    if x in tail {
      var k :| 0 <= k < |tail| && tail[k] == x;
      assert tail[k] == listing[i + 1 + k] && before(listing[i], listing[i + 1 + k]);
      assert multiset(tail)[x] > 0;
      assert x == listing[i] ==> x in head;
    }
  }

  lemma CutAt<T(!new)>(s: seq<T>, before: (T, T) -> bool, cursor: Option<T>, listing: seq<T>, i: nat)
    requires TotalPreorder(before) && Antisymmetric(before) && Sorted(listing, before) && Unique(s) && i < |listing|
    requires multiset(listing) == multiset(Rest(s, before, cursor))
    ensures multiset(Rest(s, before, Some(listing[i]))) == multiset(listing[i + 1..])
  {
    forall y
      ensures multiset(listing)[y] == (if Behind(before, cursor, y) then multiset(s)[y] else 0)
    {
      RestCount(s, before, cursor, y);
    }
    assert Unique(listing) by {
      assert forall y :: multiset(s)[y] <= 1;
    }
    assert multiset(listing)[listing[i]] > 0;
    forall x
      ensures multiset(Rest(s, before, Some(listing[i])))[x] == multiset(listing[i + 1..])[x]
    {
      TailIsBehind(listing, before, i, x);
      RestCount(s, before, Some(listing[i]), x);
    }
  }

  /** Turning the page: what is behind the last row shown is what follows it in the listing. */
  lemma PageThenRest<T(!new)>(sort: seq<T> -> seq<T>, s: seq<T>, before: (T, T) -> bool, cursor: Option<T>, n: nat)
    requires Sorts(sort, before) && Unique(s) && 0 < n <= |Rest(s, before, cursor)|
    ensures var page := Page(sort, s, before, cursor, n);
            |page| == n
            && sort(Rest(s, before, cursor)) == page + sort(Rest(s, before, Some(page[n - 1])))
  {
    var rest := Rest(s, before, cursor);
    var listing := sort(rest);
    SortLength(sort, before, rest);
    CutAt(s, before, cursor, listing, n - 1);
    SortUnique(sort, before, Rest(s, before, Some(listing[n - 1])), listing[n..]);
    assert listing == listing[..n] + listing[n..];
  }

  /// Walking page by page while the rows change

  /** The cursor with which page `k` is asked for: the last row shown so far. */
  function CursorAt<T>(pages: seq<seq<T>>, start: Option<T>, k: nat): Option<T>
    requires k <= |pages|
  {
    if k == 0 then start
    else if pages[k - 1] == [] then CursorAt(pages, start, k - 1)
    else Some(pages[k - 1][|pages[k - 1]| - 1])
  }

  /** Page `i` was cut from snapshot `i`, and until the next page the rows behind the cursor stay; the
      others may come and go as they like. */
  ghost predicate Turned<T(!new)>(sort: seq<T> -> seq<T>, snapshots: seq<seq<T>>, pages: seq<seq<T>>,
                                  before: (T, T) -> bool, start: Option<T>, n: nat, i: nat)
    requires i < |pages| == |snapshots|
  {
    && Unique(snapshots[i])
    && pages[i] == Page(sort, snapshots[i], before, CursorAt(pages, start, i), n)
    && (i + 1 < |pages| ==> SameBehind(snapshots[i], snapshots[i + 1], before, CursorAt(pages, start, i + 1)))
  }

  lemma Turn<T(!new)>(sort: seq<T> -> seq<T>, snapshots: seq<seq<T>>, pages: seq<seq<T>>,
                      before: (T, T) -> bool, start: Option<T>, n: nat, i: nat)
    requires i < |pages| == |snapshots| && Unique(snapshots[i])
    requires pages[i] == Page(sort, snapshots[i], before, CursorAt(pages, start, i), n)
    requires i + 1 < |pages| ==> SameBehind(snapshots[i], snapshots[i + 1], before, CursorAt(pages, start, i + 1))
    ensures Turned(sort, snapshots, pages, before, start, n, i)
  {
  }

  ghost predicate Walked<T(!new)>(sort: seq<T> -> seq<T>, snapshots: seq<seq<T>>, pages: seq<seq<T>>,
                                  before: (T, T) -> bool, start: Option<T>, n: nat) {
    |pages| == |snapshots| && forall i :: 0 <= i < |pages| ==> Turned(sort, snapshots, pages, before, start, n, i)
  }

  ghost predicate SameBehind<T(!new)>(s: seq<T>, t: seq<T>, before: (T, T) -> bool, cursor: Option<T>) {
    multiset(Rest(s, before, cursor)) == multiset(Rest(t, before, cursor))
  }

  lemma SortNothing<T(!new)>(sort: seq<T> -> seq<T>, before: (T, T) -> bool)
    requires Sorts(sort, before)
    ensures sort([]) == []
  {
    SortLength(sort, before, []);
  }

  lemma NothingBehindLast<T(!new)>(s: seq<T>, before: (T, T) -> bool, cursor: Option<T>, listing: seq<T>)
    requires TotalPreorder(before) && Antisymmetric(before) && Sorted(listing, before) && Unique(s) && listing != []
    requires multiset(listing) == multiset(Rest(s, before, cursor))
    ensures Rest(s, before, Some(listing[|listing| - 1])) == []
  {
    CutAt(s, before, cursor, listing, |listing| - 1);
    var rest := Rest(s, before, Some(listing[|listing| - 1]));
    assert listing[|listing|..] == [];
    assert |multiset(rest)| == |rest|;
  }

  lemma ShortPage<T(!new)>(sort: seq<T> -> seq<T>, s: seq<T>, before: (T, T) -> bool, cursor: Option<T>, n: nat)
    requires Sorts(sort, before) && Unique(s) && 0 < n && |Rest(s, before, cursor)| < n
    ensures var page := Page(sort, s, before, cursor, n);
            && page == sort(Rest(s, before, cursor)) && |page| < n
            && sort(Rest(s, before, if page == [] then cursor else Some(page[|page| - 1]))) == []
  {
    var listing := sort(Rest(s, before, cursor));
    SortLength(sort, before, Rest(s, before, cursor));
    SortNothing(sort, before);
    if listing != [] {
      NothingBehindLast(s, before, cursor, listing);
    }
  }

  /** The page, and what is left to list behind it. */
  lemma TurnPage<T(!new)>(sort: seq<T> -> seq<T>, s: seq<T>, before: (T, T) -> bool, cursor: Option<T>, n: nat)
    returns (page: seq<T>, following: seq<T>)
    requires Sorts(sort, before) && Unique(s) && 0 < n
    ensures page == Page(sort, s, before, cursor, n) && sort(Rest(s, before, cursor)) == page + following
    ensures if |Rest(s, before, cursor)| < n then following == [] && |page| < n else |page| == n
    ensures following == sort(Rest(s, before, if page == [] then cursor else Some(page[|page| - 1])))
  {
    page := Page(sort, s, before, cursor, n);
    if |Rest(s, before, cursor)| < n {
      ShortPage(sort, s, before, cursor, n);
      following := [];
    } else {
      PageThenRest(sort, s, before, cursor, n);
      following := sort(Rest(s, before, Some(page[|page| - 1])));
    }
  }

  /** What is still to be listed when page `k` is asked for, and after it. */
  ghost function Ahead<T(!new)>(sort: seq<T> -> seq<T>, snapshots: seq<seq<T>>, pages: seq<seq<T>>,
                                before: (T, T) -> bool, start: Option<T>, k: nat): seq<T>
    requires k < |pages| == |snapshots|
  {
    sort(Rest(snapshots[k], before, CursorAt(pages, start, k)))
  }

  ghost function Remaining<T(!new)>(sort: seq<T> -> seq<T>, snapshots: seq<seq<T>>, pages: seq<seq<T>>,
                                    before: (T, T) -> bool, start: Option<T>, k: nat): seq<T>
    requires k < |pages| == |snapshots|
  {
    sort(Rest(snapshots[k], before, CursorAt(pages, start, k + 1)))
  }

  lemma NextStart<T(!new)>(sort: seq<T> -> seq<T>, snapshots: seq<seq<T>>, pages: seq<seq<T>>,
                           before: (T, T) -> bool, start: Option<T>, k: nat)
    requires Sorts(sort, before) && k + 1 < |pages| == |snapshots|
    requires SameBehind(snapshots[k], snapshots[k + 1], before, CursorAt(pages, start, k + 1))
    ensures Ahead(sort, snapshots, pages, before, start, k + 1) == Remaining(sort, snapshots, pages, before, start, k)
  {
    var next := CursorAt(pages, start, k + 1);
    SortPermuted(sort, before, Rest(snapshots[k], before, next), Rest(snapshots[k + 1], before, next));
  }

  lemma OneTurn<T(!new)>(sort: seq<T> -> seq<T>, snapshots: seq<seq<T>>, pages: seq<seq<T>>,
                         before: (T, T) -> bool, start: Option<T>, n: nat, k: nat)
    requires Sorts(sort, before) && 0 < n && k < |pages| == |snapshots|
    requires Turned(sort, snapshots, pages, before, start, n, k)
    ensures Ahead(sort, snapshots, pages, before, start, k)
            == pages[k] + Remaining(sort, snapshots, pages, before, start, k)
    ensures k + 1 < |pages| ==>
              Ahead(sort, snapshots, pages, before, start, k + 1) == Remaining(sort, snapshots, pages, before, start, k)
  {
    var page, following := TurnPage(sort, snapshots[k], before, CursorAt(pages, start, k), n);
    if k + 1 < |pages| {
      NextStart(sort, snapshots, pages, before, start, k);
    }
  }

  /** Page `i` is the front of what was still ahead, and the next page starts from the remainder. */
  ghost predicate Advances<T(!new)>(sort: seq<T> -> seq<T>, snapshots: seq<seq<T>>, pages: seq<seq<T>>,
                                    before: (T, T) -> bool, start: Option<T>, i: nat)
    requires i < |pages| == |snapshots|
  {
    && Ahead(sort, snapshots, pages, before, start, i) == pages[i] + Remaining(sort, snapshots, pages, before, start, i)
    && (i + 1 < |pages| ==>
          Ahead(sort, snapshots, pages, before, start, i + 1) == Remaining(sort, snapshots, pages, before, start, i))
  }

  lemma {:induction false} Telescope<T(!new)>(sort: seq<T> -> seq<T>, snapshots: seq<seq<T>>, pages: seq<seq<T>>,
                                              before: (T, T) -> bool, start: Option<T>, k: nat)
    requires k < |pages| == |snapshots|
    requires forall i :: 0 <= i <= k ==> Advances(sort, snapshots, pages, before, start, i)
    ensures Concat(pages[..k + 1]) + Remaining(sort, snapshots, pages, before, start, k)
            == Ahead(sort, snapshots, pages, before, start, 0)
    decreases k
  {
    assert Advances(sort, snapshots, pages, before, start, k);
    ConcatSnoc(pages, k);
    if k == 0 {
    } else {
      assert Advances(sort, snapshots, pages, before, start, k - 1);
      Telescope(sort, snapshots, pages, before, start, k - 1);
    }
  }

  lemma ConcatSnoc<T>(pages: seq<seq<T>>, k: nat)
    requires k < |pages|
    ensures Concat(pages[..k + 1]) == Concat(pages[..k]) + pages[k]
    ensures Concat(pages[..0]) == []
  {
    assert pages[..k + 1][..k] == pages[..k];
  }

  ghost predicate AllAdvance<T(!new)>(sort: seq<T> -> seq<T>, snapshots: seq<seq<T>>, pages: seq<seq<T>>,
                                      before: (T, T) -> bool, start: Option<T>) {
    |pages| == |snapshots| && forall i :: 0 <= i < |pages| ==> Advances(sort, snapshots, pages, before, start, i)
  }

  lemma WalkAdvances<T(!new)>(sort: seq<T> -> seq<T>, snapshots: seq<seq<T>>, pages: seq<seq<T>>,
                              before: (T, T) -> bool, start: Option<T>, n: nat)
    requires Sorts(sort, before) && 0 < n && Walked(sort, snapshots, pages, before, start, n)
    ensures AllAdvance(sort, snapshots, pages, before, start)
  {
    forall i: nat | i < |pages|
      ensures Advances(sort, snapshots, pages, before, start, i)
    {
      assert Turned(sort, snapshots, pages, before, start, n, i);
      OneTurn(sort, snapshots, pages, before, start, n, i);
    }
  }

  lemma TelescopeAll<T(!new)>(sort: seq<T> -> seq<T>, snapshots: seq<seq<T>>, pages: seq<seq<T>>,
                              before: (T, T) -> bool, start: Option<T>)
    requires AllAdvance(sort, snapshots, pages, before, start) && pages != []
    ensures Concat(pages) + Remaining(sort, snapshots, pages, before, start, |pages| - 1)
            == Ahead(sort, snapshots, pages, before, start, 0)
  {
    Telescope(sort, snapshots, pages, before, start, |pages| - 1);
    assert pages[..|pages|] == pages;
  }

  /** What was shown by the first pages followed by what is still behind the cursor is the listing there
      was at the start: every row is shown once, in order, and none is lost. */
  lemma WalkIsStable<T(!new)>(sort: seq<T> -> seq<T>, snapshots: seq<seq<T>>, pages: seq<seq<T>>,
                              before: (T, T) -> bool, start: Option<T>, n: nat)
    requires Sorts(sort, before) && 0 < n && Walked(sort, snapshots, pages, before, start, n) && pages != []
    ensures Concat(pages) + Remaining(sort, snapshots, pages, before, start, |pages| - 1)
            == Ahead(sort, snapshots, pages, before, start, 0)
  {
    WalkAdvances(sort, snapshots, pages, before, start, n);
    TelescopeAll(sort, snapshots, pages, before, start);
  }

  /** The page takes all there is, up to its size. */
  lemma PageLength<T(!new)>(sort: seq<T> -> seq<T>, s: seq<T>, before: (T, T) -> bool, cursor: Option<T>, n: nat)
    requires Sorts(sort, before)
    ensures var rest := |Rest(s, before, cursor)|; |Page(sort, s, before, cursor, n)| == if rest <= n then rest else n
  {
    SortLength(sort, before, Rest(s, before, cursor));
  }

  /** The walk is over once a page takes all that is behind its cursor: everything that was there at the
      start was shown. */
  lemma LastPageEnds<T(!new)>(sort: seq<T> -> seq<T>, snapshots: seq<seq<T>>, pages: seq<seq<T>>,
                              before: (T, T) -> bool, start: Option<T>, n: nat)
    requires Sorts(sort, before) && 0 < n && Walked(sort, snapshots, pages, before, start, n) && pages != []
    requires var k := |pages| - 1; |Rest(snapshots[k], before, CursorAt(pages, start, k))| <= n
    ensures Concat(pages) == Ahead(sort, snapshots, pages, before, start, 0)
  {
    var k := |pages| - 1;
    assert Turned(sort, snapshots, pages, before, start, n, k);
    OneTurn(sort, snapshots, pages, before, start, n, k);
    PageLength(sort, snapshots[k], before, CursorAt(pages, start, k), n);
    SortLength(sort, before, Rest(snapshots[k], before, CursorAt(pages, start, k)));
    WalkIsStable(sort, snapshots, pages, before, start, n);
  }

  /** Nothing left out of a page comes before anything in it, and only a full page leaves anything out. */
  lemma PageIsClosest<T(!new)>(sort: seq<T> -> seq<T>, s: seq<T>, before: (T, T) -> bool, cursor: Option<T>, n: nat,
                               shown: T, missed: T)
    requires Sorts(sort, before) && shown in Page(sort, s, before, cursor, n)
    requires missed in s && Behind(before, cursor, missed) && missed !in Page(sort, s, before, cursor, n)
    ensures before(shown, missed) && |Page(sort, s, before, cursor, n)| == n
  {
    var rest := Rest(s, before, cursor);
    var listing, page := sort(rest), Page(sort, s, before, cursor, n);
    assert Sorted(listing, before) && multiset(listing) == multiset(rest);
    RestCount(s, before, cursor, missed);
    assert multiset(s)[missed] > 0;
    assert multiset(listing)[missed] > 0;
    var j :| 0 <= j < |listing| && listing[j] == missed;
    var i :| 0 <= i < |page| && page[i] == shown;
    assert forall k :: 0 <= k < |page| ==> page[k] == listing[k] && listing[k] in page;
  }
}
