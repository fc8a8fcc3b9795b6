/** The deletion routines as they run: chunk by chunk over the live tables. */
module AdminCascade {
  import opened Wrappers
  import opened Elements
  import opened Names
  import opened Sums
  import opened VoteLedger
  import opened LedgerCascade
  import opened CascadeSurvivors

  method ListOf<T(==)>(s: set<T>) returns (l: seq<T>)
    ensures Elems(l) == s
  {
    l := [];
    var rest := s;
    while rest != {}
      invariant rest <= s && Elems(l) == s - rest
      decreases rest
    {
      var x :| x in rest;
      ElemsSnoc(l, x);
      l, rest := l + [x], rest - {x};
    }
  }

  /// Aggregate queries

  method SumVotes(votes: map<Key, Ballot>, t: Target) returns (score: int, count: nat)
    ensures score == TrueScore(votes, t) && count == TrueCount(votes, t)
  {
    score, count := 0, 0;
    var rest := Rows(votes, t);
    while rest != {}
      invariant rest <= Rows(votes, t)
      invariant score + Total(rest, Values(votes)) == TrueScore(votes, t)
      invariant count + |rest| == TrueCount(votes, t)
      decreases rest
    {
      var k :| k in rest;
      TotalRemove(rest, Values(votes), k);
      score, count, rest := score + votes[k].value, count + 1, rest - {k};
    }
  }

  method SumKarma(items: map<Target, Item>, votes: map<Key, Ballot>, u: Name, posts: bool) returns (karma: int)
    ensures karma == EarnedKarma(items, votes, u, posts)
  {
    karma := 0;
    var rest := Authored(items, u, posts);
    while rest != {}
      invariant rest <= Authored(items, u, posts)
      invariant karma + Total(rest, TrueScores(votes)) == EarnedKarma(items, votes, u, posts)
      decreases rest
    {
      var t :| t in rest;
      TotalRemove(rest, TrueScores(votes), t);
      var score, count := SumVotes(votes, t);
      karma, rest := karma + score, rest - {t};
    }
  }

  lemma RefreshedTwice(users: map<Name, User>, items: map<Target, Item>, votes: map<Key, Ballot>,
                       a: set<Name>, b: set<Name>, posts: bool)
    ensures Refreshed(Refreshed(users, items, votes, a, posts), items, votes, b, posts) ==
            Refreshed(users, items, votes, a + b, posts)
  {
  }

  method RefreshOne(l: Ledger, u: Name, posts: bool)
    modifies l`users
    ensures l.users == Refreshed(old(l.users), l.items, l.votes, {u}, posts)
  {
    if u in l.users {
      var karma := SumKarma(l.items, l.votes, u, posts);
      l.users := l.users[u := SetKarma(l.users[u], posts, karma)];
    }
  }

  /** Recomputes the karma column of the given authors, 500 at a time. */
  method RefreshAuthorKarma(l: Ledger, authors: set<Name>, posts: bool)
    modifies l`users
    ensures l.users == Refreshed(old(l.users), l.items, l.votes, authors, posts)
  {
    var names := ListOf(authors);
    var i := 0;
    assert names[..0] == [];
    while i < |names|
      invariant 0 <= i <= |names|
      invariant l.users == Refreshed(old(l.users), l.items, l.votes, Elems(names[..i]), posts)
    {
      var end := Min(i + CHUNK, |names|);
      while i < end
        invariant i <= end <= |names|
        invariant l.users == Refreshed(old(l.users), l.items, l.votes, Elems(names[..i]), posts)
      {
        ElemsCut(names, i, i + 1);
        assert Elems(names[i..i + 1]) == {names[i]};
        RefreshedTwice(old(l.users), l.items, l.votes, Elems(names[..i]), {names[i]}, posts);
        RefreshOne(l, names[i], posts);
        i := i + 1;
      }
    }
    assert names[..i] == names;
  }

  lemma RecountedTwice(items: map<Target, Item>, votes: map<Key, Ballot>, a: set<Target>, b: set<Target>)
    ensures Recounted(Recounted(items, votes, a), votes, b) == Recounted(items, votes, a + b)
  {
  }

  method RecountOne(l: Ledger, t: Target)
    modifies l`items
    ensures l.items == Recounted(old(l.items), l.votes, {t})
  {
    if t in l.items {
      var score, count := SumVotes(l.votes, t);
      l.items := l.items[t := l.items[t].(score := score, count := count)];
    }
  }

  /** Recomputes score and vote count of the given items, 500 at a time. */
  method RefreshContentAggregates(l: Ledger, hit: set<Target>)
    modifies l`items
    ensures l.items == Recounted(old(l.items), l.votes, hit)
  {
    var ts := ListOf(hit);
    var i := 0;
    assert ts[..0] == [];
    while i < |ts|
      invariant 0 <= i <= |ts|
      invariant l.items == Recounted(old(l.items), l.votes, Elems(ts[..i]))
    {
      var end := Min(i + CHUNK, |ts|);
      while i < end
        invariant i <= end <= |ts|
        invariant l.items == Recounted(old(l.items), l.votes, Elems(ts[..i]))
      {
        ElemsCut(ts, i, i + 1);
        assert Elems(ts[i..i + 1]) == {ts[i]};
        RecountedTwice(old(l.items), l.votes, Elems(ts[..i]), {ts[i]});
        RecountOne(l, ts[i]);
        i := i + 1;
      }
    }
    assert ts[..i] == ts;
  }

  /// The descendant search

  /** The comments whose parent is in the list, found chunk by chunk. */
  method ChildrenOf(items: map<Target, Item>, parents: seq<nat>) returns (children: set<nat>)
    ensures forall id :: id in children <==> IsChild(items, id, Elems(parents))
  {
    children := {};
    var i := 0;
    assert parents[..0] == [];
    while i < |parents|
      invariant 0 <= i <= |parents|
      invariant forall id :: id in children <==> IsChild(items, id, Elems(parents[..i]))
    {
      var end := Min(i + CHUNK, |parents|);
      var chunk := parents[i..end];
      ElemsCut(parents, i, end);
      children := children + set t | t in items && t.OnComment? && items[t].parent.Some?
                                     && items[t].parent.value in chunk :: t.id;
      i := end;
    }
    assert parents[..i] == parents;
  }

  predicate IsChild(items: map<Target, Item>, id: nat, parents: set<nat>) {
    OnComment(id) in items && items[OnComment(id)].parent.Some? && items[OnComment(id)].parent.value in parents
  }

  lemma {:induction false} ClosedHoldsDoomed(items: map<Target, Item>, roots: set<nat>, all: set<nat>, id: nat, n: nat)
    requires roots <= all && forall c :: IsChild(items, c, all) ==> c in all
    requires Descends(items, roots, id, n)
    ensures id in all
    decreases n
  {
    if id in roots {
    } else {
      ClosedHoldsDoomed(items, roots, all, items[OnComment(id)].parent.value, n - 1);
    }
  }

  lemma ChildIsDoomed(items: map<Target, Item>, roots: set<nat>, id: nat)
    requires OnComment(id) in items && items[OnComment(id)].parent.Some?
    requires Doomed(items, roots, items[OnComment(id)].parent.value)
    ensures Doomed(items, roots, id)
  {
    var n: nat :| Descends(items, roots, items[OnComment(id)].parent.value, n);
    assert Descends(items, roots, id, n + 1);
  }

  function CommentIds(items: map<Target, Item>): set<nat> {
    set t | t in items && t.OnComment? :: t.id
  }

  /** Grows the set of ids level by level until no new child turns up: exactly the given ids and all
      comments below them, at any depth. */
  method GetCommentIdsWithDescendants(items: map<Target, Item>, roots: set<nat>) returns (all: set<nat>)
    ensures forall id :: id in all <==> Doomed(items, roots, id)
  {
    all := roots;
    var current := roots;
    forall id | id in roots
      ensures Doomed(items, roots, id)
    {
      assert Descends(items, roots, id, 0);
    }
    while current != {}
      invariant roots <= all && current <= all
      invariant forall id :: id in all ==> Doomed(items, roots, id)
      invariant forall c :: IsChild(items, c, all - current) ==> c in all
      decreases CommentIds(items) - all, current
    {
      var frontier := ListOf(current);
      var children := ChildrenOf(items, frontier);
      var newIds := children - all;
      forall id | id in newIds
        ensures Doomed(items, roots, id) && id in CommentIds(items)
      {
        ChildIsDoomed(items, roots, id);
        assert OnComment(id) in items;
      }
      if newIds == {} {
        current := {};
      } else {
        var x :| x in newIds;
        assert x in CommentIds(items) - all;
        all, current := all + newIds, newIds;
      }
    }
    forall id | Doomed(items, roots, id)
      ensures id in all
    {
      var n: nat :| Descends(items, roots, id, n);
      assert forall c :: IsChild(items, c, all) ==> IsChild(items, c, all - current);
      ClosedHoldsDoomed(items, roots, all, id, n);
    }
  }

  /// The cascades

  function CommentKeys(ids: set<nat>): set<Target> {
    set id | id in ids :: OnComment(id)
  }

  /** The comment table after some chunks: their comments are gone, and replies to them are detached. */
  function Detached(items: map<Target, Item>, gone: set<nat>): map<Target, Item> {
    map t | t in items && t !in CommentKeys(gone) ::
      if t.OnComment? && items[t].parent.Some? && items[t].parent.value in gone
      then items[t].(parent := None) else items[t]
  }

  lemma DetachedTwice(items: map<Target, Item>, a: set<nat>, b: set<nat>)
    ensures Detached(Detached(items, a), b) == Detached(items, a + b)
  {
  }

  /** Deletes one chunk of comments with their votes, detaching every reply to them first. */
  method DeleteCommentChunk(l: Ledger, chunk: seq<nat>)
    modifies l`items, l`votes
    ensures l.items == Detached(old(l.items), Elems(chunk))
    ensures l.votes == WithoutVotesOn(old(l.votes), CommentKeys(Elems(chunk)))
  {
    var gone := Elems(chunk);
    l.votes := map k | k in l.votes && k.target !in CommentKeys(gone) :: l.votes[k];
    l.items := map t | t in l.items ::
      if t.OnComment? && l.items[t].parent.Some? && l.items[t].parent.value in gone
      then l.items[t].(parent := None) else l.items[t];
    l.items := map t | t in l.items && t !in CommentKeys(gone) :: l.items[t];
  }

  lemma DetachAllIsPrune(items: map<Target, Item>, roots: set<nat>, all: set<nat>)
    requires forall id :: id in all <==> Doomed(items, roots, id)
    ensures Detached(items, all) == WithoutItems(items, DoomedComments(items, roots))
  {
    DoomedIsClosed(items, roots);
    assert forall t :: t in items ==> (t in CommentKeys(all) <==> t in DoomedComments(items, roots));
    forall t | t in items && t.OnComment? && t !in CommentKeys(all) && items[t].parent.Some?
      ensures items[t].parent.value !in all
    {
      if items[t].parent.value in all { ChildIsDoomed(items, roots, t.id); }
    }
  }

  lemma VotesOnDoomed(db: Db, roots: set<nat>, all: set<nat>)
    requires forall k :: k in db.votes ==> k.target in db.items
    requires forall id :: id in all <==> Doomed(db.items, roots, id)
    ensures WithoutVotesOn(db.votes, CommentKeys(all)) == WithoutVotesOn(db.votes, DoomedComments(db.items, roots))
    ensures AuthorsOf(db.items, CommentKeys(all)) == AuthorsOf(db.items, DoomedComments(db.items, roots))
  {
    assert forall t :: t in db.items ==> (t in CommentKeys(all) <==> t in DoomedComments(db.items, roots));
  }

  lemma PruneNothing(db: Db, posts: bool)
    ensures Pruned(db, {}, posts) == db
  {
    assert WithoutItems(db.items, {}) == db.items;
    assert WithoutVotesOn(db.votes, {}) == db.votes;
    assert Refreshed(db.users, db.items, db.votes, {}, posts) == db.users;
  }

  lemma {:induction false} NoRootsNoDoom(items: map<Target, Item>, id: nat, n: nat)
    ensures !Descends(items, {}, id, n)
    decreases n
  {
    if n == 0 || OnComment(id) !in items || items[OnComment(id)].parent.None? {
    } else {
      NoRootsNoDoom(items, items[OnComment(id)].parent.value, n - 1);
    }
  }

  method DeleteCommentChunks(l: Ledger, list: seq<nat>)
    modifies l`items, l`votes
    ensures l.items == Detached(old(l.items), Elems(list))
    ensures l.votes == WithoutVotesOn(old(l.votes), CommentKeys(Elems(list)))
  {
    ghost var items, votes := l.items, l.votes;
    var i := 0;
    assert list[..0] == [];
    assert Detached(items, {}) == items && WithoutVotesOn(votes, CommentKeys({})) == votes;
    while i < |list|
      invariant 0 <= i <= |list|
      invariant l.items == Detached(items, Elems(list[..i]))
      invariant l.votes == WithoutVotesOn(votes, CommentKeys(Elems(list[..i])))
    {
      var end := Min(i + CHUNK, |list|);
      ElemsCut(list, i, end);
      DetachedTwice(items, Elems(list[..i]), Elems(list[i..end]));
      DeleteCommentChunk(l, list[i..end]);
      i := end;
    }
    assert list[..i] == list;
  }

  lemma NoRootsNothingDoomed(db: Db)
    ensures forall id :: !Doomed(db.items, {}, id)
    ensures CommentsDeleted(db, {}) == db
  {
    forall id: nat, n: nat
      ensures !Descends(db.items, {}, id, n)
    {
      NoRootsNoDoom(db.items, id, n);
    }
    assert DoomedComments(db.items, {}) == {};
    PruneNothing(db, false);
  }

  /** Deletes the comments and everything below them; returns how many ids were collected, which
      counts given ids that name no comment as well. */
  method DeleteComments(l: Ledger, ids: seq<nat>) returns (deleted: nat, ghost collected: set<nat>)
    requires forall k :: k in l.votes ==> k.target in l.items
    modifies l
    ensures l.View() == CommentsDeleted(old(l.View()), Elems(ids))
    ensures CommentsWent(old(l.View()), l.View(), Elems(ids))
    ensures forall id :: id in collected <==> ClimbsTo(old(l.items), id, iset root | root in Elems(ids))
    ensures deleted == |collected|
  {
    ghost var db := l.View();
    CommentSurvivors(db, Elems(ids));
    CollectedByIds(db.items, Elems(ids));
    if ids == [] {
      assert Elems(ids) == {};
      NoRootsNothingDoomed(db);
      return 0, {};
    }
    var all := GetCommentIdsWithDescendants(l.items, Elems(ids));
    var authors := AuthorsOf(l.items, CommentKeys(all));
    DetachAllIsPrune(db.items, Elems(ids), all);
    VotesOnDoomed(db, Elems(ids), all);
    var list := ListOf(all);
    DeleteCommentChunks(l, list);
    RefreshAuthorKarma(l, authors, false);
    deleted, collected := |all|, all;
  }

  /** Deletes one chunk of posts with their votes. */
  method DeletePostChunk(l: Ledger, chunk: seq<nat>)
    modifies l`items, l`votes
    ensures l.items == WithoutItems(old(l.items), PostKeys(Elems(chunk)))
    ensures l.votes == WithoutVotesOn(old(l.votes), PostKeys(Elems(chunk)))
  {
    var gone := PostKeys(Elems(chunk));
    l.votes := map k | k in l.votes && k.target !in gone :: l.votes[k];
    l.items := map t | t in l.items && t !in gone :: l.items[t];
  }

  /** Deletes posts whose comments are already gone, then earns their authors' karma afresh. */
  method DeleteBarePosts(l: Ledger, ids: seq<nat>, authors: set<Name>)
    requires authors == AuthorsOf(l.items, PostKeys(Elems(ids)))
    modifies l
    ensures l.View() == Pruned(old(l.View()), PostKeys(Elems(ids)), true)
  {
    ghost var db := l.View();
    var i := 0;
    assert ids[..0] == [];
    while i < |ids|
      invariant 0 <= i <= |ids| && l.users == db.users
      invariant l.items == WithoutItems(db.items, PostKeys(Elems(ids[..i])))
      invariant l.votes == WithoutVotesOn(db.votes, PostKeys(Elems(ids[..i])))
    {
      var end := Min(i + CHUNK, |ids|);
      ElemsCut(ids, i, end);
      DeletePostChunk(l, ids[i..end]);
      i := end;
    }
    assert ids[..i] == ids;
    RefreshAuthorKarma(l, authors, true);
  }

  /** The comments under the given posts, collected chunk by chunk. */
  method CommentsUnderPosts(l: Ledger, ids: seq<nat>) returns (roots: set<nat>)
    ensures roots == CommentsUnder(l.items, Elems(ids))
  {
    roots := {};
    var i := 0;
    assert ids[..0] == [];
    while i < |ids|
      invariant 0 <= i <= |ids| && roots == CommentsUnder(l.items, Elems(ids[..i]))
    {
      var end := Min(i + CHUNK, |ids|);
      ElemsCut(ids, i, end);
      roots := roots + CommentsUnder(l.items, Elems(ids[i..end]));
      i := end;
    }
    assert ids[..i] == ids;
  }

  /** Posts survive a comment deletion with their authors. */
  lemma PostsOutliveComments(db: Db, roots: set<nat>, ids: set<nat>)
    ensures AuthorsOf(CommentsDeleted(db, roots).items, PostKeys(ids)) == AuthorsOf(db.items, PostKeys(ids))
  {
    assert forall t :: t in PostKeys(ids) ==> t.OnPost? && t !in DoomedComments(db.items, roots);
  }

  /** Deletes posts and their comment trees; returns how many posts were given and how many comments were
      under them, at any depth. */
  method DeletePostsCascade(l: Ledger, ids: seq<nat>) returns (posts: nat, comments: nat, ghost collected: set<nat>)
    requires forall k :: k in l.votes ==> k.target in l.items
    modifies l
    ensures l.View() == PostsDeleted(old(l.View()), Elems(ids))
    ensures PostsWent(old(l.View()), l.View(), Elems(ids))
    ensures posts == |ids| && comments == |collected|
    ensures var under := iset c: nat | OnComment(c) in old(l.items) && old(l.items)[OnComment(c)].thread in Elems(ids);
            forall id :: id in collected <==> ClimbsTo(old(l.items), id, under)
  {
    ghost var db := l.View();
    PostSurvivors(db, Elems(ids));
    CollectedUnderPosts(db.items, Elems(ids));
    if ids == [] {
      assert Elems(ids) == {} && CommentsUnder(db.items, {}) == {} && PostKeys({}) == {};
      NoRootsNothingDoomed(db);
      PruneNothing(db, true);
      return 0, 0, {};
    }
    var authors := AuthorsOf(l.items, PostKeys(Elems(ids)));
    var roots := CommentsUnderPosts(l, ids);
    PostsOutliveComments(db, roots, Elems(ids));
    var list := ListOf(roots);
    comments, collected := DeleteComments(l, list);
    DeleteBarePosts(l, ids, authors);
    posts := |ids|;
  }

  /** One chunk of users: their remaining votes, the recount, the karma, and the user rows. */
  method DeleteUserChunk(l: Ledger, chunk: seq<Name>, hit: set<Target>, pa: set<Name>, ca: set<Name>)
    modifies l
    ensures l.View() == VotersDropped(old(l.View()), Elems(chunk), hit, pa, ca)
  {
    var gone := Elems(chunk);
    l.votes := map k | k in l.votes && !(k.who.Voter? && k.who.name in gone) :: l.votes[k];
    RefreshContentAggregates(l, hit);
    RefreshAuthorKarma(l, pa, true);
    RefreshAuthorKarma(l, ca, false);
    l.users := map u | u in l.users && u !in gone :: l.users[u];
  }

  method DeleteUserChunks(l: Ledger, names: seq<Name>, hit: set<Target>, pa: set<Name>, ca: set<Name>)
    modifies l
    ensures l.View() == ChunksDropped(old(l.View()), names, hit, pa, ca)
  {
    ghost var db := l.View();
    var i := 0;
    assert names[0..] == names;
    while i < |names|
      invariant 0 <= i <= |names|
      invariant ChunksDropped(l.View(), names[i..], hit, pa, ca) == ChunksDropped(db, names, hit, pa, ca)
    {
      var end := Min(i + CHUNK, |names|);
      assert names[i..][..end - i] == names[i..end];
      assert names[i..][end - i..] == names[end..];
      DeleteUserChunk(l, names[i..end], hit, pa, ca);
      i := end;
    }
  }

  /** Deletes users with all their posts, comments, the replies to those, and their votes; returns how
      many users were given, how many posts they had, and how many comments went. */
  method DeleteUsersCascade(l: Ledger, names: seq<Name>)
    returns (users: nat, posts: nat, comments: nat, ghost collected: set<nat>)
    requires forall k :: k in l.votes ==> k.target in l.items
    modifies l
    ensures l.View() == UsersDeleted(old(l.View()), names)
    ensures UsersWent(old(l.View()), l.View(), names)
    ensures users == |names| && posts == |PostsBy(old(l.items), Elems(names))| && comments == |collected|
    ensures var theirs := iset c: nat | TheirSpot(old(l.items), names, c);
            forall id :: id in collected <==> ClimbsTo(old(l.items), id, theirs)
  {
    ghost var db := l.View();
    UserSurvivors(db, names);
    CollectedFromUsers(db.items, names);
    var gone := Elems(names);
    var postIds := PostsBy(l.items, gone);
    var postList := ListOf(postIds);
    var postAuthors := AuthorsOf(l.items, PostKeys(postIds));
    var hit := VotedBy(l.View(), gone);
    var pa, ca := VotedAuthors(l.View(), gone, true), VotedAuthors(l.View(), gone, false);
    var under := CommentsUnderPosts(l, postList);
    var roots := CommentsBy(l.items, gone) + under;
    PostsOutliveComments(db, roots, postIds);
    var list := ListOf(roots);
    comments, collected := DeleteComments(l, list);
    DeleteBarePosts(l, postList, postAuthors);
    DeleteUserChunks(l, names, hit, pa, ca);
    users, posts := |names|, |postIds|;
  }
}
