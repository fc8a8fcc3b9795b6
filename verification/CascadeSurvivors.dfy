/** What a cascade delete takes and what it leaves, row by row, in terms of authors, threads and parents. */
module CascadeSurvivors {
  import opened Wrappers
  import opened Elements
  import opened Names
  import opened VoteLedger
  import opened LedgerCascade

  /** The path climbs from a comment to its parent, and so on. */
  ghost predicate Climbs(items: map<Target, Item>, path: seq<nat>) {
    && path != []
    && forall i :: 0 <= i < |path| - 1 ==>
                     OnComment(path[i]) in items && items[OnComment(path[i])].parent == Some(path[i + 1])
  }

  /** From comment `id` a path climbs to one of the ids, itself included. */
  ghost predicate ClimbsTo(items: map<Target, Item>, id: nat, ids: iset<nat>) {
    exists path :: Climbs(items, path) && path[0] == id && path[|path| - 1] in ids
  }

  lemma {:induction false} DescentClimbs(items: map<Target, Item>, roots: set<nat>, id: nat, n: nat)
    returns (path: seq<nat>)
    requires Descends(items, roots, id, n)
    ensures Climbs(items, path) && path[0] == id && path[|path| - 1] in roots
    decreases n
  {
    if id in roots {
      path := [id];
    } else {
      var parent := items[OnComment(id)].parent.value;
      var rest := DescentClimbs(items, roots, parent, n - 1);
      path := [id] + rest;
    }
  }

  lemma {:induction false} ClimbDescends(items: map<Target, Item>, roots: set<nat>, path: seq<nat>)
    requires Climbs(items, path) && path[|path| - 1] in roots
    ensures Descends(items, roots, path[0], |path| - 1)
    decreases |path|
  {
    if |path| == 1 {
    } else {
      assert forall i :: 0 <= i < |path| - 1 ==> path[1..][i] == path[i + 1];
      ClimbDescends(items, roots, path[1..]);
    }
  }

  /** The comments below some roots are those from which a path climbs to one. */
  lemma DoomedClimbs(items: map<Target, Item>, roots: set<nat>, id: nat)
    ensures Doomed(items, roots, id) <==> ClimbsTo(items, id, iset root | root in roots)
  {
    if Doomed(items, roots, id) {
      var n: nat :| Descends(items, roots, id, n);
      var path := DescentClimbs(items, roots, id, n);
    }
    if ClimbsTo(items, id, iset root | root in roots) {
      var path :| Climbs(items, path) && path[0] == id && path[|path| - 1] in roots;
      ClimbDescends(items, roots, path);
    }
  }

  lemma SameIds(items: map<Target, Item>, id: nat, a: iset<nat>, b: iset<nat>)
    requires forall k :: k in a <==> k in b
    ensures ClimbsTo(items, id, a) <==> ClimbsTo(items, id, b)
  {
  }

  /** Deleting comments: a comment goes exactly if it or one above it is given; posts stay; a row stays as it is;
      a vote goes exactly with the comment it is on. */
  ghost predicate CommentsWent(db: Db, v: Db, ids: set<nat>) {
    && (forall id :: OnPost(id) in v.items <==> OnPost(id) in db.items)
    && (forall id :: OnComment(id) in v.items
                     <==> OnComment(id) in db.items && !ClimbsTo(db.items, id, iset root | root in ids))
    && (forall t :: t in v.items ==> t in db.items && v.items[t] == db.items[t])
    && (forall k :: k in v.votes <==> k in db.votes && (k.target in db.items ==> k.target in v.items))
    && (forall k :: k in v.votes ==> v.votes[k] == db.votes[k])
    && v.users.Keys == db.users.Keys
  }

  lemma CommentSurvivors(db: Db, ids: set<nat>)
    ensures CommentsWent(db, CommentsDeleted(db, ids), ids)
  {
    CollectedByIds(db.items, ids);
  }

  /** Deleting posts: exactly the given posts go, and a comment goes exactly if it or one above it is under a
      given post; a vote goes exactly with what it is on. */
  ghost predicate PostsWent(db: Db, v: Db, ids: set<nat>) {
    var under := iset c: nat | OnComment(c) in db.items && db.items[OnComment(c)].thread in ids;
    && (forall id :: OnPost(id) in v.items <==> OnPost(id) in db.items && id !in ids)
    && (forall id :: OnComment(id) in v.items <==> OnComment(id) in db.items && !ClimbsTo(db.items, id, under))
    && (forall t :: t in v.items ==> t in db.items && v.items[t] == db.items[t])
    && (forall k :: k in v.votes
                    <==> k in db.votes && (k.target in db.items ==> k.target in v.items)
                         && !(k.target.OnPost? && k.target.id in ids))
    && (forall k :: k in v.votes ==> v.votes[k] == db.votes[k])
    && v.users.Keys == db.users.Keys
  }

  lemma PostSurvivors(db: Db, ids: set<nat>)
    ensures PostsWent(db, PostsDeleted(db, ids), ids)
  {
    var under := iset c: nat | OnComment(c) in db.items && db.items[OnComment(c)].thread in ids;
    var roots := CommentsUnder(db.items, ids);
    CommentSurvivors(db, roots);
    UnderAre(db.items, ids);
    forall id
      ensures ClimbsTo(db.items, id, iset root | root in roots) <==> ClimbsTo(db.items, id, under)
    {
      SameIds(db.items, id, (iset root | root in roots), under);
    }
    PruneMeans(CommentsDeleted(db, roots), PostKeys(ids));
  }

  lemma UnderAre(items: map<Target, Item>, posts: set<nat>)
    ensures forall c :: c in CommentsUnder(items, posts)
                        <==> OnComment(c) in items && items[OnComment(c)].thread in posts
  {
    forall c | OnComment(c) in items && items[OnComment(c)].thread in posts
      ensures c in CommentsUnder(items, posts)
    {
      assert OnComment(c).OnComment? && OnComment(c).id == c;
    }
  }

  lemma PruneMeans(db: Db, gone: set<Target>)
    ensures var v := Pruned(db, gone, true);
            && (forall t :: t in v.items <==> t in db.items && t !in gone)
            && (forall t :: t in v.items ==> t in db.items && v.items[t] == db.items[t])
            && (forall k :: k in v.votes <==> k in db.votes && k.target !in gone)
            && (forall k :: k in v.votes ==> v.votes[k] == db.votes[k])
            && v.users.Keys == db.users.Keys
  {
  }

  /// Columns nobody touches

  /** Among the users are none of the voters on the item. */
  ghost predicate Unvoted(db: Db, names: seq<Name>, x: Target) {
    forall name :: name in names ==> Key(Voter(name), x) !in db.votes
  }

  lemma {:induction false} ChunksTouchOnly(db: Db, names: seq<Name>, hit: set<Target>, pa: set<Name>, ca: set<Name>)
    ensures var v := ChunksDropped(db, names, hit, pa, ca);
            && (forall t :: t in db.items && t !in hit ==> t in v.items && v.items[t] == db.items[t])
            && (forall u :: u in v.users ==>
                  u in db.users
                  && (u !in pa ==> v.users[u].postKarma == db.users[u].postKarma)
                  && (u !in ca ==> v.users[u].commentKarma == db.users[u].commentKarma))
    decreases |names|
  {
    if names == [] {
    } else {
      var n := Min(CHUNK, |names|);
      var next := VotersDropped(db, Elems(names[..n]), hit, pa, ca);
      ChunksTouchOnly(next, names[n..], hit, pa, ca);
    }
  }

  /** The comment is by one of the users, or under a post by one of them. */
  predicate TheirSpot(items: map<Target, Item>, names: seq<Name>, c: nat) {
    && OnComment(c) in items
    && (items[OnComment(c)].author in names
        || (OnPost(items[OnComment(c)].thread) in items && items[OnPost(items[OnComment(c)].thread)].author in names))
  }

  lemma StartsAre(items: map<Target, Item>, names: seq<Name>)
    ensures forall c :: c in CommentsBy(items, Elems(names)) + CommentsUnder(items, PostsBy(items, Elems(names)))
                        <==> TheirSpot(items, names, c)
    ensures forall id :: id in PostsBy(items, Elems(names))
                         <==> OnPost(id) in items && items[OnPost(id)].author in names
  {
    forall id | OnPost(id) in items && items[OnPost(id)].author in names
      ensures id in PostsBy(items, Elems(names))
    {
      assert OnPost(id).OnPost? && OnPost(id).id == id;
    }
    forall c | OnComment(c) in items && items[OnComment(c)].author in names
      ensures c in CommentsBy(items, Elems(names))
    {
      assert OnComment(c).OnComment? && OnComment(c).id == c;
    }
    UnderAre(items, PostsBy(items, Elems(names)));
  }

  /** Deleting users: a post goes exactly if it is by one of them; a comment exactly if it or one above it is by
      one of them or under a post of theirs; a vote exactly if it is theirs or its item went; every other row
      stays with its author, its thread and its parent, and every other user stays. */
  ghost predicate UsersWent(db: Db, v: Db, names: seq<Name>) {
    && (forall id :: OnPost(id) in v.items <==> OnPost(id) in db.items && db.items[OnPost(id)].author !in names)
    && (forall id :: OnComment(id) in v.items
                     <==> OnComment(id) in db.items
                          && !ClimbsTo(db.items, id, iset c: nat | TheirSpot(db.items, names, c)))
    && (forall t :: t in v.items ==>
          t in db.items && v.items[t] == db.items[t].(score := v.items[t].score, count := v.items[t].count))
    && (forall k :: k in v.votes
                    <==> k in db.votes && (k.target in db.items ==> k.target in v.items)
                         && !(k.who.Voter? && k.who.name in names))
    && (forall k :: k in v.votes ==> v.votes[k] == db.votes[k])
    && (forall u :: u in v.users <==> u in db.users && u !in names)
  }

  lemma UserSurvivors(db: Db, names: seq<Name>)
    ensures UsersWent(db, UsersDeleted(db, names), names)
  {
    var gone := Elems(names);
    var posts := PostsBy(db.items, gone);
    var roots := CommentsBy(db.items, gone) + CommentsUnder(db.items, posts);
    var spots := iset c: nat | TheirSpot(db.items, names, c);
    var mid := CommentsDeleted(db, roots);
    var stripped := Pruned(mid, PostKeys(posts), true);
    StartsAre(db.items, names);
    CommentSurvivors(db, roots);
    PruneMeans(mid, PostKeys(posts));
    forall id
      ensures ClimbsTo(db.items, id, iset root | root in roots) <==> ClimbsTo(db.items, id, spots)
    {
      SameIds(db.items, id, (iset root | root in roots), spots);
    }
    ChunksDropExactly(stripped, names, VotedBy(db, gone), VotedAuthors(db, gone, true), VotedAuthors(db, gone, false));
  }

  lemma VotedAreVoted(db: Db, names: seq<Name>)
    ensures forall x :: x in VotedBy(db, Elems(names)) ==> x in db.items && !Unvoted(db, names, x)
  {
    forall x | x in VotedBy(db, Elems(names))
      ensures x in db.items && !Unvoted(db, names, x)
    {
      var k :| k in db.votes && k.who.Voter? && k.who.name in Elems(names) && k.target in db.items && k.target == x;
      assert k == Key(Voter(k.who.name), x);
    }
  }

  /** What deleting the content alone does to karma. */
  lemma StrippingTouchesOnly(db: Db, roots: set<nat>, posts: set<nat>, u: Name)
    requires u in db.users
    ensures var s := Pruned(CommentsDeleted(db, roots), PostKeys(posts), true);
            && u in s.users
            && (s.users[u].postKarma != db.users[u].postKarma ==>
                  exists id :: id in posts && OnPost(id) in db.items && db.items[OnPost(id)].author == u)
            && (s.users[u].commentKarma != db.users[u].commentKarma ==>
                  exists x :: x in DoomedComments(db.items, roots) && db.items[x].author == u)
  {
    var mid := CommentsDeleted(db, roots);
    if u in AuthorsOf(mid.items, PostKeys(posts)) {
      var x :| x in PostKeys(posts) && x in mid.items && mid.items[x].author == u;
      assert x.id in posts && x == OnPost(x.id);
    }
    if u in AuthorsOf(db.items, DoomedComments(db.items, roots)) {
      var x :| x in DoomedComments(db.items, roots) && x in db.items && db.items[x].author == u;
    }
  }

  /** The user's posts, or comments, had no vote of the deleted users. */
  ghost predicate NoneVoted(db: Db, names: seq<Name>, u: Name, posts: bool) {
    forall x :: x in db.items && (x.OnPost? <==> posts) && db.items[x].author == u ==> Unvoted(db, names, x)
  }

  /** An item no deleted user voted on keeps its score and count; a user none of whose posts they voted on keeps
      the post karma, and one none of whose comments went or had their votes keeps the comment karma. */
  lemma UntouchedColumns(db: Db, names: seq<Name>, x: Target, u: Name)
    ensures var v := UsersDeleted(db, names);
            && (x in v.items && Unvoted(db, names, x) ==> x in db.items && v.items[x] == db.items[x])
            && (u in v.users && NoneVoted(db, names, u, true) ==>
                  u in db.users && v.users[u].postKarma == db.users[u].postKarma)
            && (u in v.users && NoneVoted(db, names, u, false)
                && (forall c :: c in db.items && c.OnComment? && db.items[c].author == u ==> c in v.items) ==>
                  u in db.users && v.users[u].commentKarma == db.users[u].commentKarma)
  {
    var gone := Elems(names);
    var posts := PostsBy(db.items, gone);
    var roots := CommentsBy(db.items, gone) + CommentsUnder(db.items, posts);
    var stripped := Pruned(CommentsDeleted(db, roots), PostKeys(posts), true);
    var hit, pa, ca := VotedBy(db, gone), VotedAuthors(db, gone, true), VotedAuthors(db, gone, false);
    StartsAre(db.items, names);
    VotedAreVoted(db, names);
    ChunksTouchOnly(stripped, names, hit, pa, ca);
    ChunksDropExactly(stripped, names, hit, pa, ca);
    if u in db.users {
      StrippingTouchesOnly(db, roots, posts, u);
    }
  }

  /// What a cascade collects

  lemma CollectedByIds(items: map<Target, Item>, ids: set<nat>)
    ensures forall id :: Doomed(items, ids, id) <==> ClimbsTo(items, id, iset root | root in ids)
  {
    forall id
      ensures Doomed(items, ids, id) <==> ClimbsTo(items, id, iset root | root in ids)
    {
      DoomedClimbs(items, ids, id);
    }
  }

  lemma CollectedUnderPosts(items: map<Target, Item>, ids: set<nat>)
    ensures var under := iset c: nat | OnComment(c) in items && items[OnComment(c)].thread in ids;
            forall id :: Doomed(items, CommentsUnder(items, ids), id) <==> ClimbsTo(items, id, under)
  {
    var under := iset c: nat | OnComment(c) in items && items[OnComment(c)].thread in ids;
    UnderAre(items, ids);
    CollectedByIds(items, CommentsUnder(items, ids));
    forall id
      ensures Doomed(items, CommentsUnder(items, ids), id) <==> ClimbsTo(items, id, under)
    {
      SameIds(items, id, (iset root | root in CommentsUnder(items, ids)), under);
    }
  }

  lemma CollectedFromUsers(items: map<Target, Item>, names: seq<Name>)
    ensures var roots := CommentsBy(items, Elems(names)) + CommentsUnder(items, PostsBy(items, Elems(names)));
            var theirs := iset c: nat | TheirSpot(items, names, c);
            forall id :: Doomed(items, roots, id) <==> ClimbsTo(items, id, theirs)
  {
    var roots := CommentsBy(items, Elems(names)) + CommentsUnder(items, PostsBy(items, Elems(names)));
    var theirs := iset c: nat | TheirSpot(items, names, c);
    StartsAre(items, names);
    CollectedByIds(items, roots);
    forall id
      ensures Doomed(items, roots, id) <==> ClimbsTo(items, id, theirs)
    {
      SameIds(items, id, (iset root | root in roots), theirs);
    }
  }
}
