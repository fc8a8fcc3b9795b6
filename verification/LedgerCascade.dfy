/** Deleting comments, posts and users, in chunks, from the vote ledger. */
module LedgerCascade {
  import opened Wrappers
  import opened Elements
  import opened Names
  import opened Sums
  import opened VoteLedger

  const CHUNK := 500

  function Min(a: nat, b: nat): nat {
    if a <= b then a else b
  }

  /// What a deletion does

  /** The karma an author's surviving posts (or comments) earn from the vote rows. */
  ghost function EarnedKarma(items: map<Target, Item>, votes: map<Key, Ballot>, u: Name, posts: bool): int {
    Total(Authored(items, u, posts), TrueScores(votes))
  }

  ghost function TrueScores(votes: map<Key, Ballot>): Target -> int {
    t => TrueScore(votes, t)
  }

  function SetKarma(user: User, posts: bool, karma: int): User {
    if posts then user.(postKarma := karma) else user.(commentKarma := karma)
  }

  ghost function Refreshed(users: map<Name, User>, items: map<Target, Item>, votes: map<Key, Ballot>,
                           authors: set<Name>, posts: bool): map<Name, User> {
    map u | u in users ::
      if u in authors then SetKarma(users[u], posts, EarnedKarma(items, votes, u, posts)) else users[u]
  }

  function WithoutItems(items: map<Target, Item>, gone: set<Target>): map<Target, Item> {
    map t | t in items && t !in gone :: items[t]
  }

  function WithoutVotesOn(votes: map<Key, Ballot>, gone: set<Target>): map<Key, Ballot> {
    map k | k in votes && k.target !in gone :: votes[k]
  }

  function AuthorsOf(items: map<Target, Item>, ts: set<Target>): set<Name> {
    set t | t in ts && t in items :: items[t].author
  }

  /** Items of one kind are gone, with their votes, and their authors' karma is earned afresh. */
  ghost function Pruned(db: Db, gone: set<Target>, posts: bool): Db {
    var items, votes := WithoutItems(db.items, gone), WithoutVotesOn(db.votes, gone);
    Db(items, Refreshed(db.users, items, votes, AuthorsOf(db.items, gone), posts), votes)
  }

  /** Comment `id` is one of `roots`, or a reply at most `n` levels below one. */
  ghost predicate Descends(items: map<Target, Item>, roots: set<nat>, id: nat, n: nat)
    decreases n
  {
    || id in roots
    || (n > 0 && OnComment(id) in items && items[OnComment(id)].parent.Some?
        && Descends(items, roots, items[OnComment(id)].parent.value, n - 1))
  }

  ghost predicate Doomed(items: map<Target, Item>, roots: set<nat>, id: nat) {
    exists n: nat :: Descends(items, roots, id, n)
  }

  ghost function DoomedComments(items: map<Target, Item>, roots: set<nat>): set<Target> {
    set t | t in items && t.OnComment? && Doomed(items, roots, t.id)
  }

  ghost function CommentsDeleted(db: Db, roots: set<nat>): Db {
    Pruned(db, DoomedComments(db.items, roots), false)
  }

  function PostKeys(ids: set<nat>): set<Target> {
    set id | id in ids :: OnPost(id)
  }

  function CommentsUnder(items: map<Target, Item>, posts: set<nat>): set<nat> {
    set t | t in items && t.OnComment? && items[t].thread in posts :: t.id
  }

  ghost function PostsDeleted(db: Db, ids: set<nat>): Db {
    Pruned(CommentsDeleted(db, CommentsUnder(db.items, ids)), PostKeys(ids), true)
  }

  /// Deletions keep the ledger canonical

  lemma SurvivorsKeepRows(votes: map<Key, Ballot>, gone: set<Target>, t: Target)
    requires t !in gone
    ensures Rows(WithoutVotesOn(votes, gone), t) == Rows(votes, t)
    ensures TrueScore(WithoutVotesOn(votes, gone), t) == TrueScore(votes, t)
  {
    assert Rows(WithoutVotesOn(votes, gone), t) == Rows(votes, t);
    TotalSame(Rows(votes, t), Values(votes), Values(WithoutVotesOn(votes, gone)));
  }

  lemma PruneKeepsScores(items: map<Target, Item>, votes: map<Key, Ballot>, gone: set<Target>)
    requires ScoresTrue(items, votes)
    ensures ScoresTrue(WithoutItems(items, gone), WithoutVotesOn(votes, gone))
  {
    forall t | t in WithoutItems(items, gone)
      ensures TrueScore(WithoutVotesOn(votes, gone), t) == TrueScore(votes, t)
      ensures TrueCount(WithoutVotesOn(votes, gone), t) == TrueCount(votes, t)
    {
      SurvivorsKeepRows(votes, gone, t);
    }
  }

  /** With true scores, karma earned from the rows is the sum of the scores. */
  lemma EarnedIsKarma(items: map<Target, Item>, votes: map<Key, Ballot>, u: Name, posts: bool)
    requires ScoresTrue(items, votes)
    ensures EarnedKarma(items, votes, u, posts) == Karma(items, u, posts)
  {
    TotalSame(Authored(items, u, posts), TrueScores(votes), Scores(items));
  }

  /** An author none of whose items went keeps the same karma. */
  lemma UntouchedKarma(items: map<Target, Item>, gone: set<Target>, u: Name, posts: bool)
    requires forall t :: t in gone && t in items ==> items[t].author != u || !SameKind(t, posts)
    ensures Karma(WithoutItems(items, gone), u, posts) == Karma(items, u, posts)
  {
    assert Authored(WithoutItems(items, gone), u, posts) == Authored(items, u, posts);
    TotalSame(Authored(items, u, posts), Scores(items), Scores(WithoutItems(items, gone)));
  }

  lemma PruneKeepsKarma(db: Db, gone: set<Target>, posts: bool)
    requires ScoresTrue(db.items, db.votes) && KarmaTrue(db.users, db.items)
    requires forall t :: t in gone ==> SameKind(t, posts)
    ensures KarmaTrue(Pruned(db, gone, posts).users, Pruned(db, gone, posts).items)
  {
    var v := Pruned(db, gone, posts);
    PruneKeepsScores(db.items, db.votes, gone);
    forall u | u in v.users
      ensures v.users[u].postKarma == Karma(v.items, u, true) && v.users[u].commentKarma == Karma(v.items, u, false)
    {
      UntouchedKarma(db.items, gone, u, !posts);
      if u in AuthorsOf(db.items, gone) {
        EarnedIsKarma(v.items, v.votes, u, posts);
      } else {
        UntouchedKarma(db.items, gone, u, posts);
      }
    }
  }

  /** Nothing that stays refers to something that goes. */
  ghost predicate ClosedCut(items: map<Target, Item>, gone: set<Target>) {
    forall t :: t in items && t.OnComment? && t !in gone ==>
                  && OnPost(items[t].thread) !in gone
                  && (items[t].parent.Some? ==> OnComment(items[t].parent.value) !in gone)
  }

  lemma PruneKeepsCanonical(db: Db, gone: set<Target>, posts: bool)
    requires Canonical(db) && ClosedCut(db.items, gone) && forall t :: t in gone ==> SameKind(t, posts)
    ensures Canonical(Pruned(db, gone, posts))
  {
    PruneKeepsScores(db.items, db.votes, gone);
    PruneKeepsKarma(db, gone, posts);
  }

  lemma DoomedIsClosed(items: map<Target, Item>, roots: set<nat>)
    ensures ClosedCut(items, DoomedComments(items, roots))
  {
    forall t | t in items && t.OnComment? && t !in DoomedComments(items, roots) && items[t].parent.Some?
      ensures OnComment(items[t].parent.value) !in DoomedComments(items, roots)
    {
      if OnComment(items[t].parent.value) in DoomedComments(items, roots) {
        var n: nat :| Descends(items, roots, items[t].parent.value, n);
        assert Descends(items, roots, t.id, n + 1);
      }
    }
  }

  /** Deleting comments with all their replies keeps every column and reference right. */
  lemma CommentsDeletedKeepsCanonical(db: Db, roots: set<nat>)
    requires Canonical(db)
    ensures Canonical(CommentsDeleted(db, roots))
  {
    DoomedIsClosed(db.items, roots);
    PruneKeepsCanonical(db, DoomedComments(db.items, roots), false);
  }

  /** Deleting posts takes their whole comment trees along and keeps the ledger canonical. */
  lemma PostsDeletedKeepsCanonical(db: Db, ids: set<nat>)
    requires Canonical(db)
    ensures Canonical(PostsDeleted(db, ids))
  {
    var roots := CommentsUnder(db.items, ids);
    CommentsDeletedKeepsCanonical(db, roots);
    var mid := CommentsDeleted(db, roots);
    forall t | t in db.items && t.OnComment? && db.items[t].thread in ids
      ensures t in DoomedComments(db.items, roots)
    {
      assert t.id in roots;
      assert Descends(db.items, roots, t.id, 0);
    }
    PruneKeepsCanonical(mid, PostKeys(ids), true);
  }

  /// Deleting users

  function WithoutVoters(votes: map<Key, Ballot>, names: set<Name>): map<Key, Ballot> {
    map k | k in votes && !(k.who.Voter? && k.who.name in names) :: votes[k]
  }

  ghost function Recounted(items: map<Target, Item>, votes: map<Key, Ballot>, hit: set<Target>): map<Target, Item> {
    map t | t in items ::
      if t in hit then items[t].(score := TrueScore(votes, t), count := TrueCount(votes, t)) else items[t]
  }

  /** The votes of some users go; the items they had voted on (`hit`) are recounted and those items'
      authors' karma earned afresh; then the users go. */
  ghost function VotersDropped(db: Db, names: set<Name>, hit: set<Target>, pa: set<Name>, ca: set<Name>): Db {
    var votes := WithoutVoters(db.votes, names);
    var items := Recounted(db.items, votes, hit);
    var users := Refreshed(Refreshed(db.users, items, votes, pa, true), items, votes, ca, false);
    Db(items, map u | u in users && u !in names :: users[u], votes)
  }

  /** `hit` holds every target these users voted on, `pa` and `ca` the authors of its posts and of its
      comments, and the users have no content left. */
  ghost predicate Covers(db: Db, names: set<Name>, hit: set<Target>, pa: set<Name>, ca: set<Name>) {
    && (forall k :: k in db.votes && k.who.Voter? && k.who.name in names ==> k.target in hit)
    && (forall t :: t in hit && t in db.items ==> db.items[t].author in if t.OnPost? then pa else ca)
    && (forall t :: t in db.items ==> db.items[t].author !in names)
  }

  lemma OthersKeepRows(votes: map<Key, Ballot>, names: set<Name>, t: Target)
    requires forall k :: k in votes && k.who.Voter? && k.who.name in names ==> k.target != t
    ensures Rows(WithoutVoters(votes, names), t) == Rows(votes, t)
    ensures TrueScore(WithoutVoters(votes, names), t) == TrueScore(votes, t)
  {
    assert Rows(WithoutVoters(votes, names), t) == Rows(votes, t);
    TotalSame(Rows(votes, t), Values(votes), Values(WithoutVoters(votes, names)));
  }

  lemma DropKeepsScores(db: Db, names: set<Name>, hit: set<Target>, pa: set<Name>, ca: set<Name>)
    requires ScoresTrue(db.items, db.votes) && Covers(db, names, hit, pa, ca)
    ensures ScoresTrue(VotersDropped(db, names, hit, pa, ca).items, VotersDropped(db, names, hit, pa, ca).votes)
  {
    var votes := WithoutVoters(db.votes, names);
    forall t | t in db.items && t !in hit
      ensures TrueScore(votes, t) == TrueScore(db.votes, t) && TrueCount(votes, t) == TrueCount(db.votes, t)
    {
      OthersKeepRows(db.votes, names, t);
    }
  }

  lemma RecountKeepsKarma(items: map<Target, Item>, votes: map<Key, Ballot>, hit: set<Target>, u: Name, posts: bool)
    requires forall t :: t in hit && t in items ==> items[t].author != u || !SameKind(t, posts)
    ensures Karma(Recounted(items, votes, hit), u, posts) == Karma(items, u, posts)
  {
    var after := Recounted(items, votes, hit);
    assert Authored(after, u, posts) == Authored(items, u, posts);
    TotalSame(Authored(items, u, posts), Scores(items), Scores(after));
  }

  lemma DropKeepsKarma(db: Db, names: set<Name>, hit: set<Target>, pa: set<Name>, ca: set<Name>)
    requires ScoresTrue(db.items, db.votes) && KarmaTrue(db.users, db.items) && Covers(db, names, hit, pa, ca)
    ensures KarmaTrue(VotersDropped(db, names, hit, pa, ca).users, VotersDropped(db, names, hit, pa, ca).items)
  {
    var v := VotersDropped(db, names, hit, pa, ca);
    DropKeepsScores(db, names, hit, pa, ca);
    forall u | u in v.users
      ensures v.users[u].postKarma == Karma(v.items, u, true) && v.users[u].commentKarma == Karma(v.items, u, false)
    {
      EarnedIsKarma(v.items, v.votes, u, true);
      EarnedIsKarma(v.items, v.votes, u, false);
      if u !in pa { RecountKeepsKarma(db.items, v.votes, hit, u, true); }
      if u !in ca { RecountKeepsKarma(db.items, v.votes, hit, u, false); }
    }
  }

  lemma DropKeepsReferences(db: Db, names: set<Name>, hit: set<Target>, pa: set<Name>, ca: set<Name>)
    requires References(db) && Covers(db, names, hit, pa, ca)
    ensures References(VotersDropped(db, names, hit, pa, ca))
  {
  }

  lemma DropKeepsCanonical(db: Db, names: set<Name>, hit: set<Target>, pa: set<Name>, ca: set<Name>)
    requires Canonical(db) && Covers(db, names, hit, pa, ca)
    ensures Canonical(VotersDropped(db, names, hit, pa, ca))
  {
    DropKeepsScores(db, names, hit, pa, ca);
    DropKeepsKarma(db, names, hit, pa, ca);
    DropKeepsReferences(db, names, hit, pa, ca);
  }

  /** The users go chunk by chunk. */
  ghost function ChunksDropped(db: Db, names: seq<Name>, hit: set<Target>, pa: set<Name>, ca: set<Name>): Db
    decreases |names|
  {
    if names == [] then db
    else
      var n := Min(CHUNK, |names|);
      ChunksDropped(VotersDropped(db, Elems(names[..n]), hit, pa, ca), names[n..], hit, pa, ca)
  }

  lemma {:induction false} ChunksKeepCanonical(db: Db, names: seq<Name>, hit: set<Target>, pa: set<Name>, ca: set<Name>)
    requires Canonical(db) && Covers(db, Elems(names), hit, pa, ca)
    ensures Canonical(ChunksDropped(db, names, hit, pa, ca))
    decreases |names|
  {
    if names == [] {
    } else {
      var n := Min(CHUNK, |names|);
      assert Covers(db, Elems(names[..n]), hit, pa, ca);
      DropKeepsCanonical(db, Elems(names[..n]), hit, pa, ca);
      assert Covers(VotersDropped(db, Elems(names[..n]), hit, pa, ca), Elems(names[n..]), hit, pa, ca);
      ChunksKeepCanonical(VotersDropped(db, Elems(names[..n]), hit, pa, ca), names[n..], hit, pa, ca);
    }
  }

  /** The chunks together drop exactly the named users and their votes. */
  lemma {:induction false} ChunksDropExactly(db: Db, names: seq<Name>, hit: set<Target>, pa: set<Name>, ca: set<Name>)
    ensures var v := ChunksDropped(db, names, hit, pa, ca);
            && v.votes == WithoutVoters(db.votes, Elems(names))
            && v.users.Keys == db.users.Keys - Elems(names)
            && v.items.Keys == db.items.Keys
            && forall t :: t in db.items ==>
                             v.items[t] == db.items[t].(score := v.items[t].score, count := v.items[t].count)
    decreases |names|
  {
    if names == [] {
      assert WithoutVoters(db.votes, Elems(names)) == db.votes;
    } else {
      var n := Min(CHUNK, |names|);
      var first, rest := Elems(names[..n]), Elems(names[n..]);
      assert names == names[..n] + names[n..];
      assert Elems(names) == first + rest;
      ChunksDropExactly(VotersDropped(db, first, hit, pa, ca), names[n..], hit, pa, ca);
      assert WithoutVoters(WithoutVoters(db.votes, first), rest) == WithoutVoters(db.votes, first + rest);
    }
  }

  function PostsBy(items: map<Target, Item>, names: set<Name>): set<nat> {
    set t | t in items && t.OnPost? && items[t].author in names :: t.id
  }

  function CommentsBy(items: map<Target, Item>, names: set<Name>): set<nat> {
    set t | t in items && t.OnComment? && items[t].author in names :: t.id
  }

  function VotedBy(db: Db, names: set<Name>): set<Target> {
    set k | k in db.votes && k.who.Voter? && k.who.name in names && k.target in db.items :: k.target
  }

  /** Authors of the posts (or comments) these users voted on. */
  function VotedAuthors(db: Db, names: set<Name>, posts: bool): set<Name> {
    set t | t in VotedBy(db, names) && SameKind(t, posts) :: db.items[t].author
  }

  /** The comments to start from, the user's content, and then the users and their votes. */
  ghost function UsersDeleted(db: Db, names: seq<Name>): Db {
    var gone := Elems(names);
    var posts := PostsBy(db.items, gone);
    var stripped := Pruned(CommentsDeleted(db, CommentsBy(db.items, gone) + CommentsUnder(db.items, posts)),
                           PostKeys(posts), true);
    ChunksDropped(stripped, names, VotedBy(db, gone), VotedAuthors(db, gone, true), VotedAuthors(db, gone, false))
  }

  lemma StrippedKeepsCanonical(db: Db, posts: set<nat>, roots: set<nat>)
    requires Canonical(db) && CommentsUnder(db.items, posts) <= roots
    ensures Canonical(Pruned(CommentsDeleted(db, roots), PostKeys(posts), true))
  {
    CommentsDeletedKeepsCanonical(db, roots);
    forall t | t in db.items && t.OnComment? && db.items[t].thread in posts
      ensures t in DoomedComments(db.items, roots)
    {
      assert t.id in CommentsUnder(db.items, posts);
      assert Descends(db.items, roots, t.id, 0);
    }
    PruneKeepsCanonical(CommentsDeleted(db, roots), PostKeys(posts), true);
  }

  lemma StrippedCovers(db: Db, names: set<Name>)
    requires References(db)
    ensures var posts := PostsBy(db.items, names);
            var roots := CommentsBy(db.items, names) + CommentsUnder(db.items, posts);
            Covers(Pruned(CommentsDeleted(db, roots), PostKeys(posts), true), names,
                   VotedBy(db, names), VotedAuthors(db, names, true), VotedAuthors(db, names, false))
  {
    var posts := PostsBy(db.items, names);
    var roots := CommentsBy(db.items, names) + CommentsUnder(db.items, posts);
    forall t | t in db.items && t.OnComment? && db.items[t].author in names
      ensures t in DoomedComments(db.items, roots)
    {
      assert t.id in CommentsBy(db.items, names);
      assert Descends(db.items, roots, t.id, 0);
    }
    forall t | t in db.items && t.OnPost? && db.items[t].author in names
      ensures t in PostKeys(posts)
    {
      assert t.id in posts;
    }
  }

  /** Deleting users with their posts, comments, other people's replies and every vote they cast keeps
      the ledger canonical, and leaves neither a row by them nor a vote of theirs. */
  lemma UsersDeletedKeepsCanonical(db: Db, names: seq<Name>)
    requires Canonical(db)
    ensures Canonical(UsersDeleted(db, names))
    ensures var v := UsersDeleted(db, names);
            && v.users.Keys == db.users.Keys - Elems(names)
            && (forall t :: t in v.items ==> v.items[t].author !in names)
            && (forall k :: k in v.votes && k.who.Voter? ==> k.who.name !in names)
  {
    var gone := Elems(names);
    var posts := PostsBy(db.items, gone);
    var roots := CommentsBy(db.items, gone) + CommentsUnder(db.items, posts);
    var stripped := Pruned(CommentsDeleted(db, roots), PostKeys(posts), true);
    StrippedKeepsCanonical(db, posts, roots);
    StrippedCovers(db, gone);
    ChunksKeepCanonical(stripped, names, VotedBy(db, gone), VotedAuthors(db, gone, true),
                        VotedAuthors(db, gone, false));
    ChunksDropExactly(stripped, names, VotedBy(db, gone), VotedAuthors(db, gone, true), VotedAuthors(db, gone, false));
  }

  /// Whole histories

  datatype Op =
    | CastOp(request: Request, downvotes: bool)
    | DeleteCommentsOp(ids: set<nat>)
    | DeletePostsOp(ids: set<nat>)
    | DeleteUsersOp(names: seq<Name>)

  ghost function Perform(db: Db, op: Op): Db {
    match op
    case CastOp(r, downvotes) => Cast(db, r, downvotes)
    case DeleteCommentsOp(ids) => CommentsDeleted(db, ids)
    case DeletePostsOp(ids) => PostsDeleted(db, ids)
    case DeleteUsersOp(names) => UsersDeleted(db, names)
  }

  ghost function PerformAll(db: Db, ops: seq<Op>): Db {
    if ops == [] then db else Perform(PerformAll(db, ops[..|ops| - 1]), ops[|ops| - 1])
  }

  lemma PerformKeepsCanonical(db: Db, op: Op)
    requires Canonical(db)
    ensures Canonical(Perform(db, op))
  {
    match op
    case CastOp(r, downvotes) => CastKeepsCanonical(db, r, downvotes);
    case DeleteCommentsOp(ids) => CommentsDeletedKeepsCanonical(db, ids);
    case DeletePostsOp(ids) => PostsDeletedKeepsCanonical(db, ids);
    case DeleteUsersOp(names) => UsersDeletedKeepsCanonical(db, names);
  }

  /** After any sequence of casts, clears and cascade deletes, every score, count and karma equals the
      vote rows and nothing refers to a deleted row. */
  lemma {:induction false} LedgerStaysCanonical(db: Db, ops: seq<Op>)
    requires Canonical(db)
    ensures Canonical(PerformAll(db, ops))
  {
    if ops == [] {
    } else {
      LedgerStaysCanonical(db, ops[..|ops| - 1]);
      PerformKeepsCanonical(PerformAll(db, ops[..|ops| - 1]), ops[|ops| - 1]);
    }
  }
}
