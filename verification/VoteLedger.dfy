/** The vote ledger: `Vote` rows are the truth, and each item's score and vote count and each author's
    karma are denormalised columns that every operation has to keep equal to it. */
module VoteLedger {
  import opened Wrappers
  import opened Names
  import opened Sums

  /** Posts and comments are keyed by their own ids. */
  datatype Target = OnPost(id: nat) | OnComment(id: nat)

  /** A platform user, or the keyed hash of an anonymous browser's cookie. */
  datatype Identity = Voter(name: Name) | Visitor(hash: string)

  datatype Source = Simulated | ByAgent | Human | Backfill

  /** The unique constraints: one row per identity and target. */
  datatype Key = Key(who: Identity, target: Target)

  datatype Ballot = Ballot(value: int, source: Source)

  /** A post or comment row. `thread` is the post it belongs to; a post belongs to itself. */
  datatype Item = Item(author: Name, thread: nat, parent: Option<nat>, score: int, count: int)

  datatype User = User(postKarma: int, commentKarma: int)

  datatype Db = Db(items: map<Target, Item>, users: map<Name, User>, votes: map<Key, Ballot>)

  /// Truth: what the vote rows say

  function Rows(votes: map<Key, Ballot>, t: Target): set<Key> {
    set k | k in votes && k.target == t
  }

  function Value(votes: map<Key, Ballot>, k: Key): int {
    if k in votes then votes[k].value else 0
  }

  function Values(votes: map<Key, Ballot>): Key -> int {
    k => Value(votes, k)
  }

  ghost function TrueScore(votes: map<Key, Ballot>, t: Target): int {
    Total(Rows(votes, t), Values(votes))
  }

  ghost function TrueCount(votes: map<Key, Ballot>, t: Target): int {
    |Rows(votes, t)|
  }

  predicate SameKind(t: Target, posts: bool) {
    posts <==> t.OnPost?
  }

  function Authored(items: map<Target, Item>, u: Name, posts: bool): set<Target> {
    set t | t in items && SameKind(t, posts) && items[t].author == u
  }

  function Score(items: map<Target, Item>, t: Target): int {
    if t in items then items[t].score else 0
  }

  function Scores(items: map<Target, Item>): Target -> int {
    t => Score(items, t)
  }

  /** Karma as defined: the sum of an author's surviving posts' (or comments') scores. */
  ghost function Karma(items: map<Target, Item>, u: Name, posts: bool): int {
    Total(Authored(items, u, posts), Scores(items))
  }

  /// The ledger invariant

  /** No row refers to a deleted one, and every stored value is an up or a down. */
  ghost predicate References(db: Db) {
    && (forall k :: k in db.votes ==>
          && k.target in db.items && db.votes[k].value in {1, -1}
          && (k.who.Voter? ==> k.who.name in db.users))
    && (forall t :: t in db.items ==> db.items[t].author in db.users)
    && (forall t :: t in db.items && t.OnComment? ==>
          && OnPost(db.items[t].thread) in db.items
          && (db.items[t].parent.Some? ==> OnComment(db.items[t].parent.value) in db.items))
  }

  ghost predicate ScoresTrue(items: map<Target, Item>, votes: map<Key, Ballot>) {
    forall t :: t in items ==> items[t].score == TrueScore(votes, t) && items[t].count == TrueCount(votes, t)
  }

  ghost predicate KarmaTrue(users: map<Name, User>, items: map<Target, Item>) {
    forall u :: u in users ==>
                  users[u].postKarma == Karma(items, u, true) && users[u].commentKarma == Karma(items, u, false)
  }

  ghost predicate Canonical(db: Db) {
    References(db) && ScoresTrue(db.items, db.votes) && KarmaTrue(db.users, db.items)
  }

  /// Casting

  datatype Request = Request(who: Identity, target: Target, value: int, source: Source, recast: bool)

  datatype Change = Insert | Switch | Remove | SameValueNoop | InsertOnlyCollision

  datatype Reason = NoSuchTarget | BadValue | NoSuchUser | OwnContent | DownvotesDisabled

  datatype Result = Rejected(reason: Reason, score: int) | Done(score: int, change: Change)

  function Refusal(db: Db, r: Request, downvotes: bool): Option<Reason> {
    if r.target !in db.items then Some(NoSuchTarget)
    else if r.value !in {1, -1, 0} then Some(BadValue)
    else if r.who.Voter? && r.who.name !in db.users then Some(NoSuchUser)
    else if r.who == Voter(db.items[r.target].author) then Some(OwnContent)
    else if r.value == -1 && !downvotes then Some(DownvotesDisabled)
    else None
  }

  function ChangeFor(votes: map<Key, Ballot>, r: Request): Change {
    var k := Key(r.who, r.target);
    if r.value == 0 then (if k in votes && r.recast then Remove else SameValueNoop)
    else if k !in votes then Insert
    else if !r.recast then InsertOnlyCollision
    else if votes[k].value != r.value then Switch
    else SameValueNoop
  }

  /** The vote rows after an accepted request. */
  function VotesAfter(votes: map<Key, Ballot>, r: Request): map<Key, Ballot> {
    var k := Key(r.who, r.target);
    match ChangeFor(votes, r)
    case Remove => votes - {k}
    case Insert => votes[k := Ballot(r.value, r.source)]
    case Switch => votes[k := votes[k].(value := r.value)]
    case SameValueNoop => votes
    case InsertOnlyCollision => votes
  }

  function Credit(u: User, posts: bool, delta: int): User {
    if posts then u.(postKarma := u.postKarma + delta) else u.(commentKarma := u.commentKarma + delta)
  }

  /** The bookkeeping: add `delta` and `countDelta` to the item, and `delta` to its author. */
  function Bookkept(db: Db, t: Target, delta: int, countDelta: int): Db
    requires t in db.items
  {
    var item := db.items[t];
    db.(items := db.items[t := item.(score := item.score + delta, count := item.count + countDelta)],
        users := if item.author in db.users
                 then db.users[item.author := Credit(db.users[item.author], t.OnPost?, delta)] else db.users)
  }

  /** The ledger once row `k` has become what `after` says. */
  function Revoted(db: Db, k: Key, after: map<Key, Ballot>): Db
    requires k.target in db.items
  {
    Bookkept(db, k.target, Value(after, k) - Value(db.votes, k), |after| - |db.votes|).(votes := after)
  }

  function Cast(db: Db, r: Request, downvotes: bool): Db {
    if Refusal(db, r, downvotes).Some? then db
    else Revoted(db, Key(r.who, r.target), VotesAfter(db.votes, r))
  }

  class Ledger {
    var items: map<Target, Item>
    var users: map<Name, User>
    var votes: map<Key, Ballot>

    function View(): Db
      reads this
    {
      Db(items, users, votes)
    }

    /** Inserts, switches, clears or leaves the identity's row. */
    method Upsert(r: Request) returns (delta: int, countDelta: int, change: Change)
      modifies this`votes
      ensures votes == VotesAfter(old(votes), r) && change == ChangeFor(old(votes), r)
      ensures delta == Value(votes, Key(r.who, r.target)) - Value(old(votes), Key(r.who, r.target))
      ensures countDelta == |votes| - |old(votes)|
    {
      delta, countDelta, change := 0, 0, SameValueNoop;
      var k := Key(r.who, r.target);
      if r.value == 0 {
        if k in votes && r.recast {
          delta, countDelta, change := -votes[k].value, -1, Remove;
          assert (votes - {k}).Keys == votes.Keys - {k};
          assert |(votes - {k}).Keys| == |votes.Keys| - 1;
          votes := votes - {k};
        }
      } else if k !in votes {
        delta, countDelta, change := r.value, 1, Insert;
        assert votes[k := Ballot(r.value, r.source)].Keys == votes.Keys + {k};
        votes := votes[k := Ballot(r.value, r.source)];
      } else if !r.recast {
        change := InsertOnlyCollision;
      } else if votes[k].value != r.value {
        delta, change := r.value - votes[k].value, Switch;
        assert votes[k := votes[k].(value := r.value)].Keys == votes.Keys;
        votes := votes[k := votes[k].(value := r.value)];
      }
    }

    /** Score, count and the author's karma follow a vote that moved; karma only of a known author. */
    method Bookkeep(t: Target, delta: int, countDelta: int)
      requires t in items && (delta == 0 ==> countDelta == 0)
      modifies this`items, this`users
      ensures View() == Bookkept(old(View()), t, delta, countDelta)
    {
      var item := items[t];
      if delta != 0 {
        items := items[t := item.(score := item.score + delta, count := item.count + countDelta)];
        if item.author in users {
          users := users[item.author := Credit(users[item.author], t.OnPost?, delta)];
        }
      } else {
        assert items == items[t := item];
        assert item.author in users ==> users == users[item.author := users[item.author]];
      }
    }

    /** The checks before anything is read for update, in their order. */
    method Vet(r: Request, downvotes: bool) returns (refused: Option<Reason>)
      ensures refused == Refusal(View(), r, downvotes)
      ensures refused.None?
              <==> r.target in items && r.value in {1, 0, -1} && (r.value == -1 ==> downvotes)
                   && (r.who.Voter? ==> r.who.name in users && r.who.name != items[r.target].author)
    {
      if r.target !in items { return Some(NoSuchTarget); }
      var item := items[r.target];
      if r.value !in {1, -1, 0} { return Some(BadValue); }
      if r.who.Voter? && r.who.name !in users { return Some(NoSuchUser); }
      if r.who == Voter(item.author) { return Some(OwnContent); }
      if r.value == -1 && !downvotes { return Some(DownvotesDisabled); }
      return None;
    }

    /** The row first, then the columns that summarise it. */
    method Accept(r: Request) returns (change: Change)
      requires r.target in items && forall k :: k in votes ==> votes[k].value in {1, -1}
      modifies this
      ensures View() == Revoted(old(View()), Key(r.who, r.target), VotesAfter(old(votes), r))
      ensures change == ChangeFor(old(votes), r)
    {
      NoDeltaNoCount(votes, r);
      ghost var after := VotesAfter(votes, r);
      var delta, countDelta, c := Upsert(r);
      assert delta == 0 ==> countDelta == 0;
      BookkeepingReadsNoVotes(old(View()), after, r.target, delta, countDelta);
      Bookkeep(r.target, delta, countDelta);
      change := c;
    }

    /** One transaction: find the identity's row on the target, insert, switch, clear or leave it, and
        keep score, count and karma in step. */
    method CastVote(r: Request, downvotes: bool) returns (result: Result)
      requires forall k :: k in votes ==> votes[k].value in {1, -1}
      modifies this
      ensures View() == Cast(old(View()), r, downvotes)
      ensures match Refusal(old(View()), r, downvotes)
              case Some(reason) => result == Rejected(reason, Score(old(items), r.target))
              case None => result == Done(Score(items, r.target), ChangeFor(old(votes), r))
    {
      var refused := Vet(r, downvotes);
      if refused.Some? {
        return Rejected(refused.value, Score(items, r.target));
      }
      var change := Accept(r);
      result := Done(items[r.target].score, change);
    }
  }

  lemma BookkeepingReadsNoVotes(db: Db, votes: map<Key, Ballot>, t: Target, delta: int, countDelta: int)
    requires t in db.items
    ensures Bookkept(db.(votes := votes), t, delta, countDelta) == Bookkept(db, t, delta, countDelta).(votes := votes)
  {
  }

  /** When the value does not move, no row comes or goes. */
  lemma NoDeltaNoCount(votes: map<Key, Ballot>, r: Request)
    requires forall k :: k in votes ==> votes[k].value in {1, -1}
    ensures var after, k := VotesAfter(votes, r), Key(r.who, r.target);
            Value(after, k) == Value(votes, k) ==> after == votes
  {
  }

  /// What a cast means, and what it keeps

  /** Exactly which requests are refused, and of several grounds which one is given. */
  lemma RefusalMeans(db: Db, r: Request, downvotes: bool)
    ensures Refusal(db, r, downvotes).None?
            <==> r.target in db.items && r.value in {1, 0, -1} && (r.value == -1 ==> downvotes)
                 && (r.who.Voter? ==> r.who.name in db.users && r.who.name != db.items[r.target].author)
    ensures Refusal(db, r, downvotes) == Some(NoSuchTarget) <==> r.target !in db.items
    ensures Refusal(db, r, downvotes) == Some(BadValue) <==> r.target in db.items && r.value !in {1, 0, -1}
    ensures Refusal(db, r, downvotes) == Some(NoSuchUser)
            <==> r.target in db.items && r.value in {1, 0, -1} && r.who.Voter? && r.who.name !in db.users
    ensures Refusal(db, r, downvotes) == Some(DownvotesDisabled)
            <==> r.target in db.items && r.value == -1 && !downvotes
                 && (r.who.Voter? ==> r.who.name in db.users && r.who.name != db.items[r.target].author)
  {
  }

  /** An accepted vote leaves the identity holding exactly the requested value, unless the simulator
      found the pair already claimed, and touches no other row. */
  lemma CastMeaning(db: Db, r: Request, downvotes: bool, k: Key)
    requires Refusal(db, r, downvotes).None?
    ensures k != Key(r.who, r.target) ==>
              (k in Cast(db, r, downvotes).votes <==> k in db.votes)
              && (k in db.votes ==> Cast(db, r, downvotes).votes[k] == db.votes[k])
    ensures k == Key(r.who, r.target) && (r.recast || k !in db.votes) ==>
              (k in Cast(db, r, downvotes).votes <==> r.value != 0)
              && (r.value != 0 ==>
                    Cast(db, r, downvotes).votes[k]
                    == Ballot(r.value, if k in db.votes then db.votes[k].source else r.source))
    ensures k == Key(r.who, r.target) && !r.recast && k in db.votes ==> Cast(db, r, downvotes).votes == db.votes
  {
  }

  /** What an accepted request is reported to have done. */
  lemma ChangeMeans(votes: map<Key, Ballot>, r: Request)
    ensures var k, change := Key(r.who, r.target), ChangeFor(votes, r);
            && (change == Insert <==> k !in votes && r.value != 0)
            && (change == Remove <==> k in votes && r.value == 0 && r.recast)
            && (change == Switch <==> k in votes && r.value != 0 && r.recast && votes[k].value != r.value)
            && (change == InsertOnlyCollision <==> k in votes && r.value != 0 && !r.recast)
  {
  }

  /** Only row `k` differs. */
  ghost predicate DiffersAt(before: map<Key, Ballot>, after: map<Key, Ballot>, k: Key) {
    before - {k} == after - {k}
  }

  lemma VotesAfterDiffersAt(votes: map<Key, Ballot>, r: Request)
    ensures DiffersAt(votes, VotesAfter(votes, r), Key(r.who, r.target))
  {
  }

  lemma OtherRows(before: map<Key, Ballot>, after: map<Key, Ballot>, k: Key, j: Key)
    requires DiffersAt(before, after, k) && j != k
    ensures (j in after <==> j in before) && Value(after, j) == Value(before, j)
  {
    assert j in before <==> j in before - {k};
    assert j in after <==> j in after - {k};
    if j in before { assert before[j] == (before - {k})[j] == (after - {k})[j] == after[j]; }
  }

  lemma RowsKept(before: map<Key, Ballot>, after: map<Key, Ballot>, k: Key, t: Target)
    requires DiffersAt(before, after, k)
    ensures Rows(before, t) - {k} == Rows(after, t) - {k}
    ensures Total(Rows(before, t) - {k}, Values(before)) == Total(Rows(after, t) - {k}, Values(after))
  {
    forall j | j != k
      ensures (j in after <==> j in before) && Value(after, j) == Value(before, j)
    {
      OtherRows(before, after, k, j);
    }
    assert Rows(before, t) - {k} == Rows(after, t) - {k};
    TotalSame(Rows(before, t) - {k}, Values(before), Values(after));
  }

  lemma ScoreWithout(votes: map<Key, Ballot>, k: Key, t: Target)
    ensures TrueScore(votes, t) ==
            Total(Rows(votes, t) - {k}, Values(votes)) + if t == k.target then Value(votes, k) else 0
    ensures TrueCount(votes, t) == |Rows(votes, t) - {k}| + if t == k.target && k in votes then 1 else 0
  {
    if k in Rows(votes, t) {
      TotalRemove(Rows(votes, t), Values(votes), k);
    } else {
      assert Rows(votes, t) - {k} == Rows(votes, t);
    }
  }

  lemma SizeWithout(votes: map<Key, Ballot>, k: Key)
    ensures |votes| == |votes - {k}| + if k in votes then 1 else 0
  {
    assert |votes| == |votes.Keys| && |votes - {k}| == |(votes - {k}).Keys|;
    assert (votes - {k}).Keys == votes.Keys - {k};
  }

  /** How the truth about a target moves: only on the target of `k`, by what `k` now says. */
  lemma TruthMoves(before: map<Key, Ballot>, after: map<Key, Ballot>, k: Key, t: Target)
    requires DiffersAt(before, after, k)
    ensures TrueScore(after, t)
            == TrueScore(before, t) + if t == k.target then Value(after, k) - Value(before, k) else 0
    ensures TrueCount(after, t) == TrueCount(before, t) + if t == k.target then |after| - |before| else 0
  {
    RowsKept(before, after, k, t);
    ScoreWithout(before, k, t);
    ScoreWithout(after, k, t);
    SizeWithout(before, k);
    SizeWithout(after, k);
  }

  /** Bookkeeping moves the author's karma by exactly the item's score change. */
  lemma KarmaMoves(db: Db, t: Target, delta: int, countDelta: int, u: Name, posts: bool)
    requires t in db.items
    ensures Karma(Bookkept(db, t, delta, countDelta).items, u, posts) ==
            Karma(db.items, u, posts) + if db.items[t].author == u && SameKind(t, posts) then delta else 0
  {
    var after := Bookkept(db, t, delta, countDelta).items;
    assert Authored(after, u, posts) == Authored(db.items, u, posts);
    TotalUpdate(Authored(db.items, u, posts), Scores(db.items), Scores(after), t);
  }

  lemma CastKeepsReferences(db: Db, r: Request, downvotes: bool)
    requires References(db)
    ensures References(Cast(db, r, downvotes))
  {
  }

  lemma RevoteKeepsScores(db: Db, k: Key, after: map<Key, Ballot>)
    requires ScoresTrue(db.items, db.votes) && k.target in db.items && DiffersAt(db.votes, after, k)
    ensures ScoresTrue(Revoted(db, k, after).items, after)
  {
    var v := Revoted(db, k, after);
    forall t | t in db.items
      ensures v.items[t].score == TrueScore(after, t) && v.items[t].count == TrueCount(after, t)
    {
      TruthMoves(db.votes, after, k, t);
    }
  }

  lemma BookkeepingKeepsKarma(db: Db, t: Target, delta: int, countDelta: int)
    requires KarmaTrue(db.users, db.items) && t in db.items
    ensures KarmaTrue(Bookkept(db, t, delta, countDelta).users, Bookkept(db, t, delta, countDelta).items)
  {
    var v := Bookkept(db, t, delta, countDelta);
    forall u | u in db.users
      ensures v.users[u].postKarma == Karma(v.items, u, true) && v.users[u].commentKarma == Karma(v.items, u, false)
    {
      KarmaMoves(db, t, delta, countDelta, u, true);
      KarmaMoves(db, t, delta, countDelta, u, false);
    }
  }

  lemma RevoteKeepsKarma(db: Db, k: Key, after: map<Key, Ballot>)
    requires KarmaTrue(db.users, db.items) && k.target in db.items
    ensures KarmaTrue(Revoted(db, k, after).users, Revoted(db, k, after).items)
  {
    var delta, countDelta := Value(after, k) - Value(db.votes, k), |after| - |db.votes|;
    var b := Bookkept(db, k.target, delta, countDelta);
    var v := Revoted(db, k, after);
    assert v.users == b.users && v.items == b.items;
    BookkeepingKeepsKarma(db, k.target, delta, countDelta);
  }

  lemma CastKeepsTotals(db: Db, r: Request, downvotes: bool)
    requires ScoresTrue(db.items, db.votes) && KarmaTrue(db.users, db.items)
    ensures var v := Cast(db, r, downvotes); ScoresTrue(v.items, v.votes) && KarmaTrue(v.users, v.items)
  {
    if Refusal(db, r, downvotes).None? {
      VotesAfterDiffersAt(db.votes, r);
      RevoteKeepsScores(db, Key(r.who, r.target), VotesAfter(db.votes, r));
      RevoteKeepsKarma(db, Key(r.who, r.target), VotesAfter(db.votes, r));
    }
  }

  /** A cast, whatever its outcome, leaves score, count and karma equal to the vote rows. */
  lemma CastKeepsCanonical(db: Db, r: Request, downvotes: bool)
    requires Canonical(db)
    ensures Canonical(Cast(db, r, downvotes))
  {
    CastKeepsReferences(db, r, downvotes);
    CastKeepsTotals(db, r, downvotes);
  }

  /** Nobody holds a vote on their own item. */
  ghost predicate NoSelfVotes(db: Db) {
    forall k :: k in db.votes && k.target in db.items ==> k.who != Voter(db.items[k.target].author)
  }

  /** A refusal leaves the whole ledger alone and names a row that is missing, a value that is no vote, a
      down vote while those are off, or the author; so no cast ever stores an author's own vote. */
  lemma RefusalProtects(db: Db, r: Request, downvotes: bool)
    requires NoSelfVotes(db)
    ensures NoSelfVotes(Cast(db, r, downvotes))
    ensures Refusal(db, r, downvotes).Some? ==> Cast(db, r, downvotes) == db
    ensures Refusal(db, r, downvotes).None? && Key(r.who, r.target) !in db.votes && r.value != 0 ==>
              && Key(r.who, r.target) in Cast(db, r, downvotes).votes
              && r.target in db.items && r.value in {1, -1} && (r.value == -1 ==> downvotes)
              && r.who != Voter(db.items[r.target].author)
              && (r.who.Voter? ==> r.who.name in db.users)
  {
    var k := Key(r.who, r.target);
    if Refusal(db, r, downvotes).None? {
      var v := Cast(db, r, downvotes);
      forall j | j in v.votes && j.target in v.items
        ensures j.who != Voter(v.items[j.target].author)
      {
        assert j != k ==> j in db.votes;
      }
    }
  }

  lemma RevoteBack(db: Db, k: Key, after: map<Key, Ballot>)
    requires k.target in db.items
    ensures Revoted(Revoted(db, k, after), k, db.votes) == db
  {
    var item := db.items[k.target];
    var back := Revoted(Revoted(db, k, after), k, db.votes);
    assert back.items == db.items;
    assert back.users == db.users;
  }

  /** Clearing a vote undoes casting it: score, count, karma and rows are all as before. */
  lemma ClearUndoesCast(db: Db, r: Request, downvotes: bool)
    requires Refusal(db, r, downvotes).None? && Key(r.who, r.target) !in db.votes
    ensures Cast(Cast(db, r, downvotes), r.(value := 0, recast := true), downvotes) == db
  {
    var k, clear := Key(r.who, r.target), r.(value := 0, recast := true);
    var after := VotesAfter(db.votes, r);
    assert VotesAfter(after, clear) == db.votes;
    assert Refusal(Cast(db, r, downvotes), clear, downvotes).None?;
    RevoteBack(db, k, after);
  }

  /// Splitting the denormalised pair

  function UpDownSplit(score: int, count: int): (int, int) {
    var up := (count + score) / 2;
    (up, count - up)
  }

  ghost function Signed(s: set<Key>, votes: map<Key, Ballot>, v: int): set<Key> {
    set k | k in s && Value(votes, k) == v
  }

  lemma {:induction false} SumOfSigns(s: set<Key>, votes: map<Key, Ballot>)
    requires forall k :: k in s ==> Value(votes, k) in {1, -1}
    ensures Total(s, Values(votes)) == |Signed(s, votes, 1)| - |Signed(s, votes, -1)|
    ensures |s| == |Signed(s, votes, 1)| + |Signed(s, votes, -1)|
  {
    var ups, downs := Signed(s, votes, 1), Signed(s, votes, -1);
    if s == {} {
    } else {
      var x :| x in s;
      TotalRemove(s, Values(votes), x);
      SumOfSigns(s - {x}, votes);
      assert Signed(s - {x}, votes, 1) == ups - {x};
      assert Signed(s - {x}, votes, -1) == downs - {x};
      if Value(votes, x) == 1 { assert downs - {x} == downs; } else { assert ups - {x} == ups; }
    }
  }

  lemma SplitOfRows(votes: map<Key, Ballot>, t: Target)
    requires forall k :: k in votes ==> votes[k].value in {1, -1}
    ensures UpDownSplit(TrueScore(votes, t), TrueCount(votes, t)) ==
            (|Signed(Rows(votes, t), votes, 1)|, |Signed(Rows(votes, t), votes, -1)|)
  {
    SumOfSigns(Rows(votes, t), votes);
  }

  /** On a canonical ledger the split returns the exact numbers of up and down votes. */
  lemma SplitIsExact(db: Db, t: Target)
    requires Canonical(db) && t in db.items
    ensures UpDownSplit(db.items[t].score, db.items[t].count) ==
            (|Signed(Rows(db.votes, t), db.votes, 1)|, |Signed(Rows(db.votes, t), db.votes, -1)|)
  {
    SplitOfRows(db.votes, t);
  }
}
