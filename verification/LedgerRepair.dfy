/** The nightly recompute: scores, counts and karma rebuilt from the vote rows. It is the simple
    specification the incremental bookkeeping has to agree with. */
module LedgerRepair {
  import opened Names
  import opened Sums
  import opened VoteLedger
  import opened LedgerCascade

  ghost function RepairedItem(db: Db, t: Target): Item
    requires t in db.items
  {
    db.items[t].(score := TrueScore(db.votes, t), count := TrueCount(db.votes, t))
  }

  ghost function RepairedItems(db: Db): map<Target, Item> {
    map t | t in db.items :: RepairedItem(db, t)
  }

  ghost function RebuiltUsers(users: map<Name, User>, items: map<Target, Item>): map<Name, User> {
    map u | u in users :: User(Karma(items, u, true), Karma(items, u, false))
  }

  ghost function Repaired(db: Db): Db {
    var items := RepairedItems(db);
    Db(items, RebuiltUsers(db.users, items), db.votes)
  }

  datatype Summary = Summary(repaired: int, driftVotes: int, karmaUpdates: int)

  function OfKind(ts: set<Target>, posts: bool): set<Target> {
    set t | t in ts && SameKind(t, posts)
  }

  /** Columns of an item that differ from the vote rows: 0, 1 or 2. */
  ghost function Drift(db: Db, t: Target): int {
    if t !in db.items then 0
    else
      (if db.items[t].score != TrueScore(db.votes, t) then 1 else 0)
      + (if db.items[t].count != TrueCount(db.votes, t) then 1 else 0)
  }

  ghost function Drifts(db: Db): Target -> int {
    t => Drift(db, t)
  }

  ghost function Drifted(db: Db): Target -> int {
    t => if Drift(db, t) > 0 then 1 else 0
  }

  function KarmaColumn(user: User, posts: bool): int {
    if posts then user.postKarma else user.commentKarma
  }

  ghost function WrongKarma(users: map<Name, User>, items: map<Target, Item>, posts: bool): Name -> int {
    u => if u in users && KarmaColumn(users[u], posts) != Karma(items, u, posts) then 1 else 0
  }

  ghost function Both(ts: set<Target>, f: Target -> int): int {
    Total(OfKind(ts, true), f) + Total(OfKind(ts, false), f)
  }

  /** How many items drifted, how many columns drifted, and how many karma columns are off. */
  ghost function Report(db: Db): Summary {
    var items, wrong := RepairedItems(db), db.users.Keys;
    Summary(Both(db.items.Keys, Drifted(db)), Both(db.items.Keys, Drifts(db)),
            Total(wrong, WrongKarma(db.users, items, true)) + Total(wrong, WrongKarma(db.users, items, false)))
  }

  /** The items of one kind whose score, or whose count, is wrong; the users whose karma is. */
  ghost function WrongScores(db: Db, posts: bool): set<Target> {
    set t | t in db.items && (t.OnPost? <==> posts) && db.items[t].score != TrueScore(db.votes, t)
  }

  ghost function WrongCounts(db: Db, posts: bool): set<Target> {
    set t | t in db.items && (t.OnPost? <==> posts) && db.items[t].count != TrueCount(db.votes, t)
  }

  lemma DriftCounts(db: Db, posts: bool)
    ensures Total(OfKind(db.items.Keys, posts), Drifted(db)) == |WrongScores(db, posts) + WrongCounts(db, posts)|
    ensures Total(OfKind(db.items.Keys, posts), Drifts(db)) == |WrongScores(db, posts)| + |WrongCounts(db, posts)|
  {
    var kind, scores, counts := OfKind(db.items.Keys, posts), WrongScores(db, posts), WrongCounts(db, posts);
    TotalCounts(kind, Drifted(db), scores + counts);
    var one := (t: Target) => if t in scores then 1 else 0;
    var other := (t: Target) => if t in counts then 1 else 0;
    TotalCounts(kind, one, scores);
    TotalCounts(kind, other, counts);
    TotalOfTwo(kind, Drifts(db), one, other);
  }

  /** What is reported: the items with a wrong column, the wrong columns, and the wrong karma columns, the karma
      being the sum of the true scores. */
  lemma ReportCounts(db: Db)
    ensures var items := RepairedItems(db);
            && Report(db).repaired == |WrongScores(db, true) + WrongCounts(db, true)|
                                      + |WrongScores(db, false) + WrongCounts(db, false)|
            && Report(db).driftVotes == |WrongScores(db, true)| + |WrongCounts(db, true)|
                                        + |WrongScores(db, false)| + |WrongCounts(db, false)|
            && Report(db).karmaUpdates
               == |set u | u in db.users && db.users[u].postKarma != Karma(items, u, true)|
                  + |set u | u in db.users && db.users[u].commentKarma != Karma(items, u, false)|
  {
    DriftCounts(db, true);
    DriftCounts(db, false);
    var items := RepairedItems(db);
    TotalCounts(db.users.Keys, WrongKarma(db.users, items, true),
                set u | u in db.users && db.users[u].postKarma != Karma(items, u, true));
    TotalCounts(db.users.Keys, WrongKarma(db.users, items, false),
                set u | u in db.users && db.users[u].commentKarma != Karma(items, u, false));
  }

  /// What a recompute promises

  /** From any corrupted columns, a recompute makes every column equal to the vote rows and changes no
      row's identity, author or thread. */
  lemma RecomputeEstablishes(db: Db)
    requires References(db)
    ensures Canonical(Repaired(db))
    ensures Repaired(db).votes == db.votes
    ensures Repaired(db).items.Keys == db.items.Keys && Repaired(db).users.Keys == db.users.Keys
  {
  }

  /** Over rows that refer to each other, the true ledgers are exactly what a recompute leaves alone, and
      on those it reports nothing. */
  lemma CanonicalIsRepaired(db: Db)
    requires References(db)
    ensures Canonical(db) <==> Repaired(db) == db
    ensures Canonical(db) ==> Report(db) == Summary(0, 0, 0)
  {
    if Canonical(db) {
      assert RepairedItems(db) == db.items;
      assert Repaired(db).users == db.users;
      NothingToReport(db);
    } else {
      RecomputeEstablishes(db);
    }
  }

  lemma NothingToReport(db: Db)
    requires Canonical(db) && RepairedItems(db) == db.items
    ensures Report(db) == Summary(0, 0, 0)
  {
    forall t
      ensures Drift(db, t) == 0
    {
    }
    TotalZero(OfKind(db.items.Keys, true), Drifted(db));
    TotalZero(OfKind(db.items.Keys, false), Drifted(db));
    TotalZero(OfKind(db.items.Keys, true), Drifts(db));
    TotalZero(OfKind(db.items.Keys, false), Drifts(db));
    TotalZero(db.users.Keys, WrongKarma(db.users, db.items, true));
    TotalZero(db.users.Keys, WrongKarma(db.users, db.items, false));
  }

  /** A second recompute finds nothing to repair. */
  lemma RecomputeIdempotent(db: Db)
    requires References(db)
    ensures Repaired(Repaired(db)) == Repaired(db)
    ensures Report(Repaired(db)) == Summary(0, 0, 0)
  {
    RecomputeEstablishes(db);
    CanonicalIsRepaired(Repaired(db));
  }

  /** After any history of casts and cascade deletes a recompute reports no repair and no karma update. */
  lemma IncrementalNeedsNoRepair(db: Db, ops: seq<Op>)
    requires Canonical(db)
    ensures Repaired(PerformAll(db, ops)) == PerformAll(db, ops)
    ensures Report(PerformAll(db, ops)) == Summary(0, 0, 0)
  {
    LedgerStaysCanonical(db, ops);
    CanonicalIsRepaired(PerformAll(db, ops));
  }

  /// The recompute as it runs

  function RowsOf(ks: set<Key>, t: Target): set<Key> {
    set k | k in ks && k.target == t
  }

  ghost function Group(votes: map<Key, Ballot>, ks: set<Key>, t: Target): (int, nat) {
    (Total(RowsOf(ks, t), Values(votes)), |RowsOf(ks, t)|)
  }

  lemma GroupOneMore(votes: map<Key, Ballot>, ks: set<Key>, k: Key, t: Target)
    requires k !in ks
    ensures Group(votes, ks + {k}, t) ==
            if k.target != t then Group(votes, ks, t)
            else (Group(votes, ks, t).0 + Value(votes, k), Group(votes, ks, t).1 + 1)
  {
    if k.target == t {
      assert RowsOf(ks + {k}, t) == RowsOf(ks, t) + {k};
      TotalAdd(RowsOf(ks, t), Values(votes), k);
    } else {
      assert RowsOf(ks + {k}, t) == RowsOf(ks, t);
    }
  }

  function Lookup(aggregates: map<Target, (int, nat)>, t: Target): (int, nat) {
    if t in aggregates then aggregates[t] else (0, 0)
  }

  /** Sum and count of the vote rows, grouped by target. */
  method VoteAggregates(votes: map<Key, Ballot>) returns (aggregates: map<Target, (int, nat)>)
    ensures forall t :: Lookup(aggregates, t) == (TrueScore(votes, t), TrueCount(votes, t))
  {
    aggregates := map[];
    var rest := votes.Keys;
    while rest != {}
      invariant rest <= votes.Keys
      invariant forall t :: Lookup(aggregates, t) == Group(votes, votes.Keys - rest, t)
      decreases rest
    {
      var k :| k in rest;
      ghost var done := votes.Keys - rest;
      forall t
        ensures Group(votes, done + {k}, t) ==
                if k.target != t then Group(votes, done, t)
                else (Group(votes, done, t).0 + Value(votes, k), Group(votes, done, t).1 + 1)
      {
        GroupOneMore(votes, done, k, t);
      }
      assert votes.Keys - (rest - {k}) == done + {k};
      var (sum, count) := Lookup(aggregates, k.target);
      aggregates := aggregates[k.target := (sum + votes[k].value, count + 1)];
      rest := rest - {k};
    }
    forall t
      ensures RowsOf(votes.Keys - rest, t) == Rows(votes, t)
    {
    }
  }

  /** The items with those in `done` repaired. */
  ghost function RepairedIn(db: Db, done: set<Target>): map<Target, Item> {
    map t | t in db.items :: if t in done then RepairedItem(db, t) else db.items[t]
  }

  lemma RepairedInOneMore(db: Db, done: set<Target>, t: Target)
    requires t in db.items && t !in done
    ensures RepairedIn(db, done)[t] == db.items[t]
    ensures RepairedIn(db, done + {t}) == RepairedIn(db, done)[t := RepairedItem(db, t)]
  {
  }

  /** Repairs one row, after those in `done`, and counts its wrong columns. */
  method RepairRow(l: Ledger, t: Target, aggregates: map<Target, (int, nat)>, ghost db: Db, ghost done: set<Target>)
    returns (drift: nat)
    requires t in db.items && t !in done && l.items == RepairedIn(db, done)
    requires Lookup(aggregates, t) == (TrueScore(db.votes, t), TrueCount(db.votes, t))
    modifies l`items
    ensures l.items == RepairedIn(db, done + {t})
    ensures drift == Drift(db, t)
  {
    RepairedInOneMore(db, done, t);
    var (total, count) := Lookup(aggregates, t);
    var item := l.items[t];
    drift := 0;
    if item.score != total {
      drift, item := drift + 1, item.(score := total);
    }
    if item.count != count {
      drift, item := drift + 1, item.(count := count);
    }
    l.items := l.items[t := item];
  }

  /** What is left to count of the items in `rest`. */
  ghost predicate Counted(db: Db, kind: set<Target>, rest: set<Target>, repaired: int, drift: int) {
    && repaired + Total(rest, Drifted(db)) == Total(kind, Drifted(db))
    && drift + Total(rest, Drifts(db)) == Total(kind, Drifts(db))
  }

  lemma CountOne(db: Db, kind: set<Target>, rest: set<Target>, t: Target, repaired: int, drift: int)
    requires t in rest && Counted(db, kind, rest, repaired, drift)
    ensures Counted(db, kind, rest - {t}, repaired + if Drift(db, t) > 0 then 1 else 0, drift + Drift(db, t))
  {
    TotalRemove(rest, Drifted(db), t);
    TotalRemove(rest, Drifts(db), t);
  }

  /** Repairs every item of one kind and counts what was wrong. */
  method RepairItems(l: Ledger, posts: bool) returns (repaired: int, drift: int)
    modifies l`items
    ensures l.items == RepairedIn(old(l.View()), OfKind(old(l.items).Keys, posts))
    ensures repaired == Total(OfKind(old(l.items).Keys, posts), Drifted(old(l.View())))
    ensures drift == Total(OfKind(old(l.items).Keys, posts), Drifts(old(l.View())))
  {
    ghost var db := l.View();
    var aggregates := VoteAggregates(l.votes);
    repaired, drift := 0, 0;
    var kind := OfKind(l.items.Keys, posts);
    var rest := kind;
    assert RepairedIn(db, {}) == db.items;
    while rest != {}
      invariant rest <= kind <= db.items.Keys && l.items == RepairedIn(db, kind - rest)
      invariant Counted(db, kind, rest, repaired, drift)
      decreases rest
    {
      var t :| t in rest;
      CountOne(db, kind, rest, t, repaired, drift);
      var wrong := RepairRow(l, t, aggregates, db, kind - rest);
      assert kind - (rest - {t}) == (kind - rest) + {t};
      drift := drift + wrong;
      if wrong > 0 {
        repaired := repaired + 1;
      }
      rest := rest - {t};
    }
    assert kind - rest == kind;
  }

  /** Sums of item scores, grouped by author. */
  method KarmaTotals(items: map<Target, Item>, posts: bool) returns (totals: map<Name, int>)
    ensures forall u :: (if u in totals then totals[u] else 0) == Karma(items, u, posts)
  {
    totals := map[];
    var kind := OfKind(items.Keys, posts);
    var rest := kind;
    while rest != {}
      invariant rest <= kind
      invariant forall u ::
                  (if u in totals then totals[u] else 0) == Total(ByAuthor(items, kind - rest, u), Scores(items))
      decreases rest
    {
      var t :| t in rest;
      ghost var done := kind - rest;
      forall u
        ensures Total(ByAuthor(items, done + {t}, u), Scores(items)) ==
                Total(ByAuthor(items, done, u), Scores(items)) + if items[t].author == u then items[t].score else 0
      {
        AuthorOneMore(items, done, t, u);
      }
      assert kind - (rest - {t}) == done + {t};
      var u := items[t].author;
      totals := totals[u := (if u in totals then totals[u] else 0) + items[t].score];
      rest := rest - {t};
    }
    forall u
      ensures ByAuthor(items, kind - rest, u) == Authored(items, u, posts)
    {
    }
  }

  function ByAuthor(items: map<Target, Item>, ts: set<Target>, u: Name): set<Target> {
    set t | t in ts && t in items && items[t].author == u
  }

  lemma AuthorOneMore(items: map<Target, Item>, ts: set<Target>, t: Target, u: Name)
    requires t in items && t !in ts
    ensures Total(ByAuthor(items, ts + {t}, u), Scores(items)) ==
            Total(ByAuthor(items, ts, u), Scores(items)) + if items[t].author == u then items[t].score else 0
  {
    if items[t].author == u {
      assert ByAuthor(items, ts + {t}, u) == ByAuthor(items, ts, u) + {t};
      TotalAdd(ByAuthor(items, ts, u), Scores(items), t);
    } else {
      assert ByAuthor(items, ts + {t}, u) == ByAuthor(items, ts, u);
    }
  }

  ghost function KarmaSet(users: map<Name, User>, items: map<Target, Item>, done: set<Name>,
                          posts: bool): map<Name, User> {
    map u | u in users :: if u in done then SetKarma(users[u], posts, Karma(items, u, posts)) else users[u]
  }

  lemma KarmaSetOneMore(users: map<Name, User>, items: map<Target, Item>, done: set<Name>, u: Name, posts: bool)
    requires u in users && u !in done
    ensures var before := KarmaSet(users, items, done, posts);
            before[u] == users[u]
            && KarmaSet(users, items, done + {u}, posts)
               == before[u := SetKarma(users[u], posts, Karma(items, u, posts))]
  {
  }

  /** Rebuilds one karma column of every user and counts the changed ones. */
  method RebuildKarma(l: Ledger, posts: bool) returns (updates: int)
    modifies l`users
    ensures l.users == KarmaSet(old(l.users), l.items, old(l.users).Keys, posts)
    ensures updates == Total(old(l.users).Keys, WrongKarma(old(l.users), l.items, posts))
  {
    ghost var users := l.users;
    var totals := KarmaTotals(l.items, posts);
    updates := 0;
    var all := l.users.Keys;
    var rest := all;
    assert KarmaSet(users, l.items, {}, posts) == users;
    while rest != {}
      invariant rest <= all && all == users.Keys && l.users == KarmaSet(users, l.items, all - rest, posts)
      invariant updates + Total(rest, WrongKarma(users, l.items, posts))
                == Total(all, WrongKarma(users, l.items, posts))
      decreases rest
    {
      var u :| u in rest;
      ghost var done := all - rest;
      KarmaSetOneMore(users, l.items, done, u, posts);
      assert all - (rest - {u}) == done + {u};
      TotalRemove(rest, WrongKarma(users, l.items, posts), u);
      var total := if u in totals then totals[u] else 0;
      if KarmaColumn(l.users[u], posts) != total {
        l.users := l.users[u := SetKarma(l.users[u], posts, total)];
        updates := updates + 1;
      }
      rest := rest - {u};
    }
    assert all - rest == all;
  }

  /** Repairing the posts first does not change what is wrong with the comments. */
  lemma SecondKindReadsTheSame(db: Db, mid: Db)
    requires mid == db.(items := RepairedIn(db, OfKind(db.items.Keys, true)))
    ensures RepairedIn(mid, OfKind(mid.items.Keys, false)) == RepairedItems(db)
    ensures Total(OfKind(mid.items.Keys, false), Drifted(mid)) == Total(OfKind(db.items.Keys, false), Drifted(db))
    ensures Total(OfKind(mid.items.Keys, false), Drifts(mid)) == Total(OfKind(db.items.Keys, false), Drifts(db))
  {
    var comments := OfKind(db.items.Keys, false);
    assert mid.items.Keys == db.items.Keys;
    forall t | t in comments
      ensures mid.items[t] == db.items[t] && Drift(mid, t) == Drift(db, t)
    {
    }
    TotalSame(comments, Drifted(db), Drifted(mid));
    TotalSame(comments, Drifts(db), Drifts(mid));
    forall t | t in db.items
      ensures RepairedIn(mid, comments)[t] == RepairedItem(db, t)
    {
    }
  }

  lemma SecondColumnReadsTheSame(users: map<Name, User>, mid: map<Name, User>, items: map<Target, Item>)
    requires mid == KarmaSet(users, items, users.Keys, true)
    ensures KarmaSet(mid, items, mid.Keys, false) == RebuiltUsers(users, items)
    ensures Total(mid.Keys, WrongKarma(mid, items, false)) == Total(users.Keys, WrongKarma(users, items, false))
  {
    assert mid.Keys == users.Keys;
    TotalSame(users.Keys, WrongKarma(users, items, false), WrongKarma(mid, items, false));
  }

  method RepairAllItems(l: Ledger) returns (repaired: int, drift: int)
    modifies l`items
    ensures l.items == RepairedItems(old(l.View()))
    ensures repaired == Both(old(l.items).Keys, Drifted(old(l.View())))
    ensures drift == Both(old(l.items).Keys, Drifts(old(l.View())))
  {
    var repairedPosts, driftPosts := RepairItems(l, true);
    SecondKindReadsTheSame(old(l.View()), l.View());
    repaired, drift := RepairItems(l, false);
    repaired, drift := repaired + repairedPosts, drift + driftPosts;
  }

  method RebuildAllKarma(l: Ledger) returns (updates: int)
    modifies l`users
    ensures l.users == RebuiltUsers(old(l.users), l.items)
    ensures updates == Total(old(l.users).Keys, WrongKarma(old(l.users), l.items, true))
                       + Total(old(l.users).Keys, WrongKarma(old(l.users), l.items, false))
  {
    var postUpdates := RebuildKarma(l, true);
    SecondColumnReadsTheSame(old(l.users), l.users, l.items);
    updates := RebuildKarma(l, false);
    updates := updates + postUpdates;
  }

  /** The whole recompute, posts before comments, with its report. */
  method RecomputeScoresAndKarma(l: Ledger) returns (summary: Summary)
    modifies l
    ensures l.View() == Repaired(old(l.View()))
    ensures summary == Report(old(l.View()))
  {
    var repaired, drift := RepairAllItems(l);
    var updates := RebuildAllKarma(l);
    summary := Summary(repaired, drift, updates);
  }
}
