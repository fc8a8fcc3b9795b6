/** When a dry run tells what a live tick would do. Its tail sees neither the votes nor the guards that the
    live tick's own casts leave behind, so it departs from the live tick, but only at exposures that the dry
    run itself can name. */
module SchedulerTail {
  import opened Wrappers
  import opened Names
  import opened VoteLedger
  import opened VoterSelection
  import opened Scheduler
  import opened SchedulerSafety

  /// One exposure

  /** Who wins an exposure's race, `out` being left out of it. */
  function Winner(s: Setup, e: Exposure, g: Guards, out: set<Name>): Option<Name> {
    Choose(ContestFor(s, e.mode, e.target, e.ordinal, out), g, s.users)
  }

  /** The item's own limit, the draw, the global limit and earlier simulated votes let the exposure through. */
  predicate Open(s: Setup, e: Exposure, votes: map<Key, Ballot>, t: Tick) {
    && CountOn(t.decisions, e.target) < s.perItem && e.noticed && t.used < s.global
    && SimulatedOn(votes, e.target) == {}
  }

  /** There is a winner, and they have not voted on the item. */
  predicate Free(e: Exposure, votes: map<Key, Ballot>, winner: Option<Name>) {
    winner.Some? && winner.value !in VotersOn(votes, e.target)
  }

  lemma OpportunityDecides(s: Setup, e: Exposure, votes: map<Key, Ballot>, t: Tick)
    ensures var after, w := Opportunity(s, e, votes, t), Winner(s, e, t.guards, {});
            if Open(s, e, votes, t) && Free(e, votes, w)
            then after == Decided(s, t, e.target, e.ordinal, w.value, e.mode)
            else after.decisions == t.decisions && after.used == t.used && after.guards == t.guards
  {
  }

  /** A dry run at `t` departs from the live tick at this exposure; `voted` are the voters of its active phase.
      Either the item was decided on earlier in the tick, so that the live tick finds a simulated vote on it,
      and the dry run decides again; or the item is untouched, and the winner of the race has voted in the
      active phase, so that the live tick finds them too recent, and the dry run lets them vote or somebody
      else would be free to. */
  predicate Departs(s: Setup, e: Exposure, votes: map<Key, Ballot>, t: Tick, voted: set<Name>) {
    var w, other := Winner(s, e, t.guards, {}), Winner(s, e, t.guards, voted);
    Open(s, e, votes, t) &&
    if CountOn(t.decisions, e.target) > 0 then Free(e, votes, w)
    else w.Some? && w.value in voted && (Free(e, votes, w) || Free(e, votes, other))
  }

  /** The tail of a dry run. */
  function DryTail(s: Setup, es: seq<Exposure>, votes: map<Key, Ballot>, t: Tick): Tick {
    if es == [] then t else Opportunity(s, es[|es| - 1], votes, DryTail(s, es[..|es| - 1], votes, t))
  }

  predicate NeverDeparts(s: Setup, es: seq<Exposure>, votes: map<Key, Ballot>, t: Tick, voted: set<Name>) {
    es == [] ||
    var front := es[..|es| - 1];
    NeverDeparts(s, front, votes, t, voted) && !Departs(s, es[|es| - 1], votes, DryTail(s, front, votes, t), voted)
  }

  lemma {:induction false} DryTailIsTail(s: Setup, es: seq<Exposure>, store: Store, t: Tick, downvotes: bool,
                                         dry: Caster)
    requires Casts(dry, s.now, downvotes, true)
    ensures TailPhase(s, es, store, t, dry) == (store, DryTail(s, es, store.db.votes, t))
  {
    if es == [] {
    } else {
      DryTailIsTail(s, es[..|es| - 1], store, t, downvotes, dry);
      var (store1, t1) := TailPhase(s, es[..|es| - 1], store, t, dry);
      DryStoreStays(dry, s, downvotes, store, Since(t1, Opportunity(s, es[|es| - 1], store.db.votes, t1)));
    }
  }

  /// The guards a live tail goes by

  /** The live guards are the dry ones, but everyone who `voted` did so just now. */
  ghost predicate Shadows(live: Guards, dry: Guards, voted: set<Name>, now: int) {
    && (forall name :: name in voted ==> name in live.latest && live.latest[name] == now)
    && (forall name :: name !in voted ==> SameGuards(live, dry, name))
  }

  predicate SameGuards(live: Guards, dry: Guards, name: Name) {
    && HourlyCount(live, name) == HourlyCount(dry, name)
    && (name in live.latest <==> name in dry.latest)
    && (name in live.latest ==> live.latest[name] == dry.latest[name])
  }

  lemma ClaimedShadows(live: Guards, dry: Guards, voted: set<Name>, now: int, name: Name)
    requires Shadows(live, dry, voted, now)
    ensures Shadows(Claimed(live, name, now), Claimed(dry, name, now), voted, now)
    ensures Shadows(Claimed(live, name, now), dry, voted + {name}, now)
  {
    forall other
      ensures other !in voted ==> SameGuards(Claimed(live, name, now), Claimed(dry, name, now), other)
      ensures other !in voted + {name} ==> SameGuards(Claimed(live, name, now), dry, other)
    {
      assert other !in voted ==> SameGuards(live, dry, other);
    }
  }

  /** So the live race is the dry one without those who voted. */
  lemma ShadowedWinner(s: Setup, e: Exposure, live: Guards, dry: Guards, voted: set<Name>)
    requires Shadows(live, dry, voted, s.now)
    ensures Winner(s, e, live, {}) == Winner(s, e, dry, voted)
    ensures Winner(s, e, live, {}) != Winner(s, e, dry, {})
            <==> Winner(s, e, dry, {}).Some? && Winner(s, e, dry, {}).value in voted
  {
    var c, without := ContestFor(s, e.mode, e.target, e.ordinal, {}), ContestFor(s, e.mode, e.target, e.ordinal, voted);
    forall u | u in s.users
      ensures Why(c, live, u).None? <==> Why(without, dry, u).None?
    {
      assert u !in voted ==> SameGuards(live, dry, u);
    }
    SamePools(c, without, live, dry, s.users);
    SameBest(c, without, Pool(c, live, s.users));
    WinnerWithout(c, voted, dry, s.users);
    assert {} + voted == voted;
  }

  /// The votes a live tick leaves behind

  function KeyOf(d: Decision): Key {
    Key(Voter(d.voter), d.target)
  }

  /** The decision's row is there, as a simulated vote. */
  ghost predicate HasRow(votes: map<Key, Ballot>, d: Decision) {
    KeyOf(d) in votes && votes[KeyOf(d)].source == Simulated
  }

  /** The rows are those of `before`, and one for each decision. */
  ghost predicate Landed(before: map<Key, Ballot>, after: map<Key, Ballot>, ds: seq<Decision>) {
    && (forall k :: k in before ==> k in after && after[k] == before[k])
    && (forall d :: d in ds ==> HasRow(after, d))
    && (forall k :: k in after && k !in before ==> exists d :: d in ds && KeyOf(d) == k)
  }

  lemma {:induction false} CountedOn(ds: seq<Decision>, x: Target)
    ensures CountOn(ds, x) > 0 <==> exists d :: d in ds && d.target == x
  {
    if ds == [] {
    } else {
      CountedOn(ds[..|ds| - 1], x);
      assert forall d :: d in ds <==> d in ds[..|ds| - 1] || d == ds[|ds| - 1];
    }
  }

  /** An item nobody was decided on looks the same; one somebody was decided on holds a simulated vote. */
  lemma LandedOn(before: map<Key, Ballot>, after: map<Key, Ballot>, ds: seq<Decision>, x: Target)
    requires Landed(before, after, ds)
    ensures CountOn(ds, x) == 0 ==> SameOn(before, after, x)
    ensures CountOn(ds, x) > 0 ==> SimulatedOn(after, x) != {}
    ensures SimulatedOn(before, x) != {} ==> SimulatedOn(after, x) != {}
  {
    CountedOn(ds, x);
    if CountOn(ds, x) > 0 {
      var d :| d in ds && d.target == x;
      assert HasRow(after, d);
      assert KeyOf(d) in SimulatedOn(after, x);
    }
    if k :| k in SimulatedOn(before, x) {
      assert k in SimulatedOn(after, x);
    }
  }

  /** Nothing about the decision makes a cast refuse it. */
  ghost predicate Castable(db: Db, d: Decision, downvotes: bool) {
    && d.target in db.items && d.voter in db.users && db.items[d.target].author != d.voter
    && d.value in {1, -1} && (d.value == -1 ==> downvotes)
  }

  /** The same items, by the same authors, and the same users. */
  ghost predicate SamePlace(a: Db, b: Db) {
    && a.items.Keys == b.items.Keys && a.users.Keys == b.users.Keys
    && forall x :: x in a.items ==> a.items[x].author == b.items[x].author
  }

  /** The bookkeeping of a vote moves columns only. */
  lemma CastStaysInPlace(db: Db, r: Request, downvotes: bool)
    ensures SamePlace(db, Cast(db, r, downvotes))
  {
  }

  lemma CastInserts(db: Db, d: Decision, downvotes: bool)
    requires Castable(db, d, downvotes) && KeyOf(d) !in db.votes
    ensures var votes := Cast(db, RequestFor(d), downvotes).votes;
            votes == db.votes[KeyOf(d) := Ballot(d.value, Simulated)] && |votes| == |db.votes| + 1
  {
    var votes := db.votes[KeyOf(d) := Ballot(d.value, Simulated)];
    assert ChangeFor(db.votes, RequestFor(d)) == Insert;
    assert votes.Keys == db.votes.Keys + {KeyOf(d)};
    assert |votes.Keys| == |db.votes.Keys| + 1;
  }

  lemma CastLands(store: Store, d: Decision, now: int, downvotes: bool)
    requires Castable(store.db, d, downvotes) && KeyOf(d) !in store.db.votes
    ensures var after := CastOne(store, d, now, downvotes);
            && after.db.votes == store.db.votes[KeyOf(d) := Ballot(d.value, Simulated)]
            && after.recent == Claimed(store.recent, d.voter, now)
            && SamePlace(store.db, after.db)
  {
    CastInserts(store.db, d, downvotes);
    CastStaysInPlace(store.db, RequestFor(d), downvotes);
  }

  lemma RowAdded(before: map<Key, Ballot>, votes: map<Key, Ballot>, ds: seq<Decision>, d: Decision)
    requires Landed(before, votes, ds) && KeyOf(d) !in votes
    ensures Landed(before, votes[KeyOf(d) := Ballot(d.value, Simulated)], ds + [d])
  {
    var after := votes[KeyOf(d) := Ballot(d.value, Simulated)];
    forall e | e in ds + [d]
      ensures HasRow(after, e)
    {
      assert e in ds ==> HasRow(votes, e);
    }
    forall k | k in after && k !in before
      ensures exists e :: e in ds + [d] && KeyOf(e) == k
    {
      if k == KeyOf(d) {
        assert d in ds + [d];
      } else {
        var e :| e in ds && KeyOf(e) == k;
        assert e in ds + [d];
      }
    }
  }

  lemma OneLands(before: map<Key, Ballot>, ds: seq<Decision>, store: Store, d: Decision, now: int, downvotes: bool)
    requires Landed(before, store.db.votes, ds)
    requires Castable(store.db, d, downvotes) && KeyOf(d) !in store.db.votes
    ensures var after := CastOne(store, d, now, downvotes);
            && Landed(before, after.db.votes, ds + [d])
            && after.recent == Claimed(store.recent, d.voter, now) && SamePlace(store.db, after.db)
  {
    CastLands(store, d, now, downvotes);
    RowAdded(before, store.db.votes, ds, d);
  }

  /** The item exists with the author the tick knows, and every direction the rules give is allowed. */
  ghost predicate Known(s: Setup, db: Db, x: Target, downvotes: bool) {
    && x in db.items && db.items[x].author == s.author(x)
    && forall mode, name :: Allowed(RulesOf(s, mode).direction(x, name), downvotes)
  }

  predicate Allowed(value: int, downvotes: bool) {
    value in {1, -1} && (value == -1 ==> downvotes)
  }

  ghost predicate UsersKnown(s: Setup, db: Db) {
    forall name :: name in s.users ==> name in db.users
  }

  /** What a tick reads is there: its personas, and whatever it looks at. */
  ghost predicate Sound(s: Setup, db: Db, cs: seq<Candidate>, es: seq<Exposure>, downvotes: bool) {
    && UsersKnown(s, db)
    && (forall i :: 0 <= i < |cs| ==> Known(s, db, cs[i].target, downvotes))
    && (forall i :: 0 <= i < |es| ==> Known(s, db, es[i].target, downvotes))
  }

  lemma MayCast(s: Setup, db: Db, now: Db, d: Decision, downvotes: bool)
    requires UsersKnown(s, db) && Known(s, db, d.target, downvotes) && SamePlace(db, now)
    requires d.voter in s.users && d.voter != s.author(d.target)
    requires d.value == RulesOf(s, d.mode).direction(d.target, d.voter)
    ensures Castable(now, d, downvotes)
  {
    assert Allowed(RulesOf(s, d.mode).direction(d.target, d.voter), downvotes);
  }

  function VotersOf(ds: seq<Decision>): set<Name> {
    set d | d in ds :: d.voter
  }

  ghost predicate DistinctVoters(ds: seq<Decision>) {
    forall i, j :: 0 <= i < j < |ds| ==> ds[i].voter != ds[j].voter
  }

  lemma VotersSnoc(ds: seq<Decision>, d: Decision)
    ensures VotersOf(ds + [d]) == VotersOf(ds) + {d.voter}
  {
    assert forall e :: e in ds + [d] <==> e in ds || e == d;
    forall name
      ensures name in VotersOf(ds + [d]) <==> name in VotersOf(ds) + {d.voter}
    {
      if name in VotersOf(ds) {
        var e :| e in ds && e.voter == name;
        assert e in ds + [d];
      }
      if name == d.voter {
        assert d in ds + [d];
      }
    }
  }

  lemma RowIsNew(s: Setup, before: map<Key, Ballot>, after: map<Key, Ballot>, ds: seq<Decision>, d: Decision)
    requires Landed(before, after, ds) && Clean(s, before, d) && d.voter !in VotersOf(ds)
    ensures KeyOf(d) !in after
  {
    assert KeyOf(d) in before ==> d.voter in VotersOn(before, d.target);
    forall e | e in ds
      ensures KeyOf(e) != KeyOf(d)
    {
      assert e.voter in VotersOf(ds);
    }
  }

  /** In the active phase every decision's vote lands, and its voter counts as having voted now. */
  lemma {:induction false} AllLand(s: Setup, store: Store, ds: seq<Decision>, downvotes: bool, live: Caster)
    requires Casts(live, s.now, downvotes, false) && DistinctVoters(ds) && UsersKnown(s, store.db)
    requires forall i :: 0 <= i < |ds| ==>
               Clean(s, store.db.votes, ds[i]) && Known(s, store.db, ds[i].target, downvotes)
    ensures var after := CastAll(live, store, ds);
            && Landed(store.db.votes, after.db.votes, ds) && SamePlace(store.db, after.db)
            && Shadows(after.recent, store.recent, VotersOf(ds), s.now)
  {
    if ds == [] {
      assert VotersOf(ds) == {};
    } else {
      var front, d := ds[..|ds| - 1], ds[|ds| - 1];
      assert ds == front + [d];
      AllLand(s, store, front, downvotes, live);
      var after := CastAll(live, store, front);
      assert Clean(s, store.db.votes, d);
      assert d.voter !in VotersOf(front);
      RowIsNew(s, store.db.votes, after.db.votes, front, d);
      MayCast(s, store.db, after.db, d, downvotes);
      OneLands(store.db.votes, front, after, d, s.now, downvotes);
      assert live(after, d) == CastOne(after, d, s.now, downvotes);
      ClaimedShadows(after.recent, store.recent, VotersOf(front), s.now, d.voter);
      VotersSnoc(front, d);
    }
  }

  /// The two tails side by side

  /** So far live and dry run made the same decisions; every one of them has its vote in the live ledger. */
  ghost predicate Abreast(store: Store, voted: set<Name>, now: int, liveStore: Store, live: Tick, dry: Tick) {
    && live.decisions == dry.decisions && live.used == dry.used
    && Shadows(live.guards, dry.guards, voted, now)
    && Landed(store.db.votes, liveStore.db.votes, live.decisions) && SamePlace(store.db, liveStore.db)
  }

  /** On an item decided on earlier the live tick finds a vote. */
  lemma NextOnDecided(s: Setup, e: Exposure, store: Store, voted: set<Name>, liveStore: Store, live: Tick, dry: Tick)
    requires Abreast(store, voted, s.now, liveStore, live, dry) && CountOn(dry.decisions, e.target) > 0
    ensures Opportunity(s, e, liveStore.db.votes, live).decisions == dry.decisions
    ensures Opportunity(s, e, store.db.votes, dry).decisions == dry.decisions
            <==> !Departs(s, e, store.db.votes, dry, voted)
  {
    OpportunityDecides(s, e, liveStore.db.votes, live);
    OpportunityDecides(s, e, store.db.votes, dry);
    LandedOn(store.db.votes, liveStore.db.votes, live.decisions, e.target);
    assert forall d :: |dry.decisions + [d]| == |dry.decisions| + 1;
  }

  /** On an untouched item the live tick holds the same race without those who voted. */
  lemma NextOnUntouched(s: Setup, e: Exposure, store: Store, voted: set<Name>, liveStore: Store, live: Tick, dry: Tick)
    requires Abreast(store, voted, s.now, liveStore, live, dry) && CountOn(dry.decisions, e.target) == 0
    ensures Opportunity(s, e, liveStore.db.votes, live).decisions == Opportunity(s, e, store.db.votes, dry).decisions
            <==> !Departs(s, e, store.db.votes, dry, voted)
  {
    OpportunityDecides(s, e, liveStore.db.votes, live);
    OpportunityDecides(s, e, store.db.votes, dry);
    LandedOn(store.db.votes, liveStore.db.votes, live.decisions, e.target);
    SameReads(store.db.votes, liveStore.db.votes, e.target);
    ShadowedWinner(s, e, live.guards, dry.guards, voted);
    assert forall d :: |dry.decisions + [d]| == |dry.decisions| + 1 && (dry.decisions + [d])[|dry.decisions|] == d;
  }

  /** The next decisions are the same exactly if the dry run does not depart. */
  lemma NextDecision(s: Setup, e: Exposure, store: Store, voted: set<Name>, liveStore: Store, live: Tick, dry: Tick)
    requires Abreast(store, voted, s.now, liveStore, live, dry)
    ensures Opportunity(s, e, liveStore.db.votes, live).decisions == Opportunity(s, e, store.db.votes, dry).decisions
            <==> !Departs(s, e, store.db.votes, dry, voted)
  {
    if CountOn(dry.decisions, e.target) > 0 {
      NextOnDecided(s, e, store, voted, liveStore, live, dry);
    } else {
      NextOnUntouched(s, e, store, voted, liveStore, live, dry);
    }
  }

  /** As long as it does not depart, the two stay abreast. */
  lemma StaysAbreast(s: Setup, e: Exposure, store: Store, voted: set<Name>, liveStore: Store, live: Tick, dry: Tick,
                     downvotes: bool, cast: Caster)
    requires Abreast(store, voted, s.now, liveStore, live, dry) && Casts(cast, s.now, downvotes, false)
    requires UsersKnown(s, store.db) && Known(s, store.db, e.target, downvotes)
    requires !Departs(s, e, store.db.votes, dry, voted)
    ensures var after := Opportunity(s, e, liveStore.db.votes, live);
            Abreast(store, voted, s.now, After(cast, liveStore, live, after), after,
                    Opportunity(s, e, store.db.votes, dry))
  {
    var after, dryAfter := Opportunity(s, e, liveStore.db.votes, live), Opportunity(s, e, store.db.votes, dry);
    NextDecision(s, e, store, voted, liveStore, live, dry);
    OpportunityDecides(s, e, liveStore.db.votes, live);
    OpportunityDecides(s, e, store.db.votes, dry);
    LookLands(s, e, store, liveStore, live, downvotes, cast);
    if |after.decisions| > |live.decisions| {
      var d := after.decisions[|live.decisions|];
      assert dryAfter.decisions[|live.decisions|] == d;
      ClaimedShadows(live.guards, dry.guards, voted, s.now, d.voter);
    }
  }

  lemma OneMoreLands(s: Setup, e: Exposure, store: Store, liveStore: Store, live: Tick, downvotes: bool, cast: Caster)
    requires Landed(store.db.votes, liveStore.db.votes, live.decisions) && SamePlace(store.db, liveStore.db)
    requires Casts(cast, s.now, downvotes, false)
    requires UsersKnown(s, store.db) && Known(s, store.db, e.target, downvotes)
    requires |Opportunity(s, e, liveStore.db.votes, live).decisions| > |live.decisions|
    ensures var after := Opportunity(s, e, liveStore.db.votes, live);
            var landed := After(cast, liveStore, live, after);
            Landed(store.db.votes, landed.db.votes, after.decisions) && SamePlace(store.db, landed.db)
  {
    var after := Opportunity(s, e, liveStore.db.votes, live);
    OpportunityStep(s, e, liveStore.db.votes, live);
    var d := after.decisions[|live.decisions|];
    MayCast(s, store.db, liveStore.db, d, downvotes);
    assert KeyOf(d) in liveStore.db.votes ==> d.voter in VotersOn(liveStore.db.votes, e.target);
    OneLands(store.db.votes, live.decisions, liveStore, d, s.now, downvotes);
    AfterOne(cast, liveStore, live, after, d);
    assert cast(liveStore, d) == CastOne(liveStore, d, s.now, downvotes);
  }

  lemma LookLands(s: Setup, e: Exposure, store: Store, liveStore: Store, live: Tick, downvotes: bool, cast: Caster)
    requires Landed(store.db.votes, liveStore.db.votes, live.decisions) && SamePlace(store.db, liveStore.db)
    requires Casts(cast, s.now, downvotes, false)
    requires UsersKnown(s, store.db) && Known(s, store.db, e.target, downvotes)
    ensures var after := Opportunity(s, e, liveStore.db.votes, live);
            var landed := After(cast, liveStore, live, after);
            Landed(store.db.votes, landed.db.votes, after.decisions) && SamePlace(store.db, landed.db)
  {
    var after := Opportunity(s, e, liveStore.db.votes, live);
    OpportunityDecides(s, e, liveStore.db.votes, live);
    if |after.decisions| > |live.decisions| {
      OneMoreLands(s, e, store, liveStore, live, downvotes, cast);
    } else {
      assert Since(live, after) == [];
    }
  }

  /// What a live tail does, told without casting

  /** A look of the live tick in terms of the ledger before it: an item decided on is closed, and those who
      `voted` are out of the race. */
  function Foretold(s: Setup, e: Exposure, votes: map<Key, Ballot>, t: Tick, voted: set<Name>): Tick {
    var w := Winner(s, e, t.guards, voted);
    if Open(s, e, votes, t) && CountOn(t.decisions, e.target) == 0 && Free(e, votes, w)
    then Decided(s, t, e.target, e.ordinal, w.value, e.mode) else t
  }

  function ForetoldTail(s: Setup, es: seq<Exposure>, votes: map<Key, Ballot>, t: Tick, voted: set<Name>): Tick {
    if es == [] then t
    else Foretold(s, es[|es| - 1], votes, ForetoldTail(s, es[..|es| - 1], votes, t, voted), voted)
  }

  lemma LookForetold(s: Setup, e: Exposure, store: Store, voted: set<Name>, liveStore: Store, live: Tick, told: Tick)
    requires Abreast(store, voted, s.now, liveStore, live, told)
    ensures var after, next := Opportunity(s, e, liveStore.db.votes, live), Foretold(s, e, store.db.votes, told, voted);
            && after.decisions == next.decisions && after.used == next.used
            && Shadows(after.guards, next.guards, voted, s.now)
  {
    OpportunityDecides(s, e, liveStore.db.votes, live);
    LandedOn(store.db.votes, liveStore.db.votes, live.decisions, e.target);
    ShadowedWinner(s, e, live.guards, told.guards, voted);
    var w := Winner(s, e, told.guards, voted);
    if w.Some? {
      ClaimedShadows(live.guards, told.guards, voted, s.now, w.value);
    }
    if CountOn(live.decisions, e.target) == 0 {
      SameReads(store.db.votes, liveStore.db.votes, e.target);
    }
  }

  lemma {:induction false} TailForetold(s: Setup, es: seq<Exposure>, store: Store, voted: set<Name>, liveStore: Store,
                                        live: Tick, told: Tick, downvotes: bool, cast: Caster)
    requires Abreast(store, voted, s.now, liveStore, live, told) && Casts(cast, s.now, downvotes, false)
    requires UsersKnown(s, store.db) && forall i :: 0 <= i < |es| ==> Known(s, store.db, es[i].target, downvotes)
    ensures var (after, t) := TailPhase(s, es, liveStore, live, cast);
            Abreast(store, voted, s.now, after, t, ForetoldTail(s, es, store.db.votes, told, voted))
  {
    if es == [] {
    } else {
      var front, e := es[..|es| - 1], es[|es| - 1];
      TailForetold(s, front, store, voted, liveStore, live, told, downvotes, cast);
      var (store1, t1) := TailPhase(s, front, liveStore, live, cast);
      LookForetold(s, e, store, voted, store1, t1, ForetoldTail(s, front, store.db.votes, told, voted));
      LookLands(s, e, store, store1, t1, downvotes, cast);
    }
  }

  /// Whole tails

  /** An item is looked at once from the archive and once as revived at most. */
  ghost predicate DistinctLooks(es: seq<Exposure>) {
    forall i, j :: 0 <= i < j < |es| ==> es[i].target != es[j].target || es[i].mode != es[j].mode
  }

  ghost predicate LookedAt(es: seq<Exposure>, d: Decision) {
    exists i :: 0 <= i < |es| && es[i].target == d.target && es[i].mode == d.mode
  }

  /** What a tail adds are decisions on what it looks at. */
  ghost predicate AddedBy(es: seq<Exposure>, start: Tick, t: Tick) {
    && start.decisions <= t.decisions
    && forall i :: |start.decisions| <= i < |t.decisions| ==> LookedAt(es, t.decisions[i])
  }

  lemma OpportunityAdds(s: Setup, es: seq<Exposure>, e: Exposure, votes: map<Key, Ballot>, start: Tick, t: Tick)
    requires AddedBy(es, start, t)
    ensures AddedBy(es + [e], start, Opportunity(s, e, votes, t))
  {
    OpportunityDecides(s, e, votes, t);
    var after := Opportunity(s, e, votes, t);
    forall i | |start.decisions| <= i < |after.decisions|
      ensures LookedAt(es + [e], after.decisions[i])
    {
      if i < |t.decisions| {
        assert LookedAt(es, t.decisions[i]);
        var k :| 0 <= k < |es| && es[k].target == t.decisions[i].target && es[k].mode == t.decisions[i].mode;
        assert (es + [e])[k] == es[k];
      } else {
        assert (es + [e])[|es|] == e;
      }
    }
  }

  lemma {:induction false} TailAdds(s: Setup, es: seq<Exposure>, store: Store, t: Tick, cast: Caster)
    ensures AddedBy(es, t, TailPhase(s, es, store, t, cast).1)
  {
    if es == [] {
    } else {
      var front, e := es[..|es| - 1], es[|es| - 1];
      TailAdds(s, front, store, t, cast);
      var (store1, t1) := TailPhase(s, front, store, t, cast);
      OpportunityAdds(s, front, e, store1.db.votes, t, t1);
      assert es == front + [e];
    }
  }

  /** Once they differ, later exposures of other looks never make them the same again. */
  lemma StaysDifferent(s: Setup, es: seq<Exposure>, e: Exposure, start: Tick, a: Tick, b: Tick,
                       v: map<Key, Ballot>, w: map<Key, Ballot>)
    requires AddedBy(es, start, a) && AddedBy(es, start, b) && a.decisions != b.decisions
    requires forall i :: 0 <= i < |es| ==> es[i].target != e.target || es[i].mode != e.mode
    ensures Opportunity(s, e, v, a).decisions != Opportunity(s, e, w, b).decisions
  {
    OpportunityDecides(s, e, v, a);
    OpportunityDecides(s, e, w, b);
    OneMoreDiffers(es, e, start, a, b, Opportunity(s, e, v, a).decisions, Opportunity(s, e, w, b).decisions);
    OneMoreDiffers(es, e, start, b, a, Opportunity(s, e, w, b).decisions, Opportunity(s, e, v, a).decisions);
  }

  /** A list that is one decision short does not become the other by a decision at `e`. */
  lemma OneMoreDiffers(es: seq<Exposure>, e: Exposure, start: Tick, a: Tick, b: Tick, x: seq<Decision>,
                       y: seq<Decision>)
    requires AddedBy(es, start, a) && AddedBy(es, start, b) && a.decisions != b.decisions
    requires forall i :: 0 <= i < |es| ==> es[i].target != e.target || es[i].mode != e.mode
    requires a.decisions <= x && |x| <= |a.decisions| + 1 && b.decisions <= y && |y| <= |b.decisions| + 1
    requires |x| > |a.decisions| ==> x[|a.decisions|].target == e.target && x[|a.decisions|].mode == e.mode
    ensures |a.decisions| <= |b.decisions| ==> x != y
  {
    var n := |a.decisions|;
    if n < |b.decisions| {
      assert LookedAt(es, b.decisions[n]) && y[n] == b.decisions[n];
      assert n < |x| ==> x[n] != y[n];
    } else if n == |b.decisions| {
      assert x[..n] == a.decisions && y[..n] == b.decisions;
    }
  }

  /** A whole tail: from the same decisions, live and dry run end with the same decisions exactly if the dry
      run never departs. */
  lemma {:induction false} TailsAgree(s: Setup, es: seq<Exposure>, store: Store, voted: set<Name>, liveStore: Store,
                                      live: Tick, dry: Tick, downvotes: bool, cast: Caster)
    requires Abreast(store, voted, s.now, liveStore, live, dry) && Casts(cast, s.now, downvotes, false)
    requires UsersKnown(s, store.db) && forall i :: 0 <= i < |es| ==> Known(s, store.db, es[i].target, downvotes)
    requires DistinctLooks(es)
    ensures var (after, t) := TailPhase(s, es, liveStore, live, cast);
            var d := DryTail(s, es, store.db.votes, dry);
            && (NeverDeparts(s, es, store.db.votes, dry, voted) ==> Abreast(store, voted, s.now, after, t, d))
            && (NeverDeparts(s, es, store.db.votes, dry, voted) <==> t.decisions == d.decisions)
  {
    if es == [] {
    } else {
      var front, e := es[..|es| - 1], es[|es| - 1];
      assert es == front + [e];
      TailsAgree(s, front, store, voted, liveStore, live, dry, downvotes, cast);
      var (store1, t1) := TailPhase(s, front, liveStore, live, cast);
      var d1 := DryTail(s, front, store.db.votes, dry);
      if NeverDeparts(s, front, store.db.votes, dry, voted) {
        NextDecision(s, e, store, voted, store1, t1, d1);
        if !Departs(s, e, store.db.votes, d1, voted) {
          StaysAbreast(s, e, store, voted, store1, t1, d1, downvotes, cast);
        }
      } else {
        TailAdds(s, front, liveStore, live, cast);
        DryTailAdds(s, front, store.db.votes, dry);
        StaysDifferent(s, front, e, live, t1, d1, store1.db.votes, store.db.votes);
      }
    }
  }

  lemma {:induction false} DryTailAdds(s: Setup, es: seq<Exposure>, votes: map<Key, Ballot>, t: Tick)
    ensures AddedBy(es, t, DryTail(s, es, votes, t))
  {
    if es == [] {
    } else {
      var front, e := es[..|es| - 1], es[|es| - 1];
      DryTailAdds(s, front, votes, t);
      OpportunityAdds(s, front, e, votes, t, DryTail(s, front, votes, t));
      assert es == front + [e];
    }
  }

  /// Whole ticks

  lemma {:induction false} ActiveCasts(s: Setup, cs: seq<Candidate>, store: Store, t: Tick, cast: Caster)
    ensures var (after, r) := ActivePhase(s, cs, store, t, cast);
            Grows(t, r) && after == After(cast, store, t, r)
  {
    if cs == [] {
      assert Since(t, t) == [];
    } else {
      var front, c := cs[..|cs| - 1], cs[|cs| - 1];
      ActiveCasts(s, front, store, t, cast);
      var (store1, t1) := ActivePhase(s, front, store, t, cast);
      var ds := VisitAdds(s, c, store1.db.votes, t1);
      AfterChain(cast, store, t, t1, Visit(s, c, store1.db.votes, t1));
    }
  }

  lemma ActiveTargetsKnown(s: Setup, cs: seq<Candidate>, store: Store, t: Tick, cast: Caster, downvotes: bool,
                           d: Decision)
    requires DistinctTargets(cs) && t.decisions == [] && d in ActivePhase(s, cs, store, t, cast).1.decisions
    requires forall i :: 0 <= i < |cs| ==> Known(s, store.db, cs[i].target, downvotes)
    ensures Known(s, store.db, d.target, downvotes)
  {
    ActivePerItem(s, cs, store, t, cast, d.target);
    CountedOn(ActivePhase(s, cs, store, t, cast).1.decisions, d.target);
    assert !NotAmong(cs, d.target);
  }

  /** After a live active phase every decision has its vote, and the guards read again know of it. */
  lemma ActiveLands(s: Setup, cs: seq<Candidate>, store: Store, downvotes: bool, live: Caster)
    requires Casts(live, s.now, downvotes, false) && DistinctTargets(cs) && UsersKnown(s, store.db)
    requires forall i :: 0 <= i < |cs| ==> Known(s, store.db, cs[i].target, downvotes)
    ensures var (after, t) := ActivePhase(s, cs, store, Start(store.recent), live);
            && Landed(store.db.votes, after.db.votes, t.decisions) && SamePlace(store.db, after.db)
            && Shadows(after.recent, store.recent, VotersOf(t.decisions), s.now)
  {
    var start := Start(store.recent);
    var (after, t) := ActivePhase(s, cs, store, start, live);
    ActiveCasts(s, cs, store, start, live);
    ActiveRailed(s, cs, store, start, live, downvotes, false);
    PersonasVoteOnce(s, cs, store, live);
    forall i | 0 <= i < |t.decisions|
      ensures Known(s, store.db, t.decisions[i].target, downvotes)
    {
      ActiveTargetsKnown(s, cs, store, start, live, downvotes, t.decisions[i]);
    }
    assert Since(start, t) == t.decisions;
    AllLand(s, store, t.decisions, downvotes, live);
  }

  /** What a dry run's active phase comes to. */
  function DryActive(s: Setup, cs: seq<Candidate>, store: Store, downvotes: bool): Tick {
    ActivePhase(s, cs, store, Start(store.recent), Casting(s.now, downvotes, true)).1
  }

  /** No exposure of the dry run's tail departs from the live tick. */
  predicate Stands(s: Setup, cs: seq<Candidate>, es: seq<Exposure>, store: Store, downvotes: bool) {
    var t := DryActive(s, cs, store, downvotes);
    NeverDeparts(s, es, store.db.votes, t.(guards := store.recent), VotersOf(t.decisions))
  }

  /** The casts of the active phase do not change what the tail samples. */
  predicate SampleStays(s: Setup, cs: seq<Candidate>, sampler: Sampler, store: Store, downvotes: bool) {
    var after := ActivePhase(s, cs, store, Start(store.recent), Casting(s.now, downvotes, false)).0;
    Exposures(s, sampler(after.db)) == Exposures(s, sampler(store.db))
  }

  /** On the same sample, a dry run returns the decisions of the live tick if and only if none of the
      exposures it goes through departs, which its own votes, guards and decisions tell. */
  lemma DryRunAgrees(s: Setup, cs: seq<Candidate>, sampler: Sampler, store: Store, downvotes: bool)
    requires var es := Exposures(s, sampler(store.db)); Sound(s, store.db, cs, es, downvotes) && DistinctLooks(es)
    requires DistinctTargets(cs) && SampleStays(s, cs, sampler, store, downvotes)
    ensures RunTick(s, cs, sampler, store, Casting(s.now, downvotes, false)).1.decisions
            == RunTick(s, cs, sampler, store, Casting(s.now, downvotes, true)).1.decisions
            <==> Stands(s, cs, Exposures(s, sampler(store.db)), store, downvotes)
  {
    var live, dry := Casting(s.now, downvotes, false), Casting(s.now, downvotes, true);
    var es := Exposures(s, sampler(store.db));
    CastingCasts(s.now, downvotes, false);
    CastingCasts(s.now, downvotes, true);
    DryRunIsFaithful(s, cs, store, downvotes);
    ActiveLands(s, cs, store, downvotes, live);
    var (after, t) := ActivePhase(s, cs, store, Start(store.recent), live);
    var liveStart, dryStart := t.(guards := after.recent), t.(guards := store.recent);
    DryTailIsTail(s, es, store, dryStart, downvotes, dry);
    TailsAgree(s, es, store, VotersOf(t.decisions), after, liveStart, dryStart, downvotes, live);
  }

  /** Whatever it samples, a live tick decides what is foretold of its sample from the ledger before it; so a
      dry run on whatever sample returns its decisions exactly if its own tail comes to the foretold ones. */
  lemma LiveForetold(s: Setup, cs: seq<Candidate>, sampler: Sampler, store: Store, downvotes: bool)
    requires DistinctTargets(cs)
    requires var after := ActivePhase(s, cs, store, Start(store.recent), Casting(s.now, downvotes, false)).0;
             Sound(s, store.db, cs, Exposures(s, sampler(after.db)), downvotes)
    ensures var after := ActivePhase(s, cs, store, Start(store.recent), Casting(s.now, downvotes, false)).0;
            var t := DryActive(s, cs, store, downvotes);
            var start, voted := t.(guards := store.recent), VotersOf(t.decisions);
            var told := ForetoldTail(s, Exposures(s, sampler(after.db)), store.db.votes, start, voted).decisions;
            && RunTick(s, cs, sampler, store, Casting(s.now, downvotes, false)).1.decisions == told
            && RunTick(s, cs, sampler, store, Casting(s.now, downvotes, true)).1.decisions
               == DryTail(s, Exposures(s, sampler(store.db)), store.db.votes, start).decisions
  {
    var live, dry := Casting(s.now, downvotes, false), Casting(s.now, downvotes, true);
    CastingCasts(s.now, downvotes, false);
    CastingCasts(s.now, downvotes, true);
    DryRunIsFaithful(s, cs, store, downvotes);
    ActiveLands(s, cs, store, downvotes, live);
    var (after, t) := ActivePhase(s, cs, store, Start(store.recent), live);
    var start := t.(guards := store.recent);
    DryTailIsTail(s, Exposures(s, sampler(store.db)), store, start, downvotes, dry);
    TailForetold(s, Exposures(s, sampler(after.db)), store, VotersOf(t.decisions), after, t.(guards := after.recent),
                 start, downvotes, live);
  }

  lemma CountedMore(s: Setup, e: Exposure, votes: map<Key, Ballot>, t: Tick)
    ensures var after := Opportunity(s, e, votes, t);
            forall x :: CountOn(after.decisions, x)
                        == CountOn(t.decisions, x) + if x == e.target && after.decisions != t.decisions then 1 else 0
  {
    OpportunityDecides(s, e, votes, t);
    var after := Opportunity(s, e, votes, t);
    if after.decisions != t.decisions {
      assert after.decisions[..|after.decisions| - 1] == t.decisions;
    }
  }

  ghost predicate NoneTwice(ds: seq<Decision>) {
    forall x :: CountOn(ds, x) <= 1
  }

  lemma OnlyRepeatsDepart(s: Setup, e: Exposure, votes: map<Key, Ballot>, t: Tick)
    ensures Departs(s, e, votes, t, {})
            <==> CountOn(t.decisions, e.target) > 0 && Opportunity(s, e, votes, t).decisions != t.decisions
  {
    OpportunityDecides(s, e, votes, t);
    assert forall d :: |t.decisions + [d]| == |t.decisions| + 1;
  }

  lemma OnceMore(s: Setup, e: Exposure, votes: map<Key, Ballot>, t: Tick)
    ensures NoneTwice(Opportunity(s, e, votes, t).decisions) <==> NoneTwice(t.decisions) && !Departs(s, e, votes, t, {})
  {
    var after, before := Opportunity(s, e, votes, t).decisions, t.decisions;
    CountedMore(s, e, votes, t);
    OnlyRepeatsDepart(s, e, votes, t);
    if NoneTwice(after) {
      assert CountOn(after, e.target) <= 1;
      assert forall x :: CountOn(before, x) <= CountOn(after, x) <= 1;
    }
  }

  /** Without active decisions only repeats can depart: the dry run stands exactly if its tail decides on no
      item twice. */
  lemma {:induction false} StandsIffOnce(s: Setup, es: seq<Exposure>, votes: map<Key, Ballot>, t: Tick)
    requires t.decisions == []
    ensures NeverDeparts(s, es, votes, t, {}) <==> NoneTwice(DryTail(s, es, votes, t).decisions)
  {
    if es == [] {
    } else {
      StandsIffOnce(s, es[..|es| - 1], votes, t);
      OnceMore(s, es[|es| - 1], votes, DryTail(s, es[..|es| - 1], votes, t));
    }
  }

  lemma {:induction false} TailElsewhere(s: Setup, es: seq<Exposure>, store: Store, t: Tick, downvotes: bool, dry: bool,
                                         cast: Caster, x: Target)
    requires Casts(cast, s.now, downvotes, dry) && forall i :: 0 <= i < |es| ==> es[i].target != x
    ensures SameOn(store.db.votes, TailPhase(s, es, store, t, cast).0.db.votes, x)
  {
    if es == [] {
    } else {
      var front, e := es[..|es| - 1], es[|es| - 1];
      TailElsewhere(s, front, store, t, downvotes, dry, cast, x);
      var (store1, t1) := TailPhase(s, front, store, t, cast);
      var ds := Since(t1, Opportunity(s, e, store1.db.votes, t1));
      OpportunityStep(s, e, store1.db.votes, t1);
      assert AllOn(ds, e.target);
      CastsElsewhere(cast, s, downvotes, dry, store1, ds, e.target, x);
      SameChain(store.db.votes, store1.db.votes, CastAll(cast, store1, ds).db.votes, x);
    }
  }

  /** From the same guards, and over distinct items whose votes agree in both ledgers, the two tails agree
      altogether, skips included, although one of them casts. */
  lemma {:induction false} DistinctItemsAgree(s: Setup, es: seq<Exposure>, liveStore: Store, dryStore: Store, t: Tick,
                                              downvotes: bool, live: Caster, dry: Caster)
    requires Casts(live, s.now, downvotes, false) && Casts(dry, s.now, downvotes, true)
    requires forall i, j :: 0 <= i < j < |es| ==> es[i].target != es[j].target
    requires forall i :: 0 <= i < |es| ==> SameOn(dryStore.db.votes, liveStore.db.votes, es[i].target)
    ensures TailPhase(s, es, liveStore, t, live).1 == TailPhase(s, es, dryStore, t, dry).1
  {
    if es == [] {
    } else {
      var front, e := es[..|es| - 1], es[|es| - 1];
      DistinctItemsAgree(s, front, liveStore, dryStore, t, downvotes, live, dry);
      TailElsewhere(s, front, liveStore, t, downvotes, false, live, e.target);
      DryTailIsTail(s, front, dryStore, t, downvotes, dry);
      var (store1, t1) := TailPhase(s, front, liveStore, t, live);
      SameChain(dryStore.db.votes, liveStore.db.votes, store1.db.votes, e.target);
      SameReads(dryStore.db.votes, store1.db.votes, e.target);
    }
  }

  /// Each persona once per live tick

  /** Nobody was decided on twice, and the guards know that all of them voted just now. */
  ghost predicate JustVoted(t: Tick, now: int) {
    && DistinctVoters(t.decisions)
    && forall i :: 0 <= i < |t.decisions| ==>
                     t.decisions[i].voter in t.guards.latest && t.guards.latest[t.decisions[i].voter] == now
  }

  lemma LookKeepsVotersApart(s: Setup, e: Exposure, votes: map<Key, Ballot>, t: Tick)
    requires JustVoted(t, s.now)
    ensures JustVoted(Opportunity(s, e, votes, t), s.now)
  {
    OpportunityDecides(s, e, votes, t);
    var w := Winner(s, e, t.guards, {});
    if w.Some? {
      ChosenIsBest(ContestFor(s, e.mode, e.target, e.ordinal, {}), t.guards, s.users, w.value);
      assert forall i :: 0 <= i < |t.decisions| ==> t.decisions[i].voter != w.value;
    }
  }

  lemma {:induction false} TailKeepsVotersApart(s: Setup, es: seq<Exposure>, store: Store, t: Tick, cast: Caster)
    requires JustVoted(t, s.now)
    ensures JustVoted(TailPhase(s, es, store, t, cast).1, s.now)
  {
    if es == [] {
    } else {
      TailKeepsVotersApart(s, es[..|es| - 1], store, t, cast);
      var (store1, t1) := TailPhase(s, es[..|es| - 1], store, t, cast);
      LookKeepsVotersApart(s, es[|es| - 1], store1.db.votes, t1);
    }
  }

  /** A live tick lets no persona vote twice, over both phases and all items; a dry run may, see
      `DryRunDepartures.RereadGuardsDiffer`. */
  lemma LiveVotersOnce(s: Setup, cs: seq<Candidate>, sampler: Sampler, store: Store, downvotes: bool)
    requires DistinctTargets(cs) && Sound(s, store.db, cs, [], downvotes)
    ensures DistinctVoters(RunTick(s, cs, sampler, store, Casting(s.now, downvotes, false)).1.decisions)
  {
    var live := Casting(s.now, downvotes, false);
    CastingCasts(s.now, downvotes, false);
    ActiveLands(s, cs, store, downvotes, live);
    PersonasVoteOnce(s, cs, store, live);
    var (after, t) := ActivePhase(s, cs, store, Start(store.recent), live);
    assert forall i :: 0 <= i < |t.decisions| ==>
             t.decisions[i] in t.decisions && t.decisions[i].voter in VotersOf(t.decisions);
    TailKeepsVotersApart(s, Exposures(s, sampler(after.db)), after, t.(guards := after.recent), live);
  }

  /// What a tail samples

  function HomeOf(x: Target, home: nat -> nat): nat {
    match x
    case OnPost(id) => id
    case OnComment(id) => home(id)
  }

  predicate Distinct<T(==)>(xs: seq<T>) {
    forall i, j :: 0 <= i < j < |xs| ==> xs[i] != xs[j]
  }

  /** Rows of a query are distinct, and a thread's comments belong to its post. */
  predicate ThreadSampled(th: Thread, home: nat -> nat) {
    && Distinct(th.visible) && (forall i :: 0 <= i < |th.visible| ==> home(th.visible[i]) == th.post)
    && (th.parent.Some? ==> home(th.parent.value) == th.post)
  }

  predicate WellSampled(sample: TailSample, home: nat -> nat) {
    Distinct(sample.archive) && forall i :: 0 <= i < |sample.threads| ==> ThreadSampled(sample.threads[i], home)
  }

  lemma {:induction false} OthersAreOther(ids: seq<nat>, known: set<nat>)
    requires Distinct(ids)
    ensures Distinct(Others(ids, known))
    ensures forall i :: 0 <= i < |Others(ids, known)| ==>
              var x := Others(ids, known)[i]; x.OnComment? && x.id in ids && x.id !in known
  {
    if ids == [] {
    } else {
      OthersAreOther(ids[..|ids| - 1], known);
    }
  }

  lemma ThreadTargetsDistinct(th: Thread, home: nat -> nat)
    requires ThreadSampled(th, home)
    ensures Distinct(ThreadTargets(th))
    ensures forall i :: 0 <= i < |ThreadTargets(th)| ==> HomeOf(ThreadTargets(th)[i], home) == th.post
  {
    OthersAreOther(th.visible, if th.parent.Some? then {th.post, th.parent.value} else {th.post});
  }

  /** Looks at revived threads of other posts stay distinct from those of one more. */
  ghost predicate RevivedIn(es: seq<Exposure>, posts: set<nat>, home: nat -> nat) {
    DistinctLooks(es) && forall i :: 0 <= i < |es| ==> es[i].mode == Revival && HomeOf(es[i].target, home) in posts
  }

  lemma OneMoreThread(s: Setup, es: seq<Exposure>, th: Thread, posts: set<nat>, home: nat -> nat)
    requires RevivedIn(es, posts, home) && ThreadSampled(th, home) && th.post !in posts
    ensures RevivedIn(es + Exposed(s, FromThread(th.trigger), ThreadTargets(th)), posts + {th.post}, home)
  {
    ThreadTargetsDistinct(th, home);
  }

  lemma {:induction false} RevivalsDistinct(s: Setup, threads: seq<Thread>, home: nat -> nat)
    requires forall i :: 0 <= i < |threads| ==> ThreadSampled(threads[i], home)
    ensures RevivedIn(Revivals(s, threads), PostsSeen(threads), home)
  {
    if threads == [] {
    } else {
      var front, th := threads[..|threads| - 1], threads[|threads| - 1];
      RevivalsDistinct(s, front, home);
      assert ThreadSampled(th, home);
      RevivalsSnoc(s, threads, |front|, []);
      assert threads[..|threads|] == threads;
      if th.post !in PostsSeen(front) {
        OneMoreThread(s, Revivals(s, front), th, PostsSeen(front), home);
      }
    }
  }

  /** So an item is looked at at most once from the archive and once as revived. */
  lemma LooksAreDistinct(s: Setup, sample: TailSample, home: nat -> nat)
    requires WellSampled(sample, home)
    ensures DistinctLooks(Exposures(s, sample))
  {
    RevivalsDistinct(s, sample.threads, home);
  }
}
