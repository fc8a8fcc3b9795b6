/** What a tick promises: its guardrails, that committing votes between decisions does not change the
    active phase, and that no item ever collects more simulated votes than its budget allows. */
module SchedulerSafety {
  import opened Wrappers
  import opened Names
  import opened VoteLedger
  import opened VoterSelection
  import opened Scheduler
  import Cadence
  import LedgerCascade
  import Elements

  /// What one cast does to the votes

  /** Rows stay; at most the decision's own row is added, as a simulated vote. */
  ghost predicate AddsAtMost(before: map<Key, Ballot>, after: map<Key, Ballot>, d: Decision) {
    && (forall k :: k in before ==> k in after && after[k] == before[k])
    && (forall k :: k in after && k !in before ==> k == Key(Voter(d.voter), d.target) && after[k].source == Simulated)
  }

  lemma CastAdds(cast: Caster, s: Setup, downvotes: bool, dry: bool, store: Store, d: Decision)
    requires Casts(cast, s.now, downvotes, dry)
    ensures AddsAtMost(store.db.votes, cast(store, d).db.votes, d)
    ensures dry ==> cast(store, d) == store
  {
    var voted := CastOne(store, d, s.now, downvotes);
    assert cast(store, d) == if dry then store else voted;
  }

  /** A vote that is refused, or that meets a claimed pair, leaves no row and counts for nobody. */
  lemma NothingLands(store: Store, d: Decision, now: int, downvotes: bool)
    requires Refusal(store.db, RequestFor(d), downvotes).Some? || Key(Voter(d.voter), d.target) in store.db.votes
    requires d.value != 0
    ensures CastOne(store, d, now, downvotes).recent == store.recent
    ensures CastOne(store, d, now, downvotes).db.votes == store.db.votes
  {
  }

  /** Seen from item `x`, the two vote tables are the same. */
  ghost predicate SameOn(v: map<Key, Ballot>, w: map<Key, Ballot>, x: Target) {
    forall k: Key :: k.target == x ==> (k in v <==> k in w) && (k in v ==> v[k] == w[k])
  }

  lemma SameReads(v: map<Key, Ballot>, w: map<Key, Ballot>, x: Target)
    requires SameOn(v, w, x)
    ensures SimulatedOn(v, x) == SimulatedOn(w, x) && VotersOn(v, x) == VotersOn(w, x)
  {
    forall name
      ensures name in VotersOn(v, x) <==> name in VotersOn(w, x)
    {
      if name in VotersOn(v, x) {
        var k :| k in v && k.target == x && k.who.Voter? && k.who.name == name;
        assert k in w;
      }
      if name in VotersOn(w, x) {
        var k :| k in w && k.target == x && k.who.Voter? && k.who.name == name;
        assert k in v;
      }
    }
  }

  ghost predicate AllOn(ds: seq<Decision>, x: Target) {
    forall i :: 0 <= i < |ds| ==> ds[i].target == x
  }

  /** Votes on one item are not seen from another. */
  lemma {:induction false} CastsElsewhere(cast: Caster, s: Setup, downvotes: bool, dry: bool, store: Store,
                                          ds: seq<Decision>, here: Target, x: Target)
    requires Casts(cast, s.now, downvotes, dry) && AllOn(ds, here) && x != here
    ensures SameOn(store.db.votes, CastAll(cast, store, ds).db.votes, x)
  {
    if ds == [] {
    } else {
      var front, last := ds[..|ds| - 1], ds[|ds| - 1];
      CastsElsewhere(cast, s, downvotes, dry, store, front, here, x);
      CastAdds(cast, s, downvotes, dry, CastAll(cast, store, front), last);
    }
  }

  /// What one attempt does to the tick

  /** A decision a tick may make on `x`, whose voters up to then are `claimed`. */
  ghost predicate Apt(s: Setup, x: Target, claimed: set<Name>, d: Decision) {
    d.target == x && d.voter in s.users && d.voter !in claimed && d.voter != s.author(x)
    && d.value == RulesOf(s, d.mode).direction(x, d.voter)
  }

  lemma AttemptStep(s: Setup, x: Target, ordinal: nat, existing: set<Name>, selected: set<Name>, t: Tick)
    ensures var after := Attempt(s, x, ordinal, existing, selected, t);
            || (after.decisions == t.decisions && after.used == t.used && after.guards == t.guards)
            || (&& t.used < s.global && |selected| < s.perItem
                && |after.decisions| == |t.decisions| + 1
                && var d := after.decisions[|t.decisions|];
                && after == Decided(s, t, x, ordinal, d.voter, Active).(skips := after.skips)
                && Apt(s, x, existing + selected, d)
                && Admitted(s, x, t.guards, d.voter))
  {
    var c := ContestFor(s, Active, x, ordinal, existing + selected);
    if Choose(c, t.guards, s.users).Some? {
      ChosenIsBest(c, t.guards, s.users, Choose(c, t.guards, s.users).value);
    }
  }

  /** By the rules of item `x` the persona is under its hourly cap and past its minimum gap. */
  ghost predicate Admitted(s: Setup, x: Target, g: Guards, name: Name) {
    && name in s.users && HourlyCount(g, name) < s.active.cap(x, name)
    && (name in g.latest ==> g.latest[name] < s.now - s.active.gap(x))
  }

  /** The decisions an item's visit adds. */
  ghost predicate Adds(s: Setup, x: Target, existing: set<Name>, t: Tick, r: Tick, ds: seq<Decision>, room: int,
                       places: int) {
    && r.decisions == t.decisions + ds && r.used == t.used + |ds|
    && |ds| <= (if room > 0 then room else 0) && |ds| <= (if places > 0 then places else 0)
    && (t.used <= s.global ==> r.used <= s.global)
    && (forall i :: 0 <= i < |ds| ==> Apt(s, x, existing, ds[i]))
  }

  lemma {:induction false} OrdinalsAdd(try: Trier, s: Setup, x: Target, existing: set<Name>, from: nat, due: nat,
                                       selected: set<Name>, t: Tick) returns (ds: seq<Decision>)
    requires Tries(try, s, x, existing)
    ensures Adds(s, x, existing, t, Ordinals(try, from, due, selected, t), ds, due + 1 - from, s.perItem - |selected|)
    decreases due + 1 - from
  {
    ds := [];
    if from > due {
    } else {
      var after := try(from, selected, t);
      assert after == Attempt(s, x, from, existing, selected, t);
      AttemptStep(s, x, from, existing, selected, t);
      var more := SelectedBy(t, after, selected);
      var rest := OrdinalsAdd(try, s, x, existing, from + 1, due, more, after);
      if |after.decisions| == |t.decisions| {
        ds := rest;
      } else {
        ds := [after.decisions[|t.decisions|]] + rest;
        assert after.decisions == t.decisions + [after.decisions[|t.decisions|]];
      }
    }
  }

  lemma VisitAdds(s: Setup, c: Candidate, votes: map<Key, Ballot>, t: Tick) returns (ds: seq<Decision>)
    ensures Adds(s, c.target, VotersOn(votes, c.target), t, Visit(s, c, votes, t), ds,
                 DueNow(s, c) - |SimulatedOn(votes, c.target)|, s.perItem)
    ensures Since(t, Visit(s, c, votes, t)) == ds && AllOn(ds, c.target)
  {
    var existing := VotersOn(votes, c.target);
    TryingTries(s, c.target, existing);
    ds := OrdinalsAdd(Trying(s, c.target, existing), s, c.target, existing, |SimulatedOn(votes, c.target)| + 1,
                      DueNow(s, c), {}, t);
  }

  /// Noninterference

  ghost predicate DistinctTargets(cs: seq<Candidate>) {
    forall i, j :: 0 <= i < j < |cs| ==> cs[i].target != cs[j].target
  }

  lemma VisitReadsItsItem(s: Setup, c: Candidate, v: map<Key, Ballot>, w: map<Key, Ballot>, t: Tick)
    requires SameOn(v, w, c.target)
    ensures Visit(s, c, v, t) == Visit(s, c, w, t)
  {
    SameReads(v, w, c.target);
  }

  lemma {:induction false} DryStoreStays(cast: Caster, s: Setup, downvotes: bool, store: Store, ds: seq<Decision>)
    requires Casts(cast, s.now, downvotes, true)
    ensures CastAll(cast, store, ds) == store
  {
    if ds == [] {
    } else {
      DryStoreStays(cast, s, downvotes, store, ds[..|ds| - 1]);
      CastAdds(cast, s, downvotes, true, store, ds[|ds| - 1]);
    }
  }

  ghost predicate NotAmong(cs: seq<Candidate>, x: Target) {
    forall i :: 0 <= i < |cs| ==> cs[i].target != x
  }

  lemma SameChain(u: map<Key, Ballot>, v: map<Key, Ballot>, w: map<Key, Ballot>, x: Target)
    requires SameOn(u, v, x) && SameOn(v, w, x)
    ensures SameOn(u, w, x)
  {
  }

  /** While the phase commits, the items it has not come to look as they did. */
  lemma {:induction false} ActiveElsewhere(s: Setup, cs: seq<Candidate>, store: Store, t: Tick, downvotes: bool,
                                           dry: bool, cast: Caster, x: Target)
    requires Casts(cast, s.now, downvotes, dry) && NotAmong(cs, x)
    ensures SameOn(store.db.votes, ActivePhase(s, cs, store, t, cast).0.db.votes, x)
  {
    if cs == [] {
    } else {
      var front, c := cs[..|cs| - 1], cs[|cs| - 1];
      ActiveElsewhere(s, front, store, t, downvotes, dry, cast, x);
      var (store1, t1) := ActivePhase(s, front, store, t, cast);
      var ds := VisitAdds(s, c, store1.db.votes, t1);
      CastsElsewhere(cast, s, downvotes, dry, store1, ds, c.target, x);
      SameChain(store.db.votes, store1.db.votes, CastAll(cast, store1, ds).db.votes, x);
    }
  }

  lemma {:induction false} PhasesAgree(s: Setup, cs: seq<Candidate>, store: Store, t: Tick, downvotes: bool,
                                       live: Caster, dry: Caster)
    requires DistinctTargets(cs) && Casts(live, s.now, downvotes, false) && Casts(dry, s.now, downvotes, true)
    ensures ActivePhase(s, cs, store, t, live).1 == ActivePhase(s, cs, store, t, dry).1
    ensures ActivePhase(s, cs, store, t, dry).0 == store
  {
    if cs == [] {
    } else {
      var front, c := cs[..|cs| - 1], cs[|cs| - 1];
      PhasesAgree(s, front, store, t, downvotes, live, dry);
      var (liveStore, t1) := ActivePhase(s, front, store, t, live);
      assert NotAmong(front, c.target);
      ActiveElsewhere(s, front, store, t, downvotes, false, live, c.target);
      VisitReadsItsItem(s, c, store.db.votes, liveStore.db.votes, t1);
      DryStoreStays(dry, s, downvotes, store, Since(t1, Visit(s, c, store.db.votes, t1)));
    }
  }

  /** A dry run makes the very decisions, skips included, that a live tick makes in its active phase, and
      changes nothing. */
  lemma DryRunIsFaithful(s: Setup, cs: seq<Candidate>, store: Store, downvotes: bool)
    requires DistinctTargets(cs)
    ensures ActivePhase(s, cs, store, Start(store.recent), Casting(s.now, downvotes, false)).1
            == ActivePhase(s, cs, store, Start(store.recent), Casting(s.now, downvotes, true)).1
    ensures ActivePhase(s, cs, store, Start(store.recent), Casting(s.now, downvotes, true)).0 == store
  {
    CastingCasts(s.now, downvotes, false);
    CastingCasts(s.now, downvotes, true);
    PhasesAgree(s, cs, store, Start(store.recent), downvotes, Casting(s.now, downvotes, false),
                Casting(s.now, downvotes, true));
  }

  /// Budgets

  /** For a validated section the plan is followed to the letter: what is due at an age never falls, is at most
      the sample and at most the maximum, and once the window has passed is the smaller of the two; a plan
      without votes never has any due. */
  lemma DueWithinMaximum(p: Plan, young: real, aged: real, exp2: Cadence.Real2Real, log2: Cadence.Real2Real)
    requires Cadence.Validated(p.section) && Cadence.InversePair(exp2, log2) && young <= aged
    ensures Cadence.Left(p.section, exp2, p.section.window) != 1.0
    ensures Due(p, young, exp2) == Cadence.DueCount(Budget(p), young, p.section, exp2)
    ensures Due(p, young, exp2) <= Due(p, aged, exp2)
    ensures p.mean > 0.0 && p.maximum > 0 ==> Due(p, aged, exp2) <= p.sampled && Due(p, aged, exp2) <= p.maximum
    ensures p.mean > 0.0 && p.maximum > 0 && aged >= p.section.window ==>
              Due(p, aged, exp2) == if p.sampled < p.maximum then p.sampled else p.maximum
    ensures p.mean <= 0.0 || p.maximum <= 0 ==> Due(p, aged, exp2) == 0
  {
    Cadence.WindowElapses(p.section, exp2, log2);
    Cadence.DueMonotone(Budget(p), young, aged, p.section, exp2, log2);
  }

  function Simulations(store: Store, x: Target): nat {
    |SimulatedOn(store.db.votes, x)|
  }

  lemma CastSimulations(cast: Caster, s: Setup, downvotes: bool, dry: bool, store: Store, d: Decision, x: Target)
    requires Casts(cast, s.now, downvotes, dry)
    ensures Simulations(cast(store, d), x) <= Simulations(store, x) + if d.target == x then 1 else 0
  {
    CastAdds(cast, s, downvotes, dry, store, d);
    var before, after := SimulatedOn(store.db.votes, x), SimulatedOn(cast(store, d).db.votes, x);
    if d.target == x {
      AtMostOneMore(before, after, Key(Voter(d.voter), x));
    } else {
      assert after == before;
    }
  }

  lemma AtMostOneMore(a: set<Key>, b: set<Key>, k: Key)
    requires b <= a + {k}
    ensures |b| <= |a| + 1
  {
    Elements.SubsetCount(b, a + {k});
  }

  lemma {:induction false} CastAllSimulations(cast: Caster, s: Setup, downvotes: bool, dry: bool, store: Store,
                                              ds: seq<Decision>, x: Target)
    requires Casts(cast, s.now, downvotes, dry)
    ensures Simulations(CastAll(cast, store, ds), x) <= Simulations(store, x) + CountOn(ds, x)
  {
    if ds == [] {
    } else {
      CastAllSimulations(cast, s, downvotes, dry, store, ds[..|ds| - 1], x);
      CastSimulations(cast, s, downvotes, dry, CastAll(cast, store, ds[..|ds| - 1]), ds[|ds| - 1], x);
    }
  }

  lemma {:induction false} CountOfAll(ds: seq<Decision>, here: Target, x: Target)
    requires AllOn(ds, here)
    ensures CountOn(ds, x) == if x == here then |ds| else 0
  {
    if ds == [] {
    } else {
      CountOfAll(ds[..|ds| - 1], here, x);
    }
  }

  /** The item holds no more simulated votes than its budget, or one where the tail reached it. */
  predicate FitsBudget(store: Store, plan: Plans, x: Target) {
    Simulations(store, x) <= if Budget(plan(x)) > 1 then Budget(plan(x)) else 1
  }

  lemma VisitFits(s: Setup, c: Candidate, store: Store, t: Tick, cast: Caster, downvotes: bool, dry: bool,
                  x: Target)
    requires Casts(cast, s.now, downvotes, dry) && FitsBudget(store, s.plan, x)
    ensures FitsBudget(After(cast, store, t, Visit(s, c, store.db.votes, t)), s.plan, x)
  {
    var ds := VisitAdds(s, c, store.db.votes, t);
    CastAllSimulations(cast, s, downvotes, dry, store, ds, x);
    CountOfAll(ds, c.target, x);
  }

  lemma {:induction false} ActiveFits(s: Setup, cs: seq<Candidate>, store: Store, t: Tick, cast: Caster,
                                      downvotes: bool, dry: bool, x: Target)
    requires Casts(cast, s.now, downvotes, dry) && FitsBudget(store, s.plan, x)
    ensures FitsBudget(ActivePhase(s, cs, store, t, cast).0, s.plan, x)
  {
    if cs == [] {
    } else {
      var front := cs[..|cs| - 1];
      ActiveFits(s, front, store, t, cast, downvotes, dry, x);
      var (store1, t1) := ActivePhase(s, front, store, t, cast);
      VisitFits(s, cs[|cs| - 1], store1, t1, cast, downvotes, dry, x);
    }
  }

  lemma OpportunityStep(s: Setup, e: Exposure, votes: map<Key, Ballot>, t: Tick)
    ensures var after := Opportunity(s, e, votes, t);
            || (after.decisions == t.decisions && after.used == t.used && after.guards == t.guards)
            || (&& t.used < s.global && CountOn(t.decisions, e.target) < s.perItem && SimulatedOn(votes, e.target) == {}
                && |after.decisions| == |t.decisions| + 1
                && var d := after.decisions[|t.decisions|];
                && after.decisions == t.decisions + [d] && after.used == t.used + 1
                && Apt(s, e.target, VotersOn(votes, e.target), d))
  {
    var c := ContestFor(s, e.mode, e.target, e.ordinal, {});
    if Choose(c, t.guards, s.users).Some? {
      ChosenIsBest(c, t.guards, s.users, Choose(c, t.guards, s.users).value);
    }
  }

  lemma OpportunityFits(s: Setup, e: Exposure, store: Store, t: Tick, cast: Caster, downvotes: bool, dry: bool,
                        x: Target)
    requires Casts(cast, s.now, downvotes, dry) && FitsBudget(store, s.plan, x)
    ensures FitsBudget(After(cast, store, t, Opportunity(s, e, store.db.votes, t)), s.plan, x)
  {
    var after := Opportunity(s, e, store.db.votes, t);
    OpportunityStep(s, e, store.db.votes, t);
    if |after.decisions| > |t.decisions| {
      AfterOne(cast, store, t, after, after.decisions[|t.decisions|]);
      CastSimulations(cast, s, downvotes, dry, store, after.decisions[|t.decisions|], x);
    } else {
      assert Since(t, after) == [];
    }
  }

  lemma {:induction false} TailFits(s: Setup, es: seq<Exposure>, store: Store, t: Tick, cast: Caster, downvotes: bool,
                                    dry: bool, x: Target)
    requires Casts(cast, s.now, downvotes, dry) && FitsBudget(store, s.plan, x)
    ensures FitsBudget(TailPhase(s, es, store, t, cast).0, s.plan, x)
  {
    if es == [] {
    } else {
      TailFits(s, es[..|es| - 1], store, t, cast, downvotes, dry, x);
      var (store1, t1) := TailPhase(s, es[..|es| - 1], store, t, cast);
      OpportunityFits(s, es[|es| - 1], store1, t1, cast, downvotes, dry, x);
    }
  }

  /** A live tick, or anything else that happens to the votes. */
  datatype Happening =
    | LiveTick(s: Setup, cs: seq<Candidate>, sampler: Sampler, downvotes: bool)
    | Elsewhere(next: Store)

  /** Other writers never add a simulated vote. */
  ghost predicate NoNewSimulations(before: Store, after: Store) {
    forall x :: SimulatedOn(after.db.votes, x) <= SimulatedOn(before.db.votes, x)
  }

  /** An item's plan is drawn from its policy, its id and the time of its creation, so every tick has the
      same one; all else may differ from tick to tick. */
  ghost function Happens(store: Store, h: Happening, plan: Plans): Store {
    match h
    case LiveTick(s, cs, sampler, downvotes) =>
      RunTick(s.(plan := plan), cs, sampler, store, Casting(s.now, downvotes, false)).0
    case Elsewhere(next) => if NoNewSimulations(store, next) then next else store
  }

  ghost function HappensAll(store: Store, hs: seq<Happening>, plan: Plans): Store {
    if hs == [] then store else Happens(HappensAll(store, hs[..|hs| - 1], plan), hs[|hs| - 1], plan)
  }

  lemma TickFits(s: Setup, cs: seq<Candidate>, sampler: Sampler, downvotes: bool, store: Store, x: Target)
    requires FitsBudget(store, s.plan, x)
    ensures FitsBudget(RunTick(s, cs, sampler, store, Casting(s.now, downvotes, false)).0, s.plan, x)
  {
    var cast := Casting(s.now, downvotes, false);
    CastingCasts(s.now, downvotes, false);
    ActiveFits(s, cs, store, Start(store.recent), cast, downvotes, false, x);
    var (store1, t1) := ActivePhase(s, cs, store, Start(store.recent), cast);
    TailFits(s, Exposures(s, sampler(store1.db)), store1, t1.(guards := store1.recent), cast, downvotes, false, x);
  }

  lemma {:induction false} HappeningsFit(store: Store, hs: seq<Happening>, plan: Plans, x: Target)
    requires FitsBudget(store, plan, x)
    ensures FitsBudget(HappensAll(store, hs, plan), plan, x)
  {
    if hs == [] {
    } else {
      HappeningsFit(store, hs[..|hs| - 1], plan, x);
      var before := HappensAll(store, hs[..|hs| - 1], plan);
      match hs[|hs| - 1]
      case LiveTick(s, cs, sampler, downvotes) =>
        TickFits(s.(plan := plan), cs, sampler, downvotes, before, x);
      case Elsewhere(next) =>
        if NoNewSimulations(before, next) {
          Elements.SubsetCount(SimulatedOn(next.db.votes, x), SimulatedOn(before.db.votes, x));
        }
    }
  }

  /** Over any sequence of live ticks, at any ages and mixing active, archive and revival casts, with other
      voters and deletions in between, an item never comes to hold more simulated votes than one, or than its
      sample and the policy's maximum. */
  lemma BudgetsHold(store: Store, hs: seq<Happening>, plan: Plans, x: Target)
    requires var held := |set k | k in store.db.votes && k.target == x && store.db.votes[k].source == Simulated|;
             held <= 1 || (plan(x).mean > 0.0 && held <= plan(x).sampled && held <= plan(x).maximum)
    ensures var votes := HappensAll(store, hs, plan).db.votes;
            var held := |set k | k in votes && k.target == x && votes[k].source == Simulated|;
            held <= 1 || (plan(x).mean > 0.0 && held <= plan(x).sampled && held <= plan(x).maximum)
  {
    HappeningsFit(store, hs, plan, x);
  }

  /** Votes by people and agents, switches and clears included, add no simulated vote. */
  lemma OtherVotesAddNone(store: Store, r: Request, downvotes: bool, recent: Guards)
    requires r.source != Simulated
    ensures NoNewSimulations(store, Store(Cast(store.db, r, downvotes), recent))
  {
  }

  ghost predicate OnlyFewer(before: map<Key, Ballot>, after: map<Key, Ballot>) {
    forall k :: k in after ==> k in before && after[k] == before[k]
  }

  lemma {:induction false} ChunksOnlyDrop(db: Db, names: seq<Name>, hit: set<Target>, pa: set<Name>, ca: set<Name>)
    ensures OnlyFewer(db.votes, LedgerCascade.ChunksDropped(db, names, hit, pa, ca).votes)
    decreases |names|
  {
    if names == [] {
    } else {
      var n := LedgerCascade.Min(LedgerCascade.CHUNK, |names|);
      var next := LedgerCascade.VotersDropped(db, Elements.Elems(names[..n]), hit, pa, ca);
      ChunksOnlyDrop(next, names[n..], hit, pa, ca);
    }
  }

  /** Neither do the cascade deletes. */
  lemma DeletionsAddNone(store: Store, op: LedgerCascade.Op, recent: Guards)
    requires !op.CastOp?
    ensures NoNewSimulations(store, Store(LedgerCascade.Perform(store.db, op), recent))
  {
    if op.DeleteUsersOp? {
      var gone := Elements.Elems(op.names);
      var posts := LedgerCascade.PostsBy(store.db.items, gone);
      var roots := LedgerCascade.CommentsBy(store.db.items, gone) + LedgerCascade.CommentsUnder(store.db.items, posts);
      var stripped := LedgerCascade.Pruned(LedgerCascade.CommentsDeleted(store.db, roots),
                                           LedgerCascade.PostKeys(posts), true);
      ChunksOnlyDrop(stripped, op.names, LedgerCascade.VotedBy(store.db, gone),
                     LedgerCascade.VotedAuthors(store.db, gone, true),
                     LedgerCascade.VotedAuthors(store.db, gone, false));
      assert OnlyFewer(store.db.votes, stripped.votes);
    }
    assert OnlyFewer(store.db.votes, LedgerCascade.Perform(store.db, op).votes);
  }

  /// Guardrails of a whole tick

  /** The voter is a persona of the tick, and neither the author nor one who had voted on the item when the
      tick began; the value is the direction the rules give. */
  ghost predicate Clean(s: Setup, votes: map<Key, Ballot>, d: Decision) {
    d.voter in s.users && d.voter != s.author(d.target) && d.voter !in VotersOn(votes, d.target)
    && d.value == RulesOf(s, d.mode).direction(d.target, d.voter)
  }

  ghost predicate Railed(s: Setup, votes: map<Key, Ballot>, t: Tick) {
    && t.used == |t.decisions| <= s.global
    && forall i :: 0 <= i < |t.decisions| ==> Clean(s, votes, t.decisions[i])
  }

  ghost predicate VotersKept(before: map<Key, Ballot>, after: map<Key, Ballot>) {
    forall k :: k in before ==> k in after
  }

  lemma KeptVoters(before: map<Key, Ballot>, after: map<Key, Ballot>, x: Target)
    requires VotersKept(before, after)
    ensures VotersOn(before, x) <= VotersOn(after, x)
  {
    forall name | name in VotersOn(before, x)
      ensures name in VotersOn(after, x)
    {
      var k :| k in before && k.target == x && k.who.Voter? && k.who.name == name;
      assert k in after;
    }
  }

  lemma {:induction false} CastsKeepVoters(cast: Caster, s: Setup, downvotes: bool, dry: bool, store: Store,
                                           ds: seq<Decision>)
    requires Casts(cast, s.now, downvotes, dry)
    ensures VotersKept(store.db.votes, CastAll(cast, store, ds).db.votes)
  {
    if ds == [] {
    } else {
      CastsKeepVoters(cast, s, downvotes, dry, store, ds[..|ds| - 1]);
      CastAdds(cast, s, downvotes, dry, CastAll(cast, store, ds[..|ds| - 1]), ds[|ds| - 1]);
    }
  }

  lemma {:induction false} CountConcat(a: seq<Decision>, b: seq<Decision>, x: Target)
    ensures CountOn(a + b, x) == CountOn(a, x) + CountOn(b, x)
  {
    if b == [] {
      assert a + b == a;
    } else {
      CountConcat(a, b[..|b| - 1], x);
      assert (a + b)[..|a + b| - 1] == a + b[..|b| - 1];
    }
  }

  lemma VisitRailed(s: Setup, c: Candidate, start: map<Key, Ballot>, votes: map<Key, Ballot>, t: Tick)
    requires Railed(s, start, t) && VotersKept(start, votes)
    ensures Railed(s, start, Visit(s, c, votes, t))
  {
    var ds := VisitAdds(s, c, votes, t);
    KeptVoters(start, votes, c.target);
  }

  lemma {:induction false} ActiveRailed(s: Setup, cs: seq<Candidate>, store: Store, t: Tick, cast: Caster,
                                        downvotes: bool, dry: bool)
    requires Casts(cast, s.now, downvotes, dry) && Railed(s, store.db.votes, t)
    ensures Railed(s, store.db.votes, ActivePhase(s, cs, store, t, cast).1)
    ensures VotersKept(store.db.votes, ActivePhase(s, cs, store, t, cast).0.db.votes)
  {
    if cs == [] {
    } else {
      ActiveRailed(s, cs[..|cs| - 1], store, t, cast, downvotes, dry);
      var (store1, t1) := ActivePhase(s, cs[..|cs| - 1], store, t, cast);
      var t2 := Visit(s, cs[|cs| - 1], store1.db.votes, t1);
      VisitRailed(s, cs[|cs| - 1], store.db.votes, store1.db.votes, t1);
      CastsKeepVoters(cast, s, downvotes, dry, store1, Since(t1, t2));
    }
  }

  lemma {:induction false} ActivePerItem(s: Setup, cs: seq<Candidate>, store: Store, t: Tick, cast: Caster, x: Target)
    requires DistinctTargets(cs) && t.decisions == []
    ensures CountOn(ActivePhase(s, cs, store, t, cast).1.decisions, x) <= s.perItem
    ensures NotAmong(cs, x) ==> CountOn(ActivePhase(s, cs, store, t, cast).1.decisions, x) == 0
  {
    if cs == [] {
    } else {
      var front, c := cs[..|cs| - 1], cs[|cs| - 1];
      ActivePerItem(s, front, store, t, cast, x);
      var (store1, t1) := ActivePhase(s, front, store, t, cast);
      var ds := VisitAdds(s, c, store1.db.votes, t1);
      CountConcat(t1.decisions, ds, x);
      CountOfAll(ds, c.target, x);
      assert x == c.target ==> NotAmong(front, x);
      assert NotAmong(cs, x) ==> NotAmong(front, x) && x != c.target;
    }
  }

  lemma OpportunityRailed(s: Setup, e: Exposure, start: map<Key, Ballot>, votes: map<Key, Ballot>, t: Tick, x: Target)
    requires Railed(s, start, t) && VotersKept(start, votes) && CountOn(t.decisions, x) <= s.perItem
    ensures Railed(s, start, Opportunity(s, e, votes, t))
            && CountOn(Opportunity(s, e, votes, t).decisions, x) <= s.perItem
  {
    OpportunityStep(s, e, votes, t);
    KeptVoters(start, votes, e.target);
    var after := Opportunity(s, e, votes, t);
    if |after.decisions| > |t.decisions| {
      assert after.decisions[..|t.decisions|] == t.decisions;
    }
  }

  lemma {:induction false} TailRailed(s: Setup, es: seq<Exposure>, start: map<Key, Ballot>, store: Store, t: Tick,
                                      cast: Caster, downvotes: bool, dry: bool, x: Target)
    requires Casts(cast, s.now, downvotes, dry) && Railed(s, start, t) && VotersKept(start, store.db.votes)
    requires CountOn(t.decisions, x) <= s.perItem
    ensures var (after, r) := TailPhase(s, es, store, t, cast);
            Railed(s, start, r) && VotersKept(start, after.db.votes) && CountOn(r.decisions, x) <= s.perItem
  {
    if es == [] {
    } else {
      TailRailed(s, es[..|es| - 1], start, store, t, cast, downvotes, dry, x);
      var (store1, t1) := TailPhase(s, es[..|es| - 1], store, t, cast);
      var t2 := Opportunity(s, es[|es| - 1], store1.db.votes, t1);
      OpportunityRailed(s, es[|es| - 1], start, store1.db.votes, t1, x);
      CastsKeepVoters(cast, s, downvotes, dry, store1, Since(t1, t2));
    }
  }

  /** A whole tick, dry or live: at most `global` decisions, at most `perItem` on any item across both
      phases, and never by the item's author or by one who had already voted on it. */
  lemma TickGuardrails(s: Setup, cs: seq<Candidate>, sampler: Sampler, store: Store, downvotes: bool, dry: bool,
                       x: Target)
    requires DistinctTargets(cs)
    ensures var t := RunTick(s, cs, sampler, store, Casting(s.now, downvotes, dry)).1;
            && t.used == |t.decisions| <= s.global
            && CountOn(t.decisions, x) <= s.perItem
            && forall i :: 0 <= i < |t.decisions| ==> Clean(s, store.db.votes, t.decisions[i])
  {
    var cast := Casting(s.now, downvotes, dry);
    CastingCasts(s.now, downvotes, dry);
    ActiveRailed(s, cs, store, Start(store.recent), cast, downvotes, dry);
    ActivePerItem(s, cs, store, Start(store.recent), cast, x);
    var (store1, t1) := ActivePhase(s, cs, store, Start(store.recent), cast);
    TailRailed(s, Exposures(s, sampler(store1.db)), store.db.votes, store1, t1.(guards := store1.recent), cast,
               downvotes, dry, x);
  }

  /// Each persona once per active phase

  /** Everyone decided on counts as having voted now; the others count as they did when the tick began. */
  ghost predicate Once(s: Setup, g: Guards, t: Tick) {
    && (forall i, j :: 0 <= i < j < |t.decisions| ==> t.decisions[i].voter != t.decisions[j].voter)
    && (forall i :: 0 <= i < |t.decisions| ==>
          t.decisions[i].voter in t.guards.latest && t.guards.latest[t.decisions[i].voter] == s.now
          && BelowCap(s, g, t.decisions[i]))
    && (forall name :: (forall i :: 0 <= i < |t.decisions| ==> t.decisions[i].voter != name) ==>
          HourlyCount(t.guards, name) == HourlyCount(g, name))
  }

  /** With this vote too, the persona has at most its hourly cap. */
  ghost predicate BelowCap(s: Setup, g: Guards, d: Decision) {
    d.voter in s.users && HourlyCount(g, d.voter) + 1 <= s.active.cap(d.target, d.voter)
  }

  lemma DecidedOnce(s: Setup, g: Guards, t: Tick, x: Target, ordinal: int, voter: Name)
    requires Once(s, g, t) && Admitted(s, x, t.guards, voter)
    ensures Once(s, g, Decided(s, t, x, ordinal, voter, Active))
  {
    var r := Decided(s, t, x, ordinal, voter, Active);
    assert forall i :: 0 <= i < |t.decisions| ==> r.decisions[i] == t.decisions[i] && t.decisions[i].voter != voter;
    assert BelowCap(s, g, DecisionFor(s, x, ordinal, voter, Active));
    forall name | forall i :: 0 <= i < |r.decisions| ==> r.decisions[i].voter != name
      ensures HourlyCount(r.guards, name) == HourlyCount(g, name)
    {
      assert r.decisions[|t.decisions|].voter != name;
    }
  }

  lemma AttemptOnce(s: Setup, g: Guards, x: Target, ordinal: nat, existing: set<Name>, selected: set<Name>, t: Tick)
    requires Once(s, g, t)
    ensures Once(s, g, Attempt(s, x, ordinal, existing, selected, t))
  {
    AttemptStep(s, x, ordinal, existing, selected, t);
    var after := Attempt(s, x, ordinal, existing, selected, t);
    if |after.decisions| > |t.decisions| {
      DecidedOnce(s, g, t, x, ordinal, after.decisions[|t.decisions|].voter);
    }
  }

  lemma {:induction false} OrdinalsOnce(try: Trier, s: Setup, g: Guards, x: Target, existing: set<Name>,
                                        from: nat, due: nat, selected: set<Name>, t: Tick)
    requires Tries(try, s, x, existing) && Once(s, g, t)
    ensures Once(s, g, Ordinals(try, from, due, selected, t))
    decreases due + 1 - from
  {
    if from > due {
    } else {
      AttemptOnce(s, g, x, from, existing, selected, t);
      var after := try(from, selected, t);
      assert after == Attempt(s, x, from, existing, selected, t);
      OrdinalsOnce(try, s, g, x, existing, from + 1, due, SelectedBy(t, after, selected), after);
    }
  }

  lemma {:induction false} ActiveOnce(s: Setup, g: Guards, cs: seq<Candidate>, store: Store, t: Tick, cast: Caster)
    requires Once(s, g, t)
    ensures Once(s, g, ActivePhase(s, cs, store, t, cast).1)
  {
    if cs == [] {
    } else {
      ActiveOnce(s, g, cs[..|cs| - 1], store, t, cast);
      var (store1, t1) := ActivePhase(s, cs[..|cs| - 1], store, t, cast);
      var c := cs[|cs| - 1];
      var existing := VotersOn(store1.db.votes, c.target);
      TryingTries(s, c.target, existing);
      OrdinalsOnce(Trying(s, c.target, existing), s, g, c.target, existing,
                   |SimulatedOn(store1.db.votes, c.target)| + 1, DueNow(s, c), {}, t1);
    }
  }

  /** In one active phase no persona votes twice, whatever gaps the items' policies set, since being chosen
      makes its latest vote now; and none goes above the hourly cap of the policy of the item it votes on. */
  lemma PersonasVoteOnce(s: Setup, cs: seq<Candidate>, store: Store, cast: Caster)
    ensures var t := ActivePhase(s, cs, store, Start(store.recent), cast).1;
            && (forall i, j :: 0 <= i < j < |t.decisions| ==> t.decisions[i].voter != t.decisions[j].voter)
            && (forall i :: 0 <= i < |t.decisions| ==> BelowCap(s, store.recent, t.decisions[i]))
  {
    ActiveOnce(s, store.recent, cs, store, Start(store.recent), cast);
  }
}
