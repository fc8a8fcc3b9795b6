/** One tick of the simulated-voting scheduler: the active phase walks the due ordinals of every
    candidate, the tail phase looks at archived posts and at revived threads; each decision is cast at once
    when live, and only recorded in a dry run. */
module Scheduler {
  import opened Wrappers
  import opened Names
  import opened VoteLedger
  import opened VoterSelection
  import Cadence

  datatype Mode = Active | Archive | Revival

  datatype Decision = Decision(target: Target, ordinal: int, voter: Name, value: int, mode: Mode)

  /** What the policy of an item's creation plans for it: the budget drawn for the item, uncapped, and the
      section that spreads it over the item's age. */
  datatype Plan = Plan(mean: real, maximum: int, sampled: nat, section: Cadence.Section)

  type Plans = Target -> Plan

  /** An item in its window, and its age in minutes. */
  datatype Candidate = Candidate(target: Target, age: real)

  /** One sampled look at an item; `noticed` says whether it would become a vote. */
  datatype Exposure = Exposure(target: Target, mode: Mode, ordinal: int, noticed: bool)

  /** Where an exposure comes from: the archive, or the thread that a recent comment revived. */
  datatype Origin = FromArchive | FromThread(trigger: nat)

  /** A recent comment, its post, whether that still exists, its parent if that exists, and the post's
      top-level comments that are visible, best first. */
  datatype Thread = Thread(trigger: nat, post: nat, found: bool, parent: Option<nat>, visible: seq<nat>)

  /** What the tail samples: archived posts in rank order, and recent comments, newest first. */
  datatype TailSample = TailSample(archive: seq<nat>, threads: seq<Thread>)

  /** How the tail samples a ledger. Only the scores of visible comments move while the tail itself casts,
      and the casts of one thread never touch another's, so one reading stands for all. */
  type Sampler = Db -> TailSample

  /** What a tick reads once, and the pure functions it decides by. Items have the rules of the policy they
      were created under; the tail has those of the policy at the time of the tick. */
  datatype Setup = Setup(users: seq<Name>, author: Target -> Name, now: int, plan: Plans, exp2: Cadence.Real2Real,
                         active: Rules, tail: Rules, noticed: (Origin, Target) -> bool,
                         ordinal: (Origin, Target) -> int, perItem: nat, global: nat)

  datatype Tick = Tick(decisions: seq<Decision>, used: nat, skips: map<Skip, nat>, guards: Guards)

  /// Votes the scheduler reads

  function SimulatedOn(votes: map<Key, Ballot>, t: Target): set<Key> {
    set k | k in votes && k.target == t && votes[k].source == Simulated
  }

  function VotersOn(votes: map<Key, Ballot>, t: Target): set<Name> {
    set k | k in votes && k.target == t && k.who.Voter? :: k.who.name
  }

  /// Casting a decision

  function RequestFor(d: Decision): Request {
    Request(Voter(d.voter), d.target, d.value, Simulated, false)
  }

  /** The ledger, and what a query for the votes of the last hour would return. */
  datatype Store = Store(db: Db, recent: Guards)

  /** The persona counts as having voted now. */
  function Claimed(g: Guards, name: Name, now: int): Guards {
    Guards(g.hourly[name := HourlyCount(g, name) + 1], g.latest[name := now])
  }

  /** An insert-only cast; a refusal or a collision leaves no row. */
  function CastOne(store: Store, d: Decision, now: int, downvotes: bool): Store {
    var db := Cast(store.db, RequestFor(d), downvotes);
    Store(db, if |db.votes| > |store.db.votes| then Claimed(store.recent, d.voter, now) else store.recent)
  }

  /** What becomes of the store when a decision is made: a vote when live, nothing in a dry run. */
  type Caster = (Store, Decision) -> Store

  function Casting(now: int, downvotes: bool, dry: bool): Caster {
    (store: Store, d: Decision) => if dry then store else CastOne(store, d, now, downvotes)
  }

  ghost predicate Casts(cast: Caster, now: int, downvotes: bool, dry: bool) {
    forall store: Store, d: Decision {:trigger CastOne(store, d, now, downvotes)} ::
      cast(store, d) == if dry then store else CastOne(store, d, now, downvotes)
  }

  function CastAll(cast: Caster, store: Store, ds: seq<Decision>): Store {
    if ds == [] then store else cast(CastAll(cast, store, ds[..|ds| - 1]), ds[|ds| - 1])
  }

  /// One vote

  function Skipped(t: Tick, skip: Skip): Tick {
    t.(skips := t.skips[skip := (if skip in t.skips then t.skips[skip] else 0) + 1])
  }

  function RulesOf(s: Setup, mode: Mode): Rules {
    if mode == Active then s.active else s.tail
  }

  function ContestFor(s: Setup, mode: Mode, target: Target, ordinal: int, claimed: set<Name>): Contest {
    Contest(target, s.author(target), ordinal, claimed, s.now, RulesOf(s, mode))
  }

  function DecisionFor(s: Setup, target: Target, ordinal: int, voter: Name, mode: Mode): Decision {
    Decision(target, ordinal, voter, RulesOf(s, mode).direction(target, voter), mode)
  }

  function Decided(s: Setup, t: Tick, target: Target, ordinal: int, voter: Name, mode: Mode): Tick {
    t.(decisions := t.decisions + [DecisionFor(s, target, ordinal, voter, mode)],
       used := t.used + 1, guards := Claimed(t.guards, voter, s.now))
  }

  /** One due ordinal of a candidate whose voters are `existing`; `selected` were chosen in this tick. */
  function Attempt(s: Setup, target: Target, ordinal: int, existing: set<Name>, selected: set<Name>, t: Tick): Tick {
    if t.used >= s.global then Skipped(t, GlobalLimit)
    else if |selected| >= s.perItem then Skipped(t, ItemLimit)
    else
      var c := ContestFor(s, Active, target, ordinal, existing + selected);
      match Choose(c, t.guards, s.users)
      case None => Skipped(t, SkipReason(Reasons(c, t.guards, s.users)))
      case Some(name) => Decided(s, t, target, ordinal, name, Active)
  }

  /** The voters selected once the attempt was made. */
  function SelectedBy(before: Tick, after: Tick, selected: set<Name>): set<Name> {
    if |after.decisions| > |before.decisions| then selected + {after.decisions[|after.decisions| - 1].voter}
    else selected
  }

  /** What an attempt at an ordinal does to the tick, given who was selected so far. */
  type Trier = (nat, set<Name>, Tick) -> Tick

  function Trying(s: Setup, target: Target, existing: set<Name>): Trier {
    (ordinal: nat, selected: set<Name>, t: Tick) => Attempt(s, target, ordinal, existing, selected, t)
  }

  ghost predicate Tries(try: Trier, s: Setup, target: Target, existing: set<Name>) {
    forall ordinal: nat, selected: set<Name>, t: Tick {:trigger Attempt(s, target, ordinal, existing, selected, t)} ::
      try(ordinal, selected, t) == Attempt(s, target, ordinal, existing, selected, t)
  }

  function Ordinals(try: Trier, from: nat, due: nat, selected: set<Name>, t: Tick): Tick
    decreases due + 1 - from
  {
    if from > due then t
    else
      var after := try(from, selected, t);
      Ordinals(try, from + 1, due, SelectedBy(t, after, selected), after)
  }

  /// Budgets

  /** The sampled budget is capped. */
  function Budget(p: Plan): (budget: nat)
    ensures p.mean > 0.0 && p.maximum > 0 ==>
              budget <= p.sampled && budget <= p.maximum && budget in {p.sampled, p.maximum}
    ensures p.mean <= 0.0 || p.maximum <= 0 ==> budget == 0
  {
    if p.mean <= 0.0 || p.maximum <= 0 then 0 else if p.sampled < p.maximum then p.sampled else p.maximum
  }

  /** The votes due at an age. Sections are validated and their window elapses, see
      `Cadence.WindowElapses`. */
  function Due(p: Plan, age: real, exp2: Cadence.Real2Real): (due: nat)
    ensures due <= Budget(p)
  {
    if !Cadence.Validated(p.section) || Cadence.Left(p.section, exp2, p.section.window) == 1.0 then 0
    else Cadence.DueCount(Budget(p), age, p.section, exp2)
  }

  function DueNow(s: Setup, c: Candidate): nat {
    Due(s.plan(c.target), c.age, s.exp2)
  }

  /// The active phase

  function Visit(s: Setup, c: Candidate, votes: map<Key, Ballot>, t: Tick): Tick {
    Ordinals(Trying(s, c.target, VotersOn(votes, c.target)), |SimulatedOn(votes, c.target)| + 1, DueNow(s, c), {},
             t)
  }

  /** What was decided between two states of a tick. */
  function Since(before: Tick, after: Tick): seq<Decision> {
    if |before.decisions| <= |after.decisions| then after.decisions[|before.decisions|..] else []
  }

  function After(cast: Caster, store: Store, before: Tick, after: Tick): Store {
    CastAll(cast, store, Since(before, after))
  }

  function ActivePhase(s: Setup, cs: seq<Candidate>, store: Store, t: Tick, cast: Caster): (Store, Tick) {
    if cs == [] then (store, t)
    else
      var (store1, t1) := ActivePhase(s, cs[..|cs| - 1], store, t, cast);
      var t2 := Visit(s, cs[|cs| - 1], store1.db.votes, t1);
      (After(cast, store1, t1, t2), t2)
  }

  /// The tail

  function CountOn(ds: seq<Decision>, t: Target): nat {
    if ds == [] then 0 else CountOn(ds[..|ds| - 1], t) + if ds[|ds| - 1].target == t then 1 else 0
  }

  function Opportunity(s: Setup, e: Exposure, votes: map<Key, Ballot>, t: Tick): Tick {
    if CountOn(t.decisions, e.target) >= s.perItem then Skipped(t, ItemLimit)
    else if !e.noticed then Skipped(t, TailProbability)
    else if t.used >= s.global then Skipped(t, GlobalLimit)
    else if SimulatedOn(votes, e.target) != {} then Skipped(t, PriorVoterSkip)
    else
      var c := ContestFor(s, e.mode, e.target, e.ordinal, {});
      match Choose(c, t.guards, s.users)
      case None => Skipped(t, SkipReason(Reasons(c, t.guards, s.users)))
      case Some(name) =>
        if name in VotersOn(votes, e.target) then Skipped(t, PriorVoterSkip)
        else Decided(s, t, e.target, e.ordinal, name, e.mode)
  }

  function TailPhase(s: Setup, es: seq<Exposure>, store: Store, t: Tick, cast: Caster): (Store, Tick) {
    if es == [] then (store, t)
    else
      var (store1, t1) := TailPhase(s, es[..|es| - 1], store, t, cast);
      var t2 := Opportunity(s, es[|es| - 1], store1.db.votes, t1);
      (After(cast, store1, t1, t2), t2)
  }

  /// What the tail looks at

  function ExposureOf(s: Setup, origin: Origin, target: Target): Exposure {
    var mode := if origin.FromArchive? then Archive else Revival;
    Exposure(target, mode, s.ordinal(origin, target), s.noticed(origin, target))
  }

  function Exposed(s: Setup, origin: Origin, targets: seq<Target>): seq<Exposure> {
    seq(|targets|, i requires 0 <= i < |targets| => ExposureOf(s, origin, targets[i]))
  }

  function Posts(ids: seq<nat>): seq<Target> {
    seq(|ids|, i requires 0 <= i < |ids| => OnPost(ids[i]))
  }

  /** The comments whose ids are not among the given ones. */
  function Others(ids: seq<nat>, known: set<nat>): seq<Target> {
    if ids == [] then []
    else Others(ids[..|ids| - 1], known) + if ids[|ids| - 1] in known then [] else [OnComment(ids[|ids| - 1])]
  }

  /** The thread's post and parent, then what else is visible: a comment is left out whose id is the parent's,
      or happens to be the post's. */
  function ThreadTargets(th: Thread): seq<Target> {
    match th.parent
    case None => [OnPost(th.post)] + Others(th.visible, {th.post})
    case Some(parent) => [OnPost(th.post), OnComment(parent)] + Others(th.visible, {th.post, parent})
  }

  /** The posts of the threads, visited or missing. */
  function PostsSeen(threads: seq<Thread>): set<nat> {
    set i | 0 <= i < |threads| :: threads[i].post
  }

  /** A post is visited for the newest comment under it only. */
  function Revivals(s: Setup, threads: seq<Thread>): seq<Exposure> {
    if threads == [] then []
    else
      var front, th := threads[..|threads| - 1], threads[|threads| - 1];
      Revivals(s, front) + if th.post in PostsSeen(front) || !th.found then []
                           else Exposed(s, FromThread(th.trigger), ThreadTargets(th))
  }

  function Exposures(s: Setup, sample: TailSample): seq<Exposure> {
    Exposed(s, FromArchive, Posts(sample.archive)) + Revivals(s, sample.threads)
  }

  /// The tick

  function Start(g: Guards): Tick {
    Tick([], 0, map[], g)
  }

  /** The active phase goes by the guards read at the start, the tail by guards and a sample read after it. */
  function RunTick(s: Setup, cs: seq<Candidate>, sampler: Sampler, store: Store, cast: Caster): (Store, Tick) {
    var (store1, t1) := ActivePhase(s, cs, store, Start(store.recent), cast);
    TailPhase(s, Exposures(s, sampler(store1.db)), store1, t1.(guards := store1.recent), cast)
  }

  /// Decisions only grow, and casting goes by what was added

  predicate Grows(before: Tick, after: Tick) {
    before.decisions <= after.decisions
  }

  lemma {:induction false} CastConcat(cast: Caster, store: Store, a: seq<Decision>, b: seq<Decision>)
    ensures CastAll(cast, store, a + b) == CastAll(cast, CastAll(cast, store, a), b)
  {
    if b == [] {
      assert a + b == a;
    } else {
      CastConcat(cast, store, a, b[..|b| - 1]);
      assert (a + b)[..|a + b| - 1] == a + b[..|b| - 1];
    }
  }

  lemma AfterChain(cast: Caster, store: Store, a: Tick, b: Tick, c: Tick)
    requires Grows(a, b) && Grows(b, c)
    ensures After(cast, After(cast, store, a, b), b, c) == After(cast, store, a, c)
    ensures Grows(a, c)
  {
    CastConcat(cast, store, Since(a, b), Since(b, c));
    assert Since(a, c) == Since(a, b) + Since(b, c);
  }

  lemma AfterOne(cast: Caster, store: Store, a: Tick, b: Tick, d: Decision)
    requires b.decisions == a.decisions + [d]
    ensures After(cast, store, a, b) == cast(store, d)
  {
    assert Since(a, b) == [d];
    assert [d][..0] == [];
    assert CastAll(cast, store, []) == store;
  }

  lemma AttemptGrows(try: Trier, s: Setup, target: Target, existing: set<Name>, ordinal: nat, selected: set<Name>,
                     t: Tick)
    requires Tries(try, s, target, existing)
    ensures Grows(t, try(ordinal, selected, t))
  {
    var after := Attempt(s, target, ordinal, existing, selected, t);
  }

  /** Every stored value is an up or a down. */
  ghost predicate Ballots(votes: map<Key, Ballot>) {
    forall k :: k in votes ==> votes[k].value in {1, -1}
  }

  lemma CastKeepsBallots(cast: Caster, now: int, downvotes: bool, dry: bool, store: Store, d: Decision)
    requires Casts(cast, now, downvotes, dry) && Ballots(store.db.votes)
    ensures Ballots(cast(store, d).db.votes)
    ensures cast(store, d) == if dry then store else CastOne(store, d, now, downvotes)
  {
    var voted := CastOne(store, d, now, downvotes);
    assert cast(store, d) == if dry then store else voted;
  }

  /** A phase that started in `start` on `store` has come to `t`, and the store to `now`. */
  ghost predicate Underway(cast: Caster, store: Store, start: Tick, t: Tick, now: Store) {
    Grows(start, t) && now == After(cast, store, start, t) && Ballots(now.db.votes)
  }

  lemma Begin(cast: Caster, store: Store, start: Tick)
    requires Ballots(store.db.votes)
    ensures Underway(cast, store, start, start, store)
  {
    assert Since(start, start) == [];
  }

  lemma StepOn(cast: Caster, store: Store, start: Tick, t: Tick, now: Store, next: Tick)
    requires Underway(cast, store, start, t, now) && Grows(t, next) && Ballots(After(cast, now, t, next).db.votes)
    ensures Underway(cast, store, start, next, After(cast, now, t, next))
  {
    AfterChain(cast, store, start, t, next);
  }

  lemma TailSnoc(s: Setup, es: seq<Exposure>, e: Exposure, store: Store, t: Tick, cast: Caster)
    ensures var (store1, t1) := TailPhase(s, es, store, t, cast);
            var t2 := Opportunity(s, e, store1.db.votes, t1);
            TailPhase(s, es + [e], store, t, cast) == (After(cast, store1, t1, t2), t2)
    ensures TailPhase(s, [], store, t, cast) == (store, t)
  {
    assert (es + [e])[..|es|] == es;
  }

  lemma ExposedSnoc(s: Setup, origin: Origin, targets: seq<Target>, i: nat, done: seq<Exposure>)
    requires i < |targets|
    ensures done + Exposed(s, origin, targets[..i + 1])
            == done + Exposed(s, origin, targets[..i]) + [ExposureOf(s, origin, targets[i])]
  {
  }

  lemma RevivalsSnoc(s: Setup, threads: seq<Thread>, i: nat, done: seq<Exposure>)
    requires i < |threads|
    ensures PostsSeen(threads[..i + 1]) == PostsSeen(threads[..i]) + {threads[i].post}
    ensures done + Revivals(s, threads[..i + 1])
            == if threads[i].post in PostsSeen(threads[..i]) || !threads[i].found then done + Revivals(s, threads[..i])
               else done + Revivals(s, threads[..i])
                    + Exposed(s, FromThread(threads[i].trigger), ThreadTargets(threads[i]))
  {
    var front := threads[..i + 1];
    assert front[..i] == threads[..i];
    assert forall k :: 0 <= k < i ==> front[k] == threads[..i][k];
    assert front[i] == threads[i];
  }

  lemma TryingTries(s: Setup, target: Target, existing: set<Name>)
    ensures Tries(Trying(s, target, existing), s, target, existing)
  {
  }

  lemma CastingCasts(now: int, downvotes: bool, dry: bool)
    ensures Casts(Casting(now, downvotes, dry), now, downvotes, dry)
  {
  }

  /// The tick as it runs

  class Engine {
    const ledger: Ledger
    var recent: Guards
    var decisions: seq<Decision>
    var used: nat
    var skips: map<Skip, nat>
    var guards: Guards

    /** A tick begins by reading the votes of the last hour. */
    constructor (ledger: Ledger, recent: Guards)
      ensures this.ledger == ledger && this.recent == recent && View() == Start(recent)
    {
      this.ledger := ledger;
      this.recent := recent;
      decisions, used, skips, guards := [], 0, map[], recent;
    }

    function View(): Tick
      reads this
    {
      Tick(decisions, used, skips, guards)
    }

    function Stored(): Store
      reads this, ledger
    {
      Store(ledger.View(), recent)
    }

    method SkipFor(skip: Skip)
      modifies this`skips
      ensures View() == Skipped(old(View()), skip)
    {
      skips := skips[skip := (if skip in skips then skips[skip] else 0) + 1];
    }

    /** An insert-only cast of the decision; a row that lands is among the votes of the last hour. */
    method Vote(d: Decision, now: int, downvotes: bool)
      requires Ballots(ledger.votes)
      modifies this`recent, ledger
      ensures Stored() == CastOne(old(Stored()), d, now, downvotes)
    {
      var before := |ledger.votes|;
      var _ := ledger.CastVote(RequestFor(d), downvotes);
      if |ledger.votes| > before {
        recent := Claimed(recent, d.voter, now);
      }
    }

    /** Records the decision and, when live, casts it at once. */
    method Decide(s: Setup, target: Target, ordinal: int, voter: Name, mode: Mode, downvotes: bool, dry: bool,
                  ghost cast: Caster)
      requires Ballots(ledger.votes) && Casts(cast, s.now, downvotes, dry)
      modifies this, ledger
      ensures View() == Decided(s, old(View()), target, ordinal, voter, mode)
      ensures Stored() == After(cast, old(Stored()), old(View()), View()) && Ballots(ledger.votes)
    {
      var d := DecisionFor(s, target, ordinal, voter, mode);
      guards := Claimed(guards, voter, s.now);
      decisions := decisions + [d];
      CastKeepsBallots(cast, s.now, downvotes, dry, Stored(), d);
      if !dry {
        Vote(d, s.now, downvotes);
      }
      used := used + 1;
      AfterOne(cast, old(Stored()), old(View()), View(), d);
    }

    method TryOrdinal(s: Setup, target: Target, ordinal: int, existing: set<Name>, selected: set<Name>, downvotes: bool,
                      dry: bool, ghost cast: Caster) returns (more: set<Name>)
      requires Ballots(ledger.votes) && Casts(cast, s.now, downvotes, dry)
      modifies this, ledger
      ensures View() == Attempt(s, target, ordinal, existing, selected, old(View()))
      ensures more == SelectedBy(old(View()), View(), selected)
      ensures Stored() == After(cast, old(Stored()), old(View()), View()) && Ballots(ledger.votes)
    {
      more := selected;
      if used >= s.global {
        SkipFor(GlobalLimit);
      } else if |selected| >= s.perItem {
        SkipFor(ItemLimit);
      } else {
        var voter, skip := SelectVoter(ContestFor(s, Active, target, ordinal, existing + selected), guards, s.users);
        if voter.None? {
          SkipFor(skip);
        } else {
          more := selected + {voter.value};
          Decide(s, target, ordinal, voter.value, Active, downvotes, dry, cast);
        }
      }
    }

    /** One ordinal of a phase that began in `start` on `db`: what is left of the candidate is the same. */
    method NextOrdinal(s: Setup, c: Candidate, ordinal: nat, existing: set<Name>, selected: set<Name>, downvotes: bool,
                       dry: bool, ghost cast: Caster, ghost try: Trier, ghost store: Store, ghost start: Tick)
      returns (more: set<Name>)
      requires ordinal <= DueNow(s, c) && Underway(cast, store, start, View(), Stored())
               && Casts(cast, s.now, downvotes, dry)
      requires Tries(try, s, c.target, existing)
      modifies this, ledger
      ensures Underway(cast, store, start, View(), Stored())
      ensures Ordinals(try, ordinal + 1, DueNow(s, c), more, View())
              == Ordinals(try, ordinal, DueNow(s, c), selected, old(View()))
    {
      ghost var before, now := View(), Stored();
      AttemptGrows(try, s, c.target, existing, ordinal, selected, before);
      more := TryOrdinal(s, c.target, ordinal, existing, selected, downvotes, dry, cast);
      StepOn(cast, store, start, before, now, View());
    }

    /** The due ordinals from `first` on, one after the other. */
    method RunOrdinals(s: Setup, c: Candidate, first: nat, existing: set<Name>, downvotes: bool, dry: bool,
                       ghost cast: Caster, ghost try: Trier, ghost store: Store, ghost start: Tick)
      requires Underway(cast, store, start, View(), Stored()) && Casts(cast, s.now, downvotes, dry)
      requires Tries(try, s, c.target, existing)
      modifies this, ledger
      ensures Underway(cast, store, start, View(), Stored())
      ensures View() == Ordinals(try, first, DueNow(s, c), {}, old(View()))
    {
      var selected: set<Name> := {};
      var ordinal := first;
      var due: int := DueNow(s, c);
      while ordinal <= due
        invariant Underway(cast, store, start, View(), Stored())
        invariant Ordinals(try, ordinal, due, selected, View()) == Ordinals(try, first, due, {}, old(View()))
        decreases due + 1 - ordinal
      {
        selected := NextOrdinal(s, c, ordinal, existing, selected, downvotes, dry, cast, try, store, start);
        ordinal := ordinal + 1;
      }
    }

    /** The due ordinals of one candidate, beginning after the simulated votes it already has. */
    method RunCandidate(s: Setup, c: Candidate, downvotes: bool, dry: bool, ghost cast: Caster)
      requires Ballots(ledger.votes) && Casts(cast, s.now, downvotes, dry)
      modifies this, ledger
      ensures View() == Visit(s, c, old(ledger.votes), old(View()))
      ensures Stored() == After(cast, old(Stored()), old(View()), View()) && Ballots(ledger.votes)
    {
      var existing := VotersOn(ledger.votes, c.target);
      var first := |SimulatedOn(ledger.votes, c.target)| + 1;
      ghost var try := Trying(s, c.target, existing);
      TryingTries(s, c.target, existing);
      Begin(cast, Stored(), View());
      RunOrdinals(s, c, first, existing, downvotes, dry, cast, try, Stored(), View());
    }

    method RunActive(s: Setup, cs: seq<Candidate>, downvotes: bool, dry: bool, ghost cast: Caster)
      requires Ballots(ledger.votes) && Casts(cast, s.now, downvotes, dry)
      modifies this, ledger
      ensures (Stored(), View()) == ActivePhase(s, cs, old(Stored()), old(View()), cast) && Ballots(ledger.votes)
    {
      for i := 0 to |cs|
        invariant (Stored(), View()) == ActivePhase(s, cs[..i], old(Stored()), old(View()), cast)
                  && Ballots(ledger.votes)
      {
        assert cs[..i + 1][..i] == cs[..i];
        RunCandidate(s, cs[i], downvotes, dry, cast);
      }
      assert cs[..|cs|] == cs;
    }

    /** One exposure: decisions already made on the item count against its limit, and its votes are read
        again. */
    method TailOpportunity(s: Setup, e: Exposure, downvotes: bool, dry: bool, ghost cast: Caster)
      requires Ballots(ledger.votes) && Casts(cast, s.now, downvotes, dry)
      modifies this, ledger
      ensures View() == Opportunity(s, e, old(ledger.votes), old(View()))
      ensures Stored() == After(cast, old(Stored()), old(View()), View()) && Ballots(ledger.votes)
    {
      if CountOn(decisions, e.target) >= s.perItem {
        SkipFor(ItemLimit);
      } else if !e.noticed {
        SkipFor(TailProbability);
      } else if used >= s.global {
        SkipFor(GlobalLimit);
      } else if SimulatedOn(ledger.votes, e.target) != {} {
        SkipFor(PriorVoterSkip);
      } else {
        var existing := VotersOn(ledger.votes, e.target);
        var voter, skip := SelectVoter(ContestFor(s, e.mode, e.target, e.ordinal, {}), guards, s.users);
        if voter.None? {
          SkipFor(skip);
        } else if voter.value in existing {
          SkipFor(PriorVoterSkip);
        } else {
          Decide(s, e.target, e.ordinal, voter.value, e.mode, downvotes, dry, cast);
        }
      }
    }

    /** One more exposure of a tail that began in `start` on `store` and has gone through `done`. */
    method Expose(s: Setup, origin: Origin, target: Target, downvotes: bool, dry: bool,
                  ghost cast: Caster, ghost store: Store, ghost start: Tick, ghost done: seq<Exposure>)
      requires Ballots(ledger.votes) && Casts(cast, s.now, downvotes, dry)
      requires (Stored(), View()) == TailPhase(s, done, store, start, cast)
      modifies this, ledger
      ensures Ballots(ledger.votes)
      ensures (Stored(), View()) == TailPhase(s, done + [ExposureOf(s, origin, target)], store, start, cast)
    {
      TailSnoc(s, done, ExposureOf(s, origin, target), store, start, cast);
      TailOpportunity(s, ExposureOf(s, origin, target), downvotes, dry, cast);
    }

    /** The given items, one after the other. */
    method ExposeAll(s: Setup, origin: Origin, targets: seq<Target>, downvotes: bool, dry: bool,
                     ghost cast: Caster, ghost store: Store, ghost start: Tick, ghost done: seq<Exposure>)
      requires Ballots(ledger.votes) && Casts(cast, s.now, downvotes, dry)
      requires (Stored(), View()) == TailPhase(s, done, store, start, cast)
      modifies this, ledger
      ensures Ballots(ledger.votes)
      ensures (Stored(), View()) == TailPhase(s, done + Exposed(s, origin, targets), store, start, cast)
    {
      assert done + Exposed(s, origin, targets[..0]) == done;
      for i := 0 to |targets|
        invariant Ballots(ledger.votes)
        invariant (Stored(), View()) == TailPhase(s, done + Exposed(s, origin, targets[..i]), store, start, cast)
      {
        ExposedSnoc(s, origin, targets, i, done);
        Expose(s, origin, targets[i], downvotes, dry, cast, store, start, done + Exposed(s, origin, targets[..i]));
      }
      assert targets[..|targets|] == targets;
    }

    /** The items of one thread, for a post that was found. */
    method TargetsOf(th: Thread) returns (targets: seq<Target>)
      ensures targets == ThreadTargets(th)
    {
      targets := [OnPost(th.post)];
      var known := {th.post};
      if th.parent.Some? {
        targets := targets + [OnComment(th.parent.value)];
        known := known + {th.parent.value};
      }
      assert known == if th.parent.Some? then {th.post, th.parent.value} else {th.post};
      ghost var first := targets;
      for i := 0 to |th.visible|
        invariant targets == first + Others(th.visible[..i], known)
      {
        assert th.visible[..i + 1][..i] == th.visible[..i];
        if th.visible[i] !in known {
          targets := targets + [OnComment(th.visible[i])];
        }
      }
      assert th.visible[..|th.visible|] == th.visible;
    }

    /** Every post with recent comments once, for the newest of them. */
    method RunRevivals(s: Setup, threads: seq<Thread>, downvotes: bool, dry: bool,
                       ghost cast: Caster, ghost store: Store, ghost start: Tick, ghost done: seq<Exposure>)
      requires Ballots(ledger.votes) && Casts(cast, s.now, downvotes, dry)
      requires (Stored(), View()) == TailPhase(s, done, store, start, cast)
      modifies this, ledger
      ensures Ballots(ledger.votes)
      ensures (Stored(), View()) == TailPhase(s, done + Revivals(s, threads), store, start, cast)
    {
      var seen: set<nat> := {};
      assert done + Revivals(s, threads[..0]) == done;
      for i := 0 to |threads|
        invariant Ballots(ledger.votes) && seen == PostsSeen(threads[..i])
        invariant (Stored(), View()) == TailPhase(s, done + Revivals(s, threads[..i]), store, start, cast)
      {
        var th := threads[i];
        RevivalsSnoc(s, threads, i, done);
        if th.post !in seen && th.found {
          var targets := TargetsOf(th);
          ExposeAll(s, FromThread(th.trigger), targets, downvotes, dry, cast, store, start,
                    done + Revivals(s, threads[..i]));
        }
        seen := seen + {th.post};
      }
      assert threads[..|threads|] == threads;
    }

    method RunTail(s: Setup, sample: TailSample, downvotes: bool, dry: bool, ghost cast: Caster)
      requires Ballots(ledger.votes) && Casts(cast, s.now, downvotes, dry)
      modifies this, ledger
      ensures (Stored(), View()) == TailPhase(s, Exposures(s, sample), old(Stored()), old(View()), cast)
      ensures Ballots(ledger.votes)
    {
      ghost var store, start := Stored(), View();
      ghost var archived := Exposed(s, FromArchive, Posts(sample.archive));
      assert [] + archived == archived;
      ExposeAll(s, FromArchive, Posts(sample.archive), downvotes, dry, cast, store, start, []);
      RunRevivals(s, sample.threads, downvotes, dry, cast, store, start, archived);
    }

    /** A whole tick on a fresh engine. */
    method RunWholeTick(s: Setup, cs: seq<Candidate>, sampler: Sampler, downvotes: bool, dry: bool)
      requires Ballots(ledger.votes) && View() == Start(recent)
      modifies this, ledger
      ensures (Stored(), View()) == RunTick(s, cs, sampler, old(Stored()), Casting(s.now, downvotes, dry))
    {
      ghost var cast := Casting(s.now, downvotes, dry);
      CastingCasts(s.now, downvotes, dry);
      RunActive(s, cs, downvotes, dry, cast);
      guards := recent;
      var sample := sampler(ledger.View());
      RunTail(s, sample, downvotes, dry, cast);
    }
  }
}
