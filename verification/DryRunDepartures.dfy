/** Ticks in which a dry run departs from the live one, one for each of the three causes: an item looked at
    twice, guards read again, and a sample that the tick's own votes move. */
module DryRunDepartures {
  import opened Names
  import opened Wrappers
  import opened VoteLedger
  import opened VoterSelection
  import opened Scheduler
  import opened SchedulerSafety
  import opened SchedulerTail
  import Cadence

  /** Every item by author "a" with one vote planned for it, posts always noticed, ordinals that tell a thread
      from the archive, upvotes only, no gap, and two votes an hour for everyone. */
  function Small(users: seq<Name>, key: (Target, int, Name) -> real, exp2: Cadence.Real2Real): Setup {
    var rules := Rules((x: Target) => 0, (x: Target, n: Name) => 2, (x: Target, n: Name) => 1.0, key,
                       (x: Target, n: Name) => 1);
    Setup(users, (x: Target) => "a", 0, (x: Target) => Plan(1.0, 1, 1, Cadence.Section(1.0, 1.0)), exp2, rules, rules,
          (o: Origin, x: Target) => x.OnPost?, (o: Origin, x: Target) => if o.FromArchive? then 5 else 9, 2, 4)
  }

  /** Posts 0 and 1, comments 1 and 2 under post 0, nobody has voted. */
  function Quiet(): Store {
    var item := Item("a", 0, None, 0, 0);
    Store(Db(map[OnPost(0) := item, OnPost(1) := item.(thread := 1), OnComment(1) := item, OnComment(2) := item],
             map["a" := User(0, 0), "p" := User(0, 0), "q" := User(0, 0)], map[]),
          Guards(map[], map[]))
  }

  /** Somebody is free to vote, so the exposure becomes a decision. */
  lemma LookDecides(s: Setup, e: Exposure, votes: map<Key, Ballot>, t: Tick, u: Name) returns (w: Name)
    requires Open(s, e, votes, t) && VotersOn(votes, e.target) == {}
    requires u in s.users && Why(ContestFor(s, e.mode, e.target, e.ordinal, {}), t.guards, u).None?
    ensures Opportunity(s, e, votes, t) == Decided(s, t, e.target, e.ordinal, w, e.mode) && w in s.users
  {
    ChosenIsBest(ContestFor(s, e.mode, e.target, e.ordinal, {}), t.guards, s.users, u);
    OpportunityDecides(s, e, votes, t);
    w := Winner(s, e, t.guards, {}).value;
  }

  function RepeatedLooks(): seq<Exposure> {
    [Exposure(OnPost(0), Archive, 5, true), Exposure(OnPost(0), Revival, 9, true),
     Exposure(OnComment(2), Revival, 9, false)]
  }

  /** Comment 2 revives post 0, which the archive has drawn as well. */
  lemma SampledTwice(key: (Target, int, Name) -> real, exp2: Cadence.Real2Real)
    ensures Exposures(Small(["p", "q"], key, exp2), TailSample([0], [Thread(2, 0, true, None, [2])])) == RepeatedLooks()
  {
    var s, th := Small(["p", "q"], key, exp2), Thread(2, 0, true, None, [2]);
    assert Others([], {0}) == [] && [2][..0] == [] && [th][..0] == [];
    assert Others([2], {0}) == [OnComment(2)];
    assert ThreadTargets(th) == [OnPost(0), OnComment(2)];
    assert Exposed(s, FromThread(2), [OnPost(0), OnComment(2)]) == RepeatedLooks()[1..];
    assert Exposed(s, FromArchive, Posts([0])) == RepeatedLooks()[..1];
    assert Revivals(s, []) == [];
    assert PostsSeen([th][..0]) == {};
    assert Revivals(s, [th]) == RepeatedLooks()[1..];
  }

  /** An exposure nobody notices changes no decision. */
  lemma ThirdLook(s: Setup, votes: map<Key, Ballot>, t: Tick)
    ensures Opportunity(s, RepeatedLooks()[2], votes, t).decisions == t.decisions
  {
    OpportunityDecides(s, RepeatedLooks()[2], votes, t);
  }

  lemma TailOfThree(s: Setup, es: seq<Exposure>, store: Store, t: Tick, cast: Caster)
    requires |es| == 3
    ensures var t1 := Opportunity(s, es[0], store.db.votes, t);
            var store1 := After(cast, store, t, t1);
            var t2 := Opportunity(s, es[1], store1.db.votes, t1);
            TailPhase(s, es, store, t, cast).1 == Opportunity(s, es[2], After(cast, store1, t1, t2).db.votes, t2)
  {
    TailSnoc(s, [], es[0], store, t, cast);
    TailSnoc(s, [es[0]], es[1], store, t, cast);
    TailSnoc(s, [es[0], es[1]], es[2], store, t, cast);
    assert [] + [es[0]] == [es[0]] && [es[0]] + [es[1]] == [es[0], es[1]];
    assert [es[0], es[1]] + [es[2]] == es;
  }

  lemma FirstLook(key: (Target, int, Name) -> real, exp2: Cadence.Real2Real) returns (d: Decision, t: Tick)
    ensures var s := Small(["p", "q"], key, exp2);
            && t == Opportunity(s, RepeatedLooks()[0], map[], Start(Quiet().recent))
            && t == Decided(s, Start(Quiet().recent), OnPost(0), 5, d.voter, Archive)
            && t.decisions == [d] && d == Decision(OnPost(0), 5, d.voter, 1, Archive) && d.voter in {"p", "q"}
  {
    var s := Small(["p", "q"], key, exp2);
    var w := LookDecides(s, RepeatedLooks()[0], map[], Start(Quiet().recent), "p");
    d := Decision(OnPost(0), 5, w, 1, Archive);
    t := Opportunity(s, RepeatedLooks()[0], map[], Start(Quiet().recent));
  }

  /** Live, the first vote has landed, so the second look passes the post over. */
  lemma LiveSecondLook(s: Setup, d: Decision, t: Tick)
    requires d == Decision(OnPost(0), 5, d.voter, 1, Archive) && d.voter in {"p", "q"}
    ensures Opportunity(s, RepeatedLooks()[1], CastOne(Quiet(), d, 0, true).db.votes, t).decisions == t.decisions
  {
    CastLands(Quiet(), d, 0, true);
    var votes := CastOne(Quiet(), d, 0, true).db.votes;
    assert KeyOf(d) in SimulatedOn(votes, OnPost(0));
    OpportunityDecides(s, RepeatedLooks()[1], votes, t);
  }

  /** Dry, nothing landed, and the other persona is free. */
  lemma DrySecondLook(key: (Target, int, Name) -> real, exp2: Cadence.Real2Real, d: Decision, t: Tick)
    requires var s := Small(["p", "q"], key, exp2);
             t == Decided(s, Start(Quiet().recent), OnPost(0), 5, d.voter, Archive) && t.decisions == [d]
    requires d.target == OnPost(0) && d.voter in {"p", "q"}
    ensures |Opportunity(Small(["p", "q"], key, exp2), RepeatedLooks()[1], map[], t).decisions| == 2
  {
    var other := if d.voter == "p" then "q" else "p";
    assert [d][..0] == [];
    var w := LookDecides(Small(["p", "q"], key, exp2), RepeatedLooks()[1], map[], t, other);
  }

  /** A post looked at from the archive and as revived: live, the first vote closes it; a dry run, which leaves
      no vote behind, decides on it again. */
  lemma RepeatedLookDiffers(key: (Target, int, Name) -> real, exp2: Cadence.Real2Real)
    ensures var s, store := Small(["p", "q"], key, exp2), Quiet();
            var sampler := (db: Db) => TailSample([0], [Thread(2, 0, true, None, [2])]);
            && |RunTick(s, [], sampler, store, Casting(0, true, false)).1.decisions| == 1
            && |RunTick(s, [], sampler, store, Casting(0, true, true)).1.decisions| == 2
  {
    var s, store, es := Small(["p", "q"], key, exp2), Quiet(), RepeatedLooks();
    var live, dry, start := Casting(0, true, false), Casting(0, true, true), Start(Quiet().recent);
    SampledTwice(key, exp2);
    var d, t := FirstLook(key, exp2);
    TailOfThree(s, es, store, start, live);
    TailOfThree(s, es, store, start, dry);
    AfterOne(live, store, start, t, d);
    AfterOne(dry, store, start, t, d);
    LiveSecondLook(s, d, t);
    DrySecondLook(key, exp2, d, t);
    var liveThen, dryThen := Opportunity(s, es[1], live(store, d).db.votes, t), Opportunity(s, es[1], map[], t);
    ThirdLook(s, After(live, live(store, d), t, liveThen).db.votes, liveThen);
    ThirdLook(s, After(dry, store, t, dryThen).db.votes, dryThen);
  }

  lemma OneIsDue(key: (Target, int, Name) -> real, exp2: Cadence.Real2Real, log2: Cadence.Real2Real, x: Target)
    requires Cadence.InversePair(exp2, log2)
    ensures DueNow(Small(["p"], key, exp2), Candidate(x, 1.0)) == 1
  {
    Cadence.WindowElapses(Cadence.Section(1.0, 1.0), exp2, log2);
  }

  function FirstVote(x: Target): Decision {
    Decision(x, 1, "p", 1, Active)
  }

  function Voted(key: (Target, int, Name) -> real, exp2: Cadence.Real2Real, x: Target): Tick {
    Decided(Small(["p"], key, exp2), Start(Quiet().recent), x, 1, "p", Active)
  }

  lemma OneAttempt(key: (Target, int, Name) -> real, exp2: Cadence.Real2Real, x: Target)
    ensures Attempt(Small(["p"], key, exp2), x, 1, {}, {}, Start(Quiet().recent)) == Voted(key, exp2, x)
  {
    var s := Small(["p"], key, exp2);
    var c, g := ContestFor(s, Active, x, 1, {} + {}), Quiet().recent;
    assert Why(c, g, "p").None?;
    ChosenIsBest(c, g, s.users, "p");
  }

  /** The only persona takes the one vote due. */
  lemma OneVisit(key: (Target, int, Name) -> real, exp2: Cadence.Real2Real, log2: Cadence.Real2Real, x: Target)
    requires Cadence.InversePair(exp2, log2)
    ensures Visit(Small(["p"], key, exp2), Candidate(x, 1.0), map[], Start(Quiet().recent)) == Voted(key, exp2, x)
  {
    var s, t := Small(["p"], key, exp2), Start(Quiet().recent);
    assert VotersOn(map[], x) == {} && SimulatedOn(map[], x) == {};
    OneIsDue(key, exp2, log2, x);
    OneAttempt(key, exp2, x);
    var try := Trying(s, x, {});
    TryingTries(s, x, {});
    assert try(1, {}, t) == Attempt(s, x, 1, {}, {}, t);
    assert Ordinals(try, 2, 1, SelectedBy(t, Voted(key, exp2, x), {}), Voted(key, exp2, x)) == Voted(key, exp2, x);
  }

  lemma OneActive(key: (Target, int, Name) -> real, exp2: Cadence.Real2Real, log2: Cadence.Real2Real, x: Target,
                  cast: Caster)
    requires Cadence.InversePair(exp2, log2)
    ensures ActivePhase(Small(["p"], key, exp2), [Candidate(x, 1.0)], Quiet(), Start(Quiet().recent), cast)
            == (cast(Quiet(), FirstVote(x)), Voted(key, exp2, x))
    ensures Voted(key, exp2, x).decisions == [FirstVote(x)]
  {
    var s, start, cs := Small(["p"], key, exp2), Start(Quiet().recent), [Candidate(x, 1.0)];
    OneVisit(key, exp2, log2, x);
    assert cs[..0] == [];
    assert ActivePhase(s, [], Quiet(), start, cast) == (Quiet(), start);
    AfterOne(cast, Quiet(), start, Voted(key, exp2, x), FirstVote(x));
  }

  /** Another post, looked at by the persona that votes on post 0 in the active phase. */
  function OtherPost(): Exposure {
    Exposure(OnPost(1), Archive, 5, true)
  }

  lemma SampledOther(key: (Target, int, Name) -> real, exp2: Cadence.Real2Real)
    ensures Exposures(Small(["p"], key, exp2), TailSample([1], [])) == [OtherPost()]
  {
    assert Revivals(Small(["p"], key, exp2), []) == [];
  }

  lemma OneLook(s: Setup, e: Exposure, store: Store, t: Tick, cast: Caster)
    ensures TailPhase(s, [e], store, t, cast).1 == Opportunity(s, e, store.db.votes, t)
  {
    TailSnoc(s, [], e, store, t, cast);
    assert [] + [e] == [e];
  }

  /** Live, the guards read again know of the vote. */
  lemma LiveIsTooSoon(key: (Target, int, Name) -> real, exp2: Cadence.Real2Real, votes: map<Key, Ballot>, g: Guards)
    requires g == Claimed(Quiet().recent, "p", 0)
    ensures Opportunity(Small(["p"], key, exp2), OtherPost(), votes,
                        Voted(key, exp2, OnPost(0)).(guards := g)).decisions
            == Voted(key, exp2, OnPost(0)).decisions
  {
    var s, t := Small(["p"], key, exp2), Voted(key, exp2, OnPost(0)).(guards := g);
    var c := ContestFor(s, Archive, OnPost(1), 5, {});
    assert Why(c, g, "p") == Some(TooSoon);
    if Choose(c, g, s.users).Some? {
      ChosenIsBest(c, g, s.users, "p");
      assert false;
    }
    OpportunityDecides(s, OtherPost(), votes, t);
  }

  /** Dry, they do not. */
  lemma DryIsFree(key: (Target, int, Name) -> real, exp2: Cadence.Real2Real)
    ensures |Opportunity(Small(["p"], key, exp2), OtherPost(), map[],
                         Voted(key, exp2, OnPost(0)).(guards := Quiet().recent)).decisions| == 2
  {
    var t := Voted(key, exp2, OnPost(0)).(guards := Quiet().recent);
    assert t.decisions == [FirstVote(OnPost(0))];
    assert t.decisions[..0] == [];
    var w := LookDecides(Small(["p"], key, exp2), OtherPost(), map[], t, "p");
  }

  /** One persona, who votes on post 0 in the active phase, and a look at post 1, which nobody has voted on:
      live, the guards read again rule the persona out; a dry run lets it vote. */
  lemma RereadGuardsDiffer(key: (Target, int, Name) -> real, exp2: Cadence.Real2Real, log2: Cadence.Real2Real)
    requires Cadence.InversePair(exp2, log2)
    ensures var s, store, cs := Small(["p"], key, exp2), Quiet(), [Candidate(OnPost(0), 1.0)];
            var sampler := (db: Db) => TailSample([1], []);
            && |RunTick(s, cs, sampler, store, Casting(0, true, false)).1.decisions| == 1
            && |RunTick(s, cs, sampler, store, Casting(0, true, true)).1.decisions| == 2
  {
    var s, live, dry := Small(["p"], key, exp2), Casting(0, true, false), Casting(0, true, true);
    var t, d := Voted(key, exp2, OnPost(0)), FirstVote(OnPost(0));
    OneActive(key, exp2, log2, OnPost(0), live);
    OneActive(key, exp2, log2, OnPost(0), dry);
    SampledOther(key, exp2);
    CastLands(Quiet(), d, 0, true);
    var after := live(Quiet(), d);
    OneLook(s, OtherPost(), after, t.(guards := after.recent), live);
    OneLook(s, OtherPost(), Quiet(), t.(guards := Quiet().recent), dry);
    LiveIsTooSoon(key, exp2, after.db.votes, after.recent);
    DryIsFree(key, exp2);
  }

  /** Of the two comments under post 0 only the better one is visible, the later one at equal scores. */
  function BestComment(db: Db): TailSample {
    var best := if Score(db.items, OnComment(1)) > Score(db.items, OnComment(2)) then 1 else 2;
    TailSample([], [Thread(2, 0, true, None, [best])])
  }

  /** One vote on comment 1 brings it in front of comment 2: the live tail looks at another comment. */
  lemma SampleMoves(key: (Target, int, Name) -> real, exp2: Cadence.Real2Real, log2: Cadence.Real2Real)
    requires Cadence.InversePair(exp2, log2)
    ensures !SampleStays(Small(["p"], key, exp2), [Candidate(OnComment(1), 1.0)], BestComment, Quiet(), true)
  {
    var s, d := Small(["p"], key, exp2), FirstVote(OnComment(1));
    var live := Casting(0, true, false);
    OneActive(key, exp2, log2, OnComment(1), live);
    CastInserts(Quiet().db, d, true);
    var after := live(Quiet(), d);
    assert after.db.items[OnComment(1)].score == 1 && after.db.items[OnComment(2)].score == 0;
    VisibleThen(s, 1);
    VisibleThen(s, 2);
  }

  lemma VisibleThen(s: Setup, id: nat)
    requires id != 0
    ensures var es := Exposures(s, TailSample([], [Thread(2, 0, true, None, [id])]));
            |es| == 2 && es[1].target == OnComment(id)
  {
    var th := Thread(2, 0, true, None, [id]);
    assert [id][..0] == [] && [th][..0] == [];
    assert Others([id], {0}) == [OnComment(id)];
    assert Revivals(s, []) == [];
    assert PostsSeen([th][..0]) == {};
  }
}
