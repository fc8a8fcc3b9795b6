/** What single steps of a tick mean, in terms of limits, caps, gaps, weights and votes, and that no step is lost:
    every due ordinal and every exposure is either decided on or counted as skipped. */
module SchedulerSteps {
  import opened Wrappers
  import opened Names
  import opened VoteLedger
  import opened VoterSelection
  import opened Scheduler
  import opened SchedulerSafety

  /// One due ordinal

  /** The tick with one more decision: it counts, and its voter has voted once more, and now. */
  function With(t: Tick, d: Decision, now: int): Tick {
    var votes := if d.voter in t.guards.hourly then t.guards.hourly[d.voter] else 0;
    Tick(t.decisions + [d], t.used + 1, t.skips,
         Guards(t.guards.hourly[d.voter := votes + 1], t.guards.latest[d.voter := now]))
  }

  /** The tick with one more skip on record. */
  function Counting(t: Tick, skip: Skip): Tick {
    t.(skips := t.skips[skip := (if skip in t.skips then t.skips[skip] else 0) + 1])
  }

  /** A due ordinal is decided on exactly if both limits leave room and some persona may vote; the decision is the
      winner's, in the direction of the item's rules. Otherwise one skip is counted, under the first of the
      grounds. */
  lemma AttemptMeans(s: Setup, x: Target, ordinal: int, existing: set<Name>, selected: set<Name>, t: Tick)
    returns (w: Name)
    ensures var after := Attempt(s, x, ordinal, existing, selected, t);
            var c := Contest(x, s.author(x), ordinal, existing + selected, s.now, s.active);
            if t.used >= s.global then after == Counting(t, GlobalLimit)
            else if |selected| >= s.perItem then after == Counting(t, ItemLimit)
            else if Anyone(c, t.guards, s.users) then
              Wins(c, t.guards, s.users, w)
              && after == With(t, Decision(x, ordinal, w, s.active.direction(x, w), Active), s.now)
            else after == Counting(t, Blocked(c, t.guards, s.users))
  {
    w := RaceMeans(Contest(x, s.author(x), ordinal, existing + selected, s.now, s.active), t.guards, s.users);
  }

  predicate Anyone(c: Contest, g: Guards, users: seq<Name>) {
    exists u :: u in users && MayVote(c, g, u)
  }

  lemma RaceMeans(c: Contest, g: Guards, users: seq<Name>) returns (w: Name)
    ensures if Anyone(c, g, users) then Choose(c, g, users) == Some(w) && Wins(c, g, users, w)
            else Choose(c, g, users) == None && SkipReason(Reasons(c, g, users)) == Blocked(c, g, users)
  {
    w := "";
    ChoiceMeans(c, g, users);
    if Choose(c, g, users).None? {
      SkipMeans(c, g, users);
    } else {
      w := Choose(c, g, users).value;
    }
  }

  /** What is counted when nobody may vote: that all are at their cap, that all voted too recently, or neither. */
  function Blocked(c: Contest, g: Guards, users: seq<Name>): Skip {
    if users != [] && forall u :: u in users ==> Neutral(c, u) && !UnderCap(c, g, u) then CapSkip
    else if users != [] && forall u :: u in users ==> Neutral(c, u) && UnderCap(c, g, u) && !Rested(c, g, u)
    then MinGapSkip
    else NoVoter
  }

  /// One exposure

  /** The decisions on an item, by position. */
  function On(ds: seq<Decision>, x: Target): set<nat> {
    set i | 0 <= i < |ds| && ds[i].target == x
  }

  lemma {:induction false} CountOnMeans(ds: seq<Decision>, x: Target)
    ensures CountOn(ds, x) == |On(ds, x)|
  {
    if ds == [] {
      assert On(ds, x) == {};
    } else {
      var n := |ds| - 1;
      CountOnMeans(ds[..n], x);
      assert On(ds, x) == On(ds[..n], x) + if ds[n].target == x then {n} else {};
    }
  }

  /** The item holds a simulated vote. */
  predicate Simulations(votes: map<Key, Ballot>, x: Target) {
    exists k :: k in votes && k.target == x && votes[k].source == Simulated
  }

  lemma SimulationsAre(votes: map<Key, Ballot>, x: Target)
    ensures Simulations(votes, x) <==> SimulatedOn(votes, x) != {}
  {
    if k :| k in votes && k.target == x && votes[k].source == Simulated {
      assert k in SimulatedOn(votes, x);
    }
    if k :| k in SimulatedOn(votes, x) {
      assert k in votes;
    }
  }

  /** An exposure becomes a decision only if the item has room left in this tick, the exposure is noticed, the tick
      has room left, and the item holds no simulated vote. Otherwise one skip is counted, under the first of the
      grounds. */
  lemma OpportunityGates(s: Setup, e: Exposure, votes: map<Key, Ballot>, t: Tick)
    ensures var after := Opportunity(s, e, votes, t);
            && (|On(t.decisions, e.target)| >= s.perItem ==> after == Counting(t, ItemLimit))
            && (|On(t.decisions, e.target)| < s.perItem && !e.noticed ==> after == Counting(t, TailProbability))
            && (|On(t.decisions, e.target)| < s.perItem && e.noticed && t.used >= s.global ==>
                  after == Counting(t, GlobalLimit))
            && (|On(t.decisions, e.target)| < s.perItem && e.noticed && t.used < s.global ==>
                  Simulations(votes, e.target) ==> after == Counting(t, PriorVoterSkip))
  {
    CountOnMeans(t.decisions, e.target);
    SimulationsAre(votes, e.target);
  }

  /** Then it does so exactly if the winner of the tail's race has not voted on the item, in the direction of the
      tail's rules. */
  lemma OpportunityRace(s: Setup, e: Exposure, votes: map<Key, Ballot>, t: Tick) returns (w: Name)
    requires e.mode != Active && |On(t.decisions, e.target)| < s.perItem && e.noticed && t.used < s.global
    requires !Simulations(votes, e.target)
    ensures var after := Opportunity(s, e, votes, t);
            var c := Contest(e.target, s.author(e.target), e.ordinal, {}, s.now, s.tail);
            if Anyone(c, t.guards, s.users) then
              Wins(c, t.guards, s.users, w)
              && after == if Key(Voter(w), e.target) in votes then Counting(t, PriorVoterSkip)
                          else With(t, Decision(e.target, e.ordinal, w, s.tail.direction(e.target, w), e.mode), s.now)
            else after == Counting(t, Blocked(c, t.guards, s.users))
  {
    w := RaceMeans(Contest(e.target, s.author(e.target), e.ordinal, {}, s.now, s.tail), t.guards, s.users);
    CountOnMeans(t.decisions, e.target);
    SimulationsAre(votes, e.target);
    VotedKey(votes, e.target, w);
  }

  lemma VotedKey(votes: map<Key, Ballot>, x: Target, name: Name)
    ensures name in VotersOn(votes, x) <==> Key(Voter(name), x) in votes
  {
  }

  /// Nothing is lost

  function SkipsFor(t: Tick, skip: Skip): nat {
    if skip in t.skips then t.skips[skip] else 0
  }

  /** All skips so far. */
  function Skips(t: Tick): nat {
    SkipsFor(t, GlobalLimit) + SkipsFor(t, ItemLimit) + SkipsFor(t, CapSkip) + SkipsFor(t, MinGapSkip)
    + SkipsFor(t, NoVoter) + SkipsFor(t, PriorVoterSkip) + SkipsFor(t, TailProbability)
  }

  /** Decisions and skips together. */
  function Handled(t: Tick): nat {
    |t.decisions| + Skips(t)
  }

  lemma CountedOnce(t: Tick, skip: Skip)
    ensures Handled(Skipped(t, skip)) == Handled(t) + 1
  {
  }

  lemma {:induction false} OrdinalsHandled(try: Trier, s: Setup, x: Target, existing: set<Name>, from: nat, due: nat,
                                           selected: set<Name>, t: Tick)
    requires Tries(try, s, x, existing)
    ensures Handled(Ordinals(try, from, due, selected, t)) == Handled(t) + if from > due then 0 else due + 1 - from
    decreases due + 1 - from
  {
    if from > due {
    } else {
      var after := try(from, selected, t);
      assert after == Attempt(s, x, from, existing, selected, t);
      AttemptHandled(s, x, from, existing, selected, t);
      OrdinalsHandled(try, s, x, existing, from + 1, due, SelectedBy(t, after, selected), after);
    }
  }

  lemma AttemptHandled(s: Setup, x: Target, ordinal: nat, existing: set<Name>, selected: set<Name>, t: Tick)
    ensures Handled(Attempt(s, x, ordinal, existing, selected, t)) == Handled(t) + 1
  {
    var c := ContestFor(s, Active, x, ordinal, existing + selected);
    CountedOnce(t, GlobalLimit);
    CountedOnce(t, ItemLimit);
    CountedOnce(t, SkipReason(Reasons(c, t.guards, s.users)));
  }

  /** An item's visit handles exactly the ordinals that are due and not yet held. */
  lemma VisitHandles(s: Setup, c: Candidate, votes: map<Key, Ballot>, t: Tick)
    ensures var held := |set k | k in votes && k.target == c.target && votes[k].source == Simulated|;
            Handled(Visit(s, c, votes, t)) == Handled(t) + if DueNow(s, c) > held then DueNow(s, c) - held else 0
  {
    var existing := VotersOn(votes, c.target);
    TryingTries(s, c.target, existing);
    OrdinalsHandled(Trying(s, c.target, existing), s, c.target, existing, |SimulatedOn(votes, c.target)| + 1,
                    DueNow(s, c), {}, t);
  }

  /** Either a decision or a skip. */
  lemma OpportunityResult(s: Setup, e: Exposure, votes: map<Key, Ballot>, t: Tick) returns (skip: Option<Skip>)
    ensures var after := Opportunity(s, e, votes, t);
            if skip.Some? then after == Skipped(t, skip.value)
            else |after.decisions| == |t.decisions| + 1 && after.skips == t.skips
  {
    var c := ContestFor(s, e.mode, e.target, e.ordinal, {});
    skip := if CountOn(t.decisions, e.target) >= s.perItem then Some(ItemLimit)
            else if !e.noticed then Some(TailProbability)
            else if t.used >= s.global then Some(GlobalLimit)
            else if SimulatedOn(votes, e.target) != {} then Some(PriorVoterSkip)
            else if Choose(c, t.guards, s.users).None? then Some(SkipReason(Reasons(c, t.guards, s.users)))
            else if Choose(c, t.guards, s.users).value in VotersOn(votes, e.target) then Some(PriorVoterSkip)
            else None;
  }

  lemma OpportunityHandled(s: Setup, e: Exposure, votes: map<Key, Ballot>, t: Tick)
    ensures Handled(Opportunity(s, e, votes, t)) == Handled(t) + 1
  {
    var skip := OpportunityResult(s, e, votes, t);
    if skip.Some? {
      CountedOnce(t, skip.value);
    }
  }

  /** A tail handles every exposure. */
  lemma {:induction false} TailHandles(s: Setup, es: seq<Exposure>, store: Store, t: Tick, cast: Caster)
    ensures Handled(TailPhase(s, es, store, t, cast).1) == Handled(t) + |es|
  {
    if es == [] {
    } else {
      TailHandles(s, es[..|es| - 1], store, t, cast);
      var (store1, t1) := TailPhase(s, es[..|es| - 1], store, t, cast);
      OpportunityHandled(s, es[|es| - 1], store1.db.votes, t1);
    }
  }

  /// What is looked at

  /** Of a thread: its post first, then its parent; a comment is looked at exactly if it is the parent, or visible
      and does not share its id with the post. */
  lemma ThreadTargetsMean(th: Thread, c: nat)
    ensures ThreadTargets(th)[0] == OnPost(th.post)
    ensures th.parent.Some? ==> |ThreadTargets(th)| > 1 && ThreadTargets(th)[1] == OnComment(th.parent.value)
    ensures OnComment(c) in ThreadTargets(th) <==> th.parent == Some(c) || (c in th.visible && c != th.post)
    ensures forall p :: OnPost(p) in ThreadTargets(th) <==> p == th.post
  {
    OthersMean(th.visible, {th.post}, c);
    if th.parent.Some? {
      OthersMean(th.visible, {th.post, th.parent.value}, c);
    }
  }

  lemma {:induction false} OthersMean(ids: seq<nat>, known: set<nat>, c: nat)
    ensures OnComment(c) in Others(ids, known) <==> c in ids && c !in known
    ensures forall p :: OnPost(p) !in Others(ids, known)
  {
    if ids == [] {
    } else {
      OthersMean(ids[..|ids| - 1], known, c);
    }
  }

  /** A revived thread is looked at exactly if its post exists and no newer comment has revived it: then with the
      ordinals and draws of its own trigger, item by item. */
  lemma {:induction false} RevivalsMean(s: Setup, threads: seq<Thread>, e: Exposure)
    ensures e in Revivals(s, threads) <==> exists i :: 0 <= i < |threads| && FromIndex(s, threads, i, e)
  {
    if threads == [] {
    } else {
      var n := |threads| - 1;
      var front, th := threads[..n], threads[n];
      RevivalsMean(s, front, e);
      forall i | 0 <= i < n
        ensures FromIndex(s, front, i, e) <==> FromIndex(s, threads, i, e)
      {
        assert forall j :: 0 <= j <= i ==> front[j] == threads[j];
      }
      assert th.post in PostsSeen(front) <==> exists j :: 0 <= j < n && threads[j].post == th.post by {
        assert forall j :: 0 <= j < n ==> front[j] == threads[j];
      }
      ExposedMeans(s, th, e);
      assert FromIndex(s, threads, n, e) <==> th.found && th.post !in PostsSeen(front) && FromThis(s, th, e);
    }
  }

  predicate FromIndex(s: Setup, threads: seq<Thread>, i: nat, e: Exposure)
    requires i < |threads|
  {
    && threads[i].found && (forall j :: 0 <= j < i ==> threads[j].post != threads[i].post)
    && FromThis(s, threads[i], e)
  }

  /** The look at an item of the thread, with the ordinal and the draw of the thread's own trigger. */
  predicate FromThis(s: Setup, th: Thread, e: Exposure) {
    && e.target in ThreadTargets(th) && e.mode == Revival
    && e.ordinal == s.ordinal(FromThread(th.trigger), e.target)
    && e.noticed == s.noticed(FromThread(th.trigger), e.target)
  }

  lemma ExposedMeans(s: Setup, th: Thread, e: Exposure)
    ensures e in Exposed(s, FromThread(th.trigger), ThreadTargets(th)) <==> FromThis(s, th, e)
  {
    var xs := ThreadTargets(th);
    var es := Exposed(s, FromThread(th.trigger), xs);
    if FromThis(s, th, e) {
      var j :| 0 <= j < |xs| && xs[j] == e.target;
      assert es[j] == e;
    }
  }
}
