/** Choosing a voter for one due vote: who is ruled out, and who wins the weighted race among the rest. */
module VoterSelection {
  import opened Wrappers
  import opened Names
  import opened VoteLedger

  /** How many votes each persona cast within the hour, and when it last did. */
  datatype Guards = Guards(hourly: map<Name, nat>, latest: map<Name, int>)

  /** What a cadence policy says of an item: the least gap between a persona's votes, the hourly cap of each
      persona, the affinity weight, the exponential-race key and the direction, any pure functions. */
  datatype Rules = Rules(gap: Target -> nat, cap: (Target, Name) -> nat, weight: (Target, Name) -> real,
                         key: (Target, int, Name) -> real, direction: (Target, Name) -> int)

  datatype Contest = Contest(target: Target, author: Name, ordinal: int, claimed: set<Name>, now: int, rules: Rules)

  datatype Reason = Author | PriorVoter | AtCap | TooSoon | Disabled

  datatype Skip = GlobalLimit | ItemLimit | CapSkip | MinGapSkip | NoVoter | PriorVoterSkip | TailProbability

  function HourlyCount(g: Guards, name: Name): nat {
    if name in g.hourly then g.hourly[name] else 0
  }

  /** Why a persona may not take part; none if it may. */
  function Why(c: Contest, g: Guards, name: Name): Option<Reason> {
    if name == c.author then Some(Author)
    else if name in c.claimed then Some(PriorVoter)
    else if c.rules.cap(c.target, name) == 0 || HourlyCount(g, name) >= c.rules.cap(c.target, name) then Some(AtCap)
    else if name in g.latest && g.latest[name] >= c.now - c.rules.gap(c.target) then Some(TooSoon)
    else if c.rules.weight(c.target, name) <= 0.0 then Some(Disabled)
    else None
  }

  function Pool(c: Contest, g: Guards, users: seq<Name>): seq<Name> {
    if users == [] then []
    else
      var last := users[|users| - 1];
      Pool(c, g, users[..|users| - 1]) + if Why(c, g, last).None? then [last] else []
  }

  function Reasons(c: Contest, g: Guards, users: seq<Name>): seq<Reason> {
    if users == [] then []
    else
      var why := Why(c, g, users[|users| - 1]);
      Reasons(c, g, users[..|users| - 1]) + if why.Some? then [why.value] else []
  }

  predicate Beats(c: Contest, a: Name, b: Name) {
    var ka, kb := c.rules.key(c.target, c.ordinal, a), c.rules.key(c.target, c.ordinal, b);
    ka < kb || (ka == kb && a != b && AtMost(a, b))
  }

  function Best(c: Contest, pool: seq<Name>): Option<Name> {
    if pool == [] then None
    else
      var best, last := Best(c, pool[..|pool| - 1]), pool[|pool| - 1];
      if best.None? || Beats(c, last, best.value) then Some(last) else best
  }

  function Choose(c: Contest, g: Guards, users: seq<Name>): Option<Name> {
    Best(c, Pool(c, g, users))
  }

  /** With nobody to choose: the one reason everybody shares, if it is a cap or a gap. */
  function SkipReason(reasons: seq<Reason>): Skip {
    if reasons != [] && forall i :: 0 <= i < |reasons| ==> reasons[i] == AtCap then CapSkip
    else if reasons != [] && forall i :: 0 <= i < |reasons| ==> reasons[i] == TooSoon then MinGapSkip
    else NoVoter
  }

  method SelectVoter(c: Contest, g: Guards, users: seq<Name>) returns (voter: Option<Name>, skip: Skip)
    ensures voter == Choose(c, g, users)
    ensures voter.None? ==> skip == SkipReason(Reasons(c, g, users)) && Pool(c, g, users) == []
  {
    var pool: seq<Name> := [];
    var reasons: seq<Reason> := [];
    for i := 0 to |users|
      invariant pool == Pool(c, g, users[..i]) && reasons == Reasons(c, g, users[..i])
    {
      assert users[..i + 1][..i] == users[..i];
      var why := Why(c, g, users[i]);
      if why.Some? {
        reasons := reasons + [why.value];
      } else {
        pool := pool + [users[i]];
      }
    }
    assert users[..|users|] == users;
    voter := None;
    skip := SkipReason(reasons);
    for i := 0 to |pool|
      invariant voter == Best(c, pool[..i])
      invariant i > 0 ==> voter.Some?
    {
      assert pool[..i + 1][..i] == pool[..i];
      if voter.None? || Beats(c, pool[i], voter.value) {
        voter := Some(pool[i]);
      }
    }
    assert pool[..|pool|] == pool;
  }

  /** With an empty pool there is one reason for each persona. */
  lemma {:induction false} ReasonsAre(c: Contest, g: Guards, users: seq<Name>)
    requires Pool(c, g, users) == []
    ensures |Reasons(c, g, users)| == |users|
    ensures forall i :: 0 <= i < |users| ==> Why(c, g, users[i]) == Some(Reasons(c, g, users)[i])
  {
    if users == [] {
    } else {
      ReasonsAre(c, g, users[..|users| - 1]);
    }
  }

  /** What is counted when nobody can be chosen: one name for all being at their cap, one for all having voted
      too recently, and one for every mixture. */
  lemma SkipMeans(c: Contest, g: Guards, users: seq<Name>)
    requires Pool(c, g, users) == []
    ensures var skip := SkipReason(Reasons(c, g, users));
            && (skip == CapSkip <==> users != [] && forall u :: u in users ==> Neutral(c, u) && !UnderCap(c, g, u))
            && (skip == MinGapSkip
                <==> users != [] && forall u :: u in users ==>
                                                  Neutral(c, u) && UnderCap(c, g, u) && !Rested(c, g, u))
            && skip in {CapSkip, MinGapSkip, NoVoter}
  {
    ReasonsAre(c, g, users);
    forall u | u in users
      ensures exists i :: 0 <= i < |users| && users[i] == u && Why(c, g, u) == Some(Reasons(c, g, users)[i])
    {
      var i :| 0 <= i < |users| && users[i] == u;
      assert Why(c, g, users[i]) == Some(Reasons(c, g, users)[i]);
    }
    forall i | 0 <= i < |users|
      ensures users[i] in users
      ensures Reasons(c, g, users)[i] == AtCap <==> Neutral(c, users[i]) && !UnderCap(c, g, users[i])
      ensures Reasons(c, g, users)[i] == TooSoon
              <==> Neutral(c, users[i]) && UnderCap(c, g, users[i]) && !Rested(c, g, users[i])
    {
      WhyMeans(c, g, users[i]);
    }
  }

  lemma BeatsChain(c: Contest, x: Name, y: Name, z: Name)
    requires Beats(c, x, y) && !Beats(c, z, y)
    ensures !Beats(c, z, x)
  {
    if Beats(c, z, x) {
      if c.rules.key(c.target, c.ordinal, z) == c.rules.key(c.target, c.ordinal, y) {
        NamesChain(z, x, y);
        NamesOrdered(x, y);
      }
    }
  }

  lemma {:induction false} BestWins(c: Contest, pool: seq<Name>, u: Name)
    requires u in pool
    ensures Best(c, pool).Some? && Best(c, pool).value in pool && !Beats(c, u, Best(c, pool).value)
  {
    var front, last := pool[..|pool| - 1], pool[|pool| - 1];
    assert u in front || u == last;
    if front == [] {
    } else {
      var other := if u in front then u else front[0];
      BestWins(c, front, other);
      var best := Best(c, front).value;
      if Beats(c, last, best) && u in front { BeatsChain(c, last, best, u); }
      assert u == last && !Beats(c, last, best) ==> Best(c, pool).value == best;
    }
    if u == last && Beats(c, last, last) {
      assert false;
    }
  }

  lemma {:induction false} PoolMembers(c: Contest, g: Guards, users: seq<Name>, u: Name)
    ensures u in Pool(c, g, users) <==> u in users && Why(c, g, u).None?
  {
    if users == [] {
    } else {
      PoolMembers(c, g, users[..|users| - 1], u);
      assert u in users <==> u in users[..|users| - 1] || u == users[|users| - 1];
    }
  }

  /** Someone is chosen exactly when someone may take part; the chosen one may, and nobody who may beats
      them. */
  lemma ChosenIsBest(c: Contest, g: Guards, users: seq<Name>, u: Name)
    ensures Choose(c, g, users).Some? ==>
              Choose(c, g, users).value in users && Why(c, g, Choose(c, g, users).value).None?
    ensures u in users && Why(c, g, u).None? ==>
              Choose(c, g, users).Some? && !Beats(c, u, Choose(c, g, users).value)
  {
    var pool := Pool(c, g, users);
    PoolMembers(c, g, users, u);
    if u in pool { BestWins(c, pool, u); }
    if pool != [] {
      BestWins(c, pool, pool[0]);
      PoolMembers(c, g, users, Best(c, pool).value);
    }
  }

  /** Not the author and not ruled out as a voter. */
  predicate Neutral(c: Contest, u: Name) {
    u != c.author && u !in c.claimed
  }

  /** Fewer votes within the hour than the cap. */
  predicate UnderCap(c: Contest, g: Guards, u: Name) {
    (if u in g.hourly then g.hourly[u] else 0) < c.rules.cap(c.target, u)
  }

  /** The last vote is longer ago than the gap. */
  predicate Rested(c: Contest, g: Guards, u: Name) {
    u in g.latest ==> g.latest[u] + c.rules.gap(c.target) < c.now
  }

  predicate MayVote(c: Contest, g: Guards, u: Name) {
    Neutral(c, u) && UnderCap(c, g, u) && Rested(c, g, u) && c.rules.weight(c.target, u) > 0.0
  }

  /** What rules a persona out, and in which order it is said. */
  lemma WhyMeans(c: Contest, g: Guards, u: Name)
    ensures Why(c, g, u).None? <==> MayVote(c, g, u)
    ensures Why(c, g, u) == Some(AtCap) <==> Neutral(c, u) && !UnderCap(c, g, u)
    ensures Why(c, g, u) == Some(TooSoon) <==> Neutral(c, u) && UnderCap(c, g, u) && !Rested(c, g, u)
  {
  }

  /** `w` may vote; nobody who may has a smaller race key, and of those with the same key nobody has a smaller
      name. */
  ghost predicate Wins(c: Contest, g: Guards, users: seq<Name>, w: Name) {
    && w in users && MayVote(c, g, w)
    && forall u :: u in users && MayVote(c, g, u) ==>
                     var first, key := c.rules.key(c.target, c.ordinal, w), c.rules.key(c.target, c.ordinal, u);
                     first < key || (first == key && AtMost(w, u))
  }

  /** The choice, in terms of keys, caps, gaps and weights. */
  lemma ChoiceMeans(c: Contest, g: Guards, users: seq<Name>)
    ensures Choose(c, g, users).Some? <==> exists u :: u in users && MayVote(c, g, u)
    ensures Choose(c, g, users).Some? ==> Wins(c, g, users, Choose(c, g, users).value)
    ensures Choose(c, g, users).None? <==> Pool(c, g, users) == []
  {
    var choice := Choose(c, g, users);
    forall u | u in users && MayVote(c, g, u)
      ensures choice.Some? && !Beats(c, u, choice.value) && (AtMost(u, choice.value) || AtMost(choice.value, u))
    {
      ChosenIsBest(c, g, users, u);
      NamesOrdered(u, choice.value);
    }
    if choice.Some? {
      ChosenIsBest(c, g, users, choice.value);
      BestWins(c, Pool(c, g, users), choice.value) by {
        PoolMembers(c, g, users, choice.value);
      }
    }
    if Pool(c, g, users) != [] {
      BestWins(c, Pool(c, g, users), Pool(c, g, users)[0]);
    }
  }

  lemma {:induction false} SamePools(a: Contest, b: Contest, g: Guards, h: Guards, users: seq<Name>)
    requires forall u :: u in users ==> (Why(a, g, u).None? <==> Why(b, h, u).None?)
    ensures Pool(a, g, users) == Pool(b, h, users)
  {
    if users == [] {
    } else {
      assert forall u :: u in users[..|users| - 1] ==> u in users;
      SamePools(a, b, g, h, users[..|users| - 1]);
      assert users[|users| - 1] in users;
    }
  }

  /** The race is decided by its keys alone. */
  lemma {:induction false} SameBest(a: Contest, b: Contest, pool: seq<Name>)
    requires a.target == b.target && a.ordinal == b.ordinal && a.rules == b.rules
    ensures Best(a, pool) == Best(b, pool)
  {
    if pool == [] {
    } else {
      SameBest(a, b, pool[..|pool| - 1]);
    }
  }

  /** Ruling further personas out changes the winner exactly if the winner is among them. */
  lemma WinnerWithout(c: Contest, more: set<Name>, g: Guards, users: seq<Name>)
    ensures var without := c.(claimed := c.claimed + more);
            Choose(without, g, users) != Choose(c, g, users)
            <==> Choose(c, g, users).Some? && Choose(c, g, users).value in more
  {
    var without := c.(claimed := c.claimed + more);
    var all, some := Choose(c, g, users), Choose(without, g, users);
    if some.Some? {
      ChosenIsBest(without, g, users, some.value);
      ChosenIsBest(c, g, users, some.value);
      if all.value !in more {
        ChosenIsBest(c, g, users, all.value);
        ChosenIsBest(without, g, users, all.value);
        SomeoneBeats(c, all.value, some.value);
      }
    } else if all.Some? {
      ChosenIsBest(c, g, users, all.value);
      ChosenIsBest(without, g, users, all.value);
    }
  }

  lemma SomeoneBeats(c: Contest, a: Name, b: Name)
    ensures a == b || Beats(c, a, b) || Beats(c, b, a)
  {
    NamesOrdered(a, b);
  }
}
