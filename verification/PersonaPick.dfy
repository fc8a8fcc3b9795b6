/** Least-recently-used persona selection, and its fairness over a whole history of picks. */
module PersonaPick {
  import opened Wrappers
  import opened Sorting
  import opened Elements
  import opened Names

  /** A run row, as persona selection sees it; the history is in insertion order. */
  datatype RunRow = RunRow(persona: Name, startedAt: int)

  function Last(history: seq<RunRow>, p: Name): Option<int> {
    if history == [] then None
    else if history[|history| - 1].persona == p then Some(history[|history| - 1].startedAt)
    else Last(history[..|history| - 1], p)
  }

  ghost predicate Increasing(history: seq<RunRow>) {
    forall i, j :: 0 <= i < j < |history| ==> history[i].startedAt < history[j].startedAt
  }

  /** The least recently used fifth of the pool, at least three, at most all of it. */
  function Window(n: nat): nat {
    var fifth := if n / 5 > 3 then n / 5 else 3;
    if fifth < n then fifth else n
  }

  /** What selection promises: an unused persona while there is one, and otherwise one that fewer than
      a window of the pool were used before. */
  ghost predicate Allowed(pool: set<Name>, history: seq<RunRow>, p: Name) {
    && p in pool
    && (Last(history, p).Some? ==>
          && (forall q :: q in pool ==> Last(history, q).Some?)
          && |Older(pool, history, p)| < Window(|pool|))
  }

  ghost function Older(pool: set<Name>, history: seq<RunRow>, p: Name): set<Name> {
    set q | q in pool && Last(history, q).Some? && Last(history, p).Some?
            && Last(history, q).value < Last(history, p).value
  }

  /** The persona has no run. */
  predicate NeverIn(history: seq<RunRow>, p: Name) {
    forall i :: 0 <= i < |history| ==> history[i].persona != p
  }

  /** Row `i` is the persona's latest. */
  predicate LatestAt(history: seq<RunRow>, p: Name, i: nat) {
    i < |history| && history[i].persona == p && forall j :: i < j < |history| ==> history[j].persona != p
  }

  /** The latest run of `q` started before that of `p`. */
  predicate UsedBefore(history: seq<RunRow>, q: Name, p: Name) {
    exists i, j :: 0 <= i < |history| && 0 <= j < |history| && LatestAt(history, q, i) && LatestAt(history, p, j)
                   && history[i].startedAt < history[j].startedAt
  }

  lemma LastMeans(history: seq<RunRow>, p: Name)
    ensures Last(history, p).None? <==> NeverIn(history, p)
  {
    if Last(history, p).Some? {
      var k := LastWitness(history, p);
    } else {
      forall i | 0 <= i < |history|
        ensures history[i].persona != p
      {
        UsedHasLast(history, i);
      }
    }
  }

  lemma LatestIs(history: seq<RunRow>, p: Name, i: nat)
    requires LatestAt(history, p, i)
    ensures Last(history, p) == Some(history[i].startedAt)
  {
    UsedHasLast(history, i);
    var k := LastWitness(history, p);
    assert k == i;
  }

  lemma BeforeMeans(history: seq<RunRow>, q: Name, p: Name)
    ensures UsedBefore(history, q, p)
            <==> Last(history, q).Some? && Last(history, p).Some? && Last(history, q).value < Last(history, p).value
  {
    if UsedBefore(history, q, p) {
      var i, j :| 0 <= i < |history| && 0 <= j < |history| && LatestAt(history, q, i) && LatestAt(history, p, j)
                  && history[i].startedAt < history[j].startedAt;
      LatestIs(history, q, i);
      LatestIs(history, p, j);
    }
    if Last(history, q).Some? && Last(history, p).Some? {
      var i := LastWitness(history, q);
      var j := LastWitness(history, p);
      assert LatestAt(history, q, i) && LatestAt(history, p, j);
    }
  }

  /** What selection promises, row by row. */
  lemma PromiseMeans(pool: seq<Name>, history: seq<RunRow>)
    ensures forall p :: Last(history, p).None? <==> NeverIn(history, p)
    ensures forall p :: Older(Elems(pool), history, p) == set q | q in pool && UsedBefore(history, q, p)
  {
    forall p
      ensures Last(history, p).None? <==> NeverIn(history, p)
    {
      LastMeans(history, p);
    }
    forall p
      ensures Older(Elems(pool), history, p) == set q | q in pool && UsedBefore(history, q, p)
    {
      forall q
        ensures UsedBefore(history, q, p)
                <==> Last(history, q).Some? && Last(history, p).Some? && Last(history, q).value < Last(history, p).value
      {
        BeforeMeans(history, q, p);
      }
    }
  }

  /// The selection itself

  /** The sort key: when a persona was last used. */
  function ByLastUse(key: map<Name, int>): (Name, Name) -> bool {
    (a, b) => UseTime(key, a) <= UseTime(key, b)
  }

  function UseTime(key: map<Name, int>, u: Name): int {
    if u in key then key[u] else 0
  }

  function Unused(pool: seq<Name>, key: map<Name, int>): (r: seq<Name>)
    ensures forall u :: u in r <==> u in pool && u !in key
  {
    if pool == [] then []
    else if pool[0] in key then Unused(pool[1..], key)
    else [pool[0]] + Unused(pool[1..], key)
  }

  lemma {:induction false} LastCons(row: RunRow, rest: seq<RunRow>, p: Name)
    ensures Last([row] + rest, p) ==
            if Last(rest, p).Some? then Last(rest, p) else if row.persona == p then Some(row.startedAt) else None
  {
    if rest != [] {
      assert ([row] + rest)[..|rest|] == [row] + rest[..|rest| - 1];
      LastCons(row, rest[..|rest| - 1], p);
    } else {
      assert ([row] + rest)[..0] == [];
    }
  }

  /** `choice` is the random draw. */
  method PickLruPersona(pool: seq<Name>, history: seq<RunRow>, choice: nat) returns (persona: Name)
    requires pool != []
    requires |Elems(pool)| == |pool|
    ensures Allowed(Elems(pool), history, persona)
    ensures persona in pool
    ensures (exists q :: q in pool && NeverIn(history, q)) ==> NeverIn(history, persona)
    ensures (forall q :: q in pool ==> !NeverIn(history, q)) ==>
              var fifth, n := |pool| / 5, |pool|;
              var window := if fifth > 3 then if fifth < n then fifth else n else if 3 < n then 3 else n;
              var older := |set q | q in pool && UsedBefore(history, q, persona)|;
              !NeverIn(history, persona) && older < window && (Increasing(history) ==> older == choice % window)
  {
    PromiseMeans(pool, history);
    var lastUsed: map<Name, int> := map[];
    var i := |history|;
    assert history[i..] == [];
    while i > 0
      invariant 0 <= i <= |history|
      invariant forall u :: u in lastUsed <==> u in pool && Last(history[i..], u).Some?
      invariant forall u :: u in lastUsed ==> lastUsed[u] == Last(history[i..], u).value
    {
      i := i - 1;
      assert history[i..] == [history[i]] + history[i + 1..];
      forall u
        ensures Last(history[i..], u) == if Last(history[i + 1..], u).Some? then Last(history[i + 1..], u)
                                         else if history[i].persona == u then Some(history[i].startedAt) else None
      {
        LastCons(history[i], history[i + 1..], u);
      }
      if history[i].persona in pool && history[i].persona !in lastUsed {
        lastUsed := lastUsed[history[i].persona := history[i].startedAt];
      }
    }
    assert history[0..] == history;
    var neverUsed := Unused(pool, lastUsed);
    if neverUsed != [] {
      return neverUsed[choice % |neverUsed|];
    }
    var sortedPool := Sort(pool, ByLastUse(lastUsed));
    var window := Window(|sortedPool|);
    var k := choice % window;
    persona := sortedPool[k];
    RankBound(pool, history, lastUsed, sortedPool, k);
    if Increasing(history) {
      RankExact(pool, history, lastUsed, sortedPool, k);
    }
  }

  lemma {:induction false} NoneTwice(s: seq<Name>, i: nat, j: nat)
    requires |Elems(s)| == |s| && i < j < |s|
    ensures s[i] != s[j]
  {
    if s[i] == s[j] {
      var rest := s[..j] + s[j + 1..];
      assert forall x :: x in s ==> x in rest by {
        forall x | x in s
          ensures x in rest
        {
          var k :| 0 <= k < |s| && s[k] == x;
          assert rest[if k < j then k else if k == j then i else k - 1] == x;
        }
      }
      DistinctCount(rest);
      SubsetCount(Elems(s), Elems(rest));
      assert false;
    }
  }

  /** With distinct starting times exactly `k` personas were used before the one at position `k`. */
  lemma RankExact(pool: seq<Name>, history: seq<RunRow>, key: map<Name, int>, sorted: seq<Name>, k: nat)
    requires Sorted(sorted, ByLastUse(key)) && Elems(sorted) == Elems(pool) && |sorted| == |pool| == |Elems(pool)|
    requires k < |sorted| && Increasing(history)
    requires forall u :: u in pool ==> u in key && Last(history, u) == Some(key[u])
    ensures |Older(Elems(pool), history, sorted[k])| == k
  {
    var older, p := Older(Elems(pool), history, sorted[k]), sorted[k];
    RankBound(pool, history, key, sorted, k);
    forall j | 0 <= j < k
      ensures sorted[j] in older
    {
      assert sorted[j] in Elems(sorted) && p in Elems(sorted);
      NoneTwice(sorted, j, k);
      var a := LastWitness(history, sorted[j]);
      var b := LastWitness(history, p);
      assert ByLastUse(key)(sorted[j], sorted[k]);
    }
    assert forall x :: x in sorted[..k] ==> x in older;
    HeadCount(sorted, k);
    SubsetCount(Elems(sorted[..k]), older);
  }

  lemma {:induction false} HeadCount(s: seq<Name>, k: nat)
    requires |Elems(s)| == |s| && k <= |s|
    ensures |Elems(s[..k])| == k
  {
    if k == 0 {
      assert Elems(s[..0]) == {};
    } else {
      HeadCount(s, k - 1);
      assert s[..k] == s[..k - 1] + [s[k - 1]];
      ElemsSnoc(s[..k - 1], s[k - 1]);
      forall i | 0 <= i < k - 1
        ensures s[i] != s[k - 1]
      {
        NoneTwice(s, i, k - 1);
      }
    }
  }

  /** Fewer than `k + 1` personas were used before the one at position `k` of the sorted pool. */
  lemma RankBound(pool: seq<Name>, history: seq<RunRow>, key: map<Name, int>, sorted: seq<Name>, k: nat)
    requires Sorted(sorted, ByLastUse(key)) && Elems(sorted) == Elems(pool) && k < |sorted|
    requires forall u :: u in pool ==> u in key && Last(history, u) == Some(key[u])
    ensures sorted[k] in pool
    ensures |Older(Elems(pool), history, sorted[k])| <= k
  {
    assert sorted[k] in Elems(sorted);
    var older := Older(Elems(pool), history, sorted[k]);
    forall q | q in older
      ensures q in Elems(sorted[..k])
    {
      assert q in Elems(sorted);
      var j :| 0 <= j < |sorted| && sorted[j] == q;
      assert sorted[..k][j] == q;
    }
    DistinctCount(sorted[..k]);
    SubsetCount(older, Elems(sorted[..k]));
  }

  /// Fairness of the whole history

  /** Every pick was allowed by what selection knew at the time. */
  ghost predicate FairHistory(pool: set<Name>, history: seq<RunRow>) {
    Increasing(history) && forall i :: 0 <= i < |history| ==> Allowed(pool, history[..i], history[i].persona)
  }

  function Personas(history: seq<RunRow>): (r: seq<Name>)
    ensures |r| == |history|
    ensures forall i :: 0 <= i < |r| ==> r[i] == history[i].persona
  {
    if history == [] then [] else Personas(history[..|history| - 1]) + [history[|history| - 1].persona]
  }

  lemma {:induction false} LastWitness(history: seq<RunRow>, p: Name) returns (k: nat)
    requires Last(history, p).Some?
    ensures k < |history| && history[k] == RunRow(p, Last(history, p).value)
    ensures forall j :: k < j < |history| ==> history[j].persona != p
  {
    k := |history| - 1;
    if history[k].persona == p {
    } else {
      k := LastWitness(history[..k], p);
    }
  }

  lemma {:induction false} UsedHasLast(history: seq<RunRow>, k: nat)
    requires k < |history|
    ensures Last(history, history[k].persona).Some?
  {
    if k == |history| - 1 {
    } else {
      assert history[..|history| - 1][k] == history[k];
      UsedHasLast(history[..|history| - 1], k);
    }
  }

  /** No persona of the pool is picked twice before all of them were picked once. */
  lemma AllUsedBeforeRepeat(pool: set<Name>, history: seq<RunRow>, i: nat, j: nat, q: Name)
    requires FairHistory(pool, history) && i < j < |history| && history[i].persona == history[j].persona
    requires q in pool
    ensures exists k :: 0 <= k < j && history[k].persona == q
    ensures |pool| <= j
  {
    assert history[..j][i] == history[i];
    UsedHasLast(history[..j], i);
    forall u | u in pool
      ensures u in Personas(history[..j])
    {
      var k := LastWitness(history[..j], u);
      assert Personas(history[..j])[k] == u;
    }
    DistinctCount(Personas(history[..j]));
    SubsetCount(pool, Elems(Personas(history[..j])));
    var k := LastWitness(history[..j], q);
  }

  /** A persona last used after position `k` stands among the picks after `k`. */
  lemma UsedAfter(history: seq<RunRow>, k: nat, j: nat, q: Name)
    requires Increasing(history) && k < j <= |history| && Last(history[..j], q).Some?
    requires q != history[k].persona && Last(history[..j], q).value >= history[k].startedAt
    ensures q in Elems(Personas(history[k + 1..j]))
  {
    var m := LastWitness(history[..j], q);
    assert history[..j][m] == history[m];
    assert m > k;
    assert history[k + 1..j][m - k - 1] == history[m];
    assert Personas(history[k + 1..j])[m - k - 1] == q;
  }

  /** Two uses of one persona have at least as many other picks between them as personas lie outside the
      window, whatever the random choices were. */
  lemma UsesAreSeparated(pool: set<Name>, history: seq<RunRow>, i: nat, j: nat)
    requires FairHistory(pool, history) && i < j < |history| && history[i].persona == history[j].persona
    ensures var fifth, n := |pool| / 5, |pool|;
            j - i - 1 >= n - (if fifth > 3 then if fifth < n then fifth else n else if 3 < n then 3 else n)
  {
    var past, p := history[..j], history[j].persona;
    assert past[i] == history[i];
    UsedHasLast(past, i);
    var k := LastWitness(past, p);
    assert i <= k && past[k] == history[k];
    var older := Older(pool, past, p);
    var others := pool - older - {p};
    forall q | q in others
      ensures q in Elems(Personas(history[k + 1..j]))
    {
      UsedAfter(history, k, j, q);
    }
    DistinctCount(Personas(history[k + 1..j]));
    SubsetCount(others, Elems(Personas(history[k + 1..j])));
    assert pool == others + older + {p};
    assert |pool| == |others| + |older| + 1;
  }
}
