/** The anonymous vote brake: per address, a deque of accepted hits trimmed to the last minute. */
module RateLimiter {
  datatype Address = Address(text: string)

  const VOTES_PER_MINUTE := 30
  const MINUTE := 60.0

  /** An accepted hit, or a request for one. */
  datatype Hit = Hit(ip: Address, at: real)

  /// What the limiter means: counting over the whole history of accepted hits

  /** The times at which `ip` was let through, oldest first. */
  function Accepted(history: seq<Hit>, ip: Address): seq<real> {
    if history == [] then []
    else
      var last := history[|history| - 1];
      Accepted(history[..|history| - 1], ip) + if last.ip == ip then [last.at] else []
  }

  function Newer(times: seq<real>, cutoff: real): seq<real> {
    if times == [] then []
    else Newer(times[..|times| - 1], cutoff) + if times[|times| - 1] > cutoff then [times[|times| - 1]] else []
  }

  /** Accepted hits of `ip` in the half-open minute ending at `now`. */
  function Recent(history: seq<Hit>, ip: Address, now: real): seq<real> {
    Newer(Accepted(history, ip), now - MINUTE)
  }

  predicate Limited(history: seq<Hit>, request: Hit) {
    |Recent(history, request.ip, request.at)| >= VOTES_PER_MINUTE
  }

  function Serve(history: seq<Hit>, request: Hit): seq<Hit> {
    if Limited(history, request) then history else history + [request]
  }

  function ServeAll(requests: seq<Hit>): seq<Hit> {
    if requests == [] then [] else Serve(ServeAll(requests[..|requests| - 1]), requests[|requests| - 1])
  }

  ghost predicate Ordered(times: seq<real>) {
    forall i, j :: 0 <= i < j < |times| ==> times[i] <= times[j]
  }

  /** The clock is monotonic: nothing was accepted later than `now`. */
  ghost predicate Before(history: seq<Hit>, now: real) {
    && (forall i, j :: 0 <= i < j < |history| ==> history[i].at <= history[j].at)
    && (forall i :: 0 <= i < |history| ==> history[i].at <= now)
  }

  /// Trimming

  lemma {:induction false} NewerDropsHead(times: seq<real>, cutoff: real)
    requires times != [] && times[0] <= cutoff
    ensures Newer(times, cutoff) == Newer(times[1..], cutoff)
  {
    if |times| > 1 {
      NewerDropsHead(times[..|times| - 1], cutoff);
      assert times[1..][..|times| - 2] == times[..|times| - 1][1..];
    } else {
      assert times[..0] == [];
    }
  }

  lemma {:induction false} NewerKeepsAll(times: seq<real>, cutoff: real)
    requires Ordered(times) && (times != [] ==> times[0] > cutoff)
    ensures Newer(times, cutoff) == times
  {
    if |times| > 1 {
      NewerKeepsAll(times[..|times| - 1], cutoff);
    } else if times != [] {
      assert times[..0] == [];
    }
  }

  /** A deque trimmed earlier has lost nothing a later trim would keep. */
  lemma {:induction false} NewerTwice(times: seq<real>, early: real, late: real)
    requires early <= late
    ensures Newer(Newer(times, early), late) == Newer(times, late)
  {
    if times == [] {
    } else {
      NewerTwice(times[..|times| - 1], early, late);
      var kept := Newer(times[..|times| - 1], early);
      NewerSnoc(kept, times[|times| - 1], late);
      assert kept + [] == kept;
    }
  }

  lemma {:induction false} NewerOrdered(times: seq<real>, cutoff: real)
    requires Ordered(times)
    ensures Ordered(Newer(times, cutoff))
    ensures forall t :: t in Newer(times, cutoff) ==> t in times
  {
    if times == [] {
    } else {
      NewerOrdered(times[..|times| - 1], cutoff);
      OrderedSnoc(Newer(times[..|times| - 1], cutoff), times[|times| - 1]);
    }
  }

  lemma OrderedSnoc(times: seq<real>, t: real)
    requires Ordered(times) && forall x :: x in times ==> x <= t
    ensures Ordered(times + [t])
  {
    forall i, j | 0 <= i < j < |times| + 1
      ensures (times + [t])[i] <= (times + [t])[j]
    {
      assert times != [] && times[i] in times;
    }
  }

  lemma {:induction false} AcceptedOrdered(history: seq<Hit>, now: real, ip: Address)
    requires Before(history, now)
    ensures Ordered(Accepted(history, ip))
    ensures forall t :: t in Accepted(history, ip) ==> t <= now
  {
    if history == [] {
    } else {
      var last := history[|history| - 1];
      AcceptedOrdered(history[..|history| - 1], last.at, ip);
      OrderedSnoc(Accepted(history[..|history| - 1], ip), last.at);
    }
  }

  lemma AcceptedSnoc(history: seq<Hit>, hit: Hit, ip: Address)
    ensures Accepted(history + [hit], ip) == Accepted(history, ip) + if hit.ip == ip then [hit.at] else []
  {
    assert (history + [hit])[..|history|] == history;
  }

  lemma NewerSnoc(times: seq<real>, t: real, cutoff: real)
    ensures Newer(times + [t], cutoff) == Newer(times, cutoff) + if t > cutoff then [t] else []
  {
    assert (times + [t])[..|times|] == times;
  }

  /// The limiter as it runs

  /** Each deque is what its last trim left; an address without one was never let through. */
  ghost predicate Refines(hits: map<Address, seq<real>>, trimmedAt: map<Address, real>, history: seq<Hit>,
                          clock: real) {
    && hits.Keys == trimmedAt.Keys
    && (forall ip :: ip in hits ==> trimmedAt[ip] <= clock && hits[ip] == Recent(history, ip, trimmedAt[ip]))
    && (forall ip :: ip !in hits ==> Accepted(history, ip) == [])
  }

  lemma RecentAfter(history: seq<Hit>, request: Hit)
    ensures Recent(Serve(history, request), request.ip, request.at)
            == Recent(history, request.ip, request.at) + if Limited(history, request) then [] else [request.at]
  {
    AcceptedSnoc(history, request, request.ip);
    NewerSnoc(Accepted(history, request.ip), request.at, request.at - MINUTE);
  }

  lemma ServeKeepsRefinement(hits: map<Address, seq<real>>, trimmedAt: map<Address, real>, history: seq<Hit>,
                             clock: real, request: Hit, queue: seq<real>)
    requires Refines(hits, trimmedAt, history, clock) && clock <= request.at
    requires queue == Recent(Serve(history, request), request.ip, request.at)
    ensures Refines(hits[request.ip := queue], trimmedAt[request.ip := request.at], Serve(history, request), request.at)
  {
    forall ip | ip != request.ip
      ensures Accepted(Serve(history, request), ip) == Accepted(history, ip)
    {
      AcceptedSnoc(history, request, ip);
    }
  }

  lemma ServeKeepsOrder(history: seq<Hit>, now: real, request: Hit)
    requires Before(history, now) && now <= request.at
    ensures Before(Serve(history, request), request.at)
  {
  }

  function Queue(hits: map<Address, seq<real>>, ip: Address): seq<real> {
    if ip in hits then hits[ip] else []
  }

  /** Nothing the minute before the request needs was dropped. */
  ghost predicate Holds(queue: seq<real>, history: seq<Hit>, request: Hit) {
    Ordered(queue) && Newer(queue, request.at - MINUTE) == Recent(history, request.ip, request.at)
  }

  /** A deque trimmed at `t` still holds all that a later request needs. */
  lemma TrimmedHolds(history: seq<Hit>, clock: real, t: real, request: Hit)
    requires Before(history, clock) && t <= request.at
    ensures Holds(Recent(history, request.ip, t), history, request)
  {
    var times := Accepted(history, request.ip);
    AcceptedOrdered(history, clock, request.ip);
    NewerOrdered(times, t - MINUTE);
    NewerTwice(times, t - MINUTE, request.at - MINUTE);
  }

  lemma NothingHolds(history: seq<Hit>, request: Hit)
    requires Accepted(history, request.ip) == []
    ensures Holds([], history, request)
  {
  }

  lemma QueueNow(hits: map<Address, seq<real>>, trimmedAt: map<Address, real>, history: seq<Hit>, clock: real,
                 ip: Address, now: real)
    requires Refines(hits, trimmedAt, history, clock) && Before(history, clock) && clock <= now
    ensures Holds(Queue(hits, ip), history, Hit(ip, now))
  {
    if ip in hits {
      TrimmedHolds(history, clock, trimmedAt[ip], Hit(ip, now));
    } else {
      NothingHolds(history, Hit(ip, now));
    }
  }

  /** Drops from the left what is no newer than `cutoff`. */
  method Trim(times: seq<real>, cutoff: real) returns (queue: seq<real>)
    requires Ordered(times)
    ensures queue == Newer(times, cutoff)
  {
    queue := times;
    while queue != [] && queue[0] <= cutoff
      invariant Ordered(queue)
      invariant Newer(queue, cutoff) == Newer(times, cutoff)
      decreases |queue|
    {
      NewerDropsHead(queue, cutoff);
      queue := queue[1..];
    }
    NewerKeepsAll(queue, cutoff);
  }

  /** Trims, then counts, then appends if there is room. */
  method Decide(times: seq<real>, request: Hit, ghost history: seq<Hit>) returns (queue: seq<real>, limited: bool)
    requires Holds(times, history, request)
    ensures limited == Limited(history, request)
    ensures queue == Recent(Serve(history, request), request.ip, request.at)
  {
    queue := Trim(times, request.at - MINUTE);
    limited := |queue| >= VOTES_PER_MINUTE;
    RecentAfter(history, request);
    if !limited {
      queue := queue + [request.at];
    }
  }

  class Limiter {
    var hits: map<Address, seq<real>>
    ghost var history: seq<Hit>
    ghost var trimmedAt: map<Address, real>
    ghost var clock: real

    ghost predicate Valid()
      reads this
    {
      Before(history, clock) && Refines(hits, trimmedAt, history, clock)
    }

    constructor (start: real)
      ensures Valid() && history == [] && clock == start
    {
      hits, history, trimmedAt, clock := map[], [], map[], start;
    }

    /** Refuses exactly when counting the whole history would; the address's deque is then the accepted
        hits of the minute ending now, and no other address's deque is touched. */
    method RateLimited(ip: Address, now: real) returns (limited: bool)
      requires Valid() && clock <= now
      modifies this
      ensures Valid() && clock == now
      ensures limited == Limited(old(history), Hit(ip, now))
      ensures history == Serve(old(history), Hit(ip, now))
      ensures hits == old(hits)[ip := Recent(history, ip, now)]
    {
      QueueNow(hits, trimmedAt, history, clock, ip, now);
      var queue: seq<real>;
      queue, limited := Decide(Queue(hits, ip), Hit(ip, now), history);
      ServeKeepsRefinement(hits, trimmedAt, history, clock, Hit(ip, now), queue);
      ServeKeepsOrder(history, clock, Hit(ip, now));
      history := Serve(history, Hit(ip, now));
      hits := hits[ip := queue];
      trimmedAt := trimmedAt[ip := now];
      clock := now;
    }
  }

  /// What the limiter promises

  predicate Inside(t: real, start: real, openLeft: bool) {
    if openLeft then start < t <= start + MINUTE else start <= t < start + MINUTE
  }

  /** The accepted times within a half-open minute. */
  function Within(times: seq<real>, start: real, openLeft: bool): seq<real> {
    if times == [] then []
    else
      Within(times[..|times| - 1], start, openLeft)
      + if Inside(times[|times| - 1], start, openLeft) then [times[|times| - 1]] else []
  }

  /** Thirty accepted hits apart is at least a minute apart. */
  ghost predicate Spaced(times: seq<real>) {
    forall i, j :: 0 <= i && j == i + VOTES_PER_MINUTE && j < |times| ==> times[i] + MINUTE <= times[j]
  }

  lemma {:induction false} NewerAtLeast(times: seq<real>, cutoff: real, k: nat)
    requires Ordered(times) && k < |times| && times[k] > cutoff
    ensures |Newer(times, cutoff)| >= |times| - k
  {
    if k == |times| - 1 {
    } else {
      NewerAtLeast(times[..|times| - 1], cutoff, k);
    }
  }

  lemma OneMoreSpaced(times: seq<real>, at: real)
    requires Spaced(times) && Ordered(times) && |Newer(times, at - MINUTE)| < VOTES_PER_MINUTE
    ensures Spaced(times + [at])
  {
    var k := |times| - VOTES_PER_MINUTE;
    if k >= 0 && times[k] > at - MINUTE {
      NewerAtLeast(times, at - MINUTE, k);
    }
  }

  lemma ServeKeepsSpacing(history: seq<Hit>, request: Hit, ip: Address)
    requires Before(history, request.at) && Spaced(Accepted(history, ip))
    ensures Spaced(Accepted(Serve(history, request), ip))
  {
    AcceptedSnoc(history, request, ip);
    if !Limited(history, request) && request.ip == ip {
      AcceptedOrdered(history, request.at, ip);
      OneMoreSpaced(Accepted(history, ip), request.at);
    }
  }

  lemma {:induction false} ServedIsSpaced(requests: seq<Hit>, now: real, ip: Address)
    requires Before(requests, now)
    ensures Before(ServeAll(requests), now) && Spaced(Accepted(ServeAll(requests), ip))
  {
    if requests == [] {
    } else {
      var last := requests[|requests| - 1];
      var history := ServeAll(requests[..|requests| - 1]);
      ServedIsSpaced(requests[..|requests| - 1], last.at, ip);
      ServeKeepsSpacing(history, last, ip);
      ServeKeepsOrder(history, last.at, last);
    }
  }

  lemma {:induction false} WithinSuffix(times: seq<real>, start: real, openLeft: bool, k: nat)
    requires k <= |times| && forall i :: 0 <= i < k ==> !Inside(times[i], start, openLeft)
    ensures |Within(times, start, openLeft)| <= |times| - k
  {
    if k < |times| {
      WithinSuffix(times[..|times| - 1], start, openLeft, k);
    } else if times != [] {
      WithinSuffix(times[..|times| - 1], start, openLeft, k - 1);
    }
  }

  lemma {:induction false} SpacedWindow(times: seq<real>, start: real, openLeft: bool)
    requires Ordered(times) && Spaced(times)
    ensures |Within(times, start, openLeft)| <= VOTES_PER_MINUTE
  {
    if times == [] {
    } else {
      var n := |times| - 1;
      SpacedWindow(times[..n], start, openLeft);
      if n < VOTES_PER_MINUTE {
        WithinSuffix(times, start, openLeft, 0);
      } else if Inside(times[n], start, openLeft) {
        var k := n - VOTES_PER_MINUTE;
        assert times[k] + MINUTE <= times[n];
        assert forall i :: 0 <= i < k ==> times[i] <= times[k];
        WithinSuffix(times, start, openLeft, k + 1);
      }
    }
  }

  /** The hits of the address later than the cutoff, in the history's own numbering. */
  function Later(history: seq<Hit>, ip: Address, cutoff: real): set<nat> {
    set i | 0 <= i < |history| && history[i].ip == ip && history[i].at > cutoff
  }

  lemma {:induction false} NewerCounts(history: seq<Hit>, ip: Address, cutoff: real)
    ensures |Newer(Accepted(history, ip), cutoff)| == |Later(history, ip, cutoff)|
  {
    if history == [] {
      assert Later(history, ip, cutoff) == {};
    } else {
      var n := |history| - 1;
      var front, last := history[..n], history[n];
      NewerCounts(front, ip, cutoff);
      assert (Accepted(front, ip) + [last.at])[..|Accepted(front, ip)|] == Accepted(front, ip);
      assert Accepted(front, ip) + [] == Accepted(front, ip);
      assert Later(history, ip, cutoff)
             == Later(front, ip, cutoff) + if last.ip == ip && last.at > cutoff then {n} else {};
    }
  }

  /** The hits of the address in the half-open minute from `start`. */
  function InMinute(history: seq<Hit>, ip: Address, start: real, openLeft: bool): set<nat> {
    set i | 0 <= i < |history| && history[i].ip == ip
            && if openLeft then start < history[i].at <= start + 60.0 else start <= history[i].at < start + 60.0
  }

  lemma {:induction false} WithinCounts(history: seq<Hit>, ip: Address, start: real, openLeft: bool)
    ensures |Within(Accepted(history, ip), start, openLeft)| == |InMinute(history, ip, start, openLeft)|
  {
    if history == [] {
      assert InMinute(history, ip, start, openLeft) == {};
    } else {
      var n := |history| - 1;
      var front, last := history[..n], history[n];
      WithinCounts(front, ip, start, openLeft);
      assert (Accepted(front, ip) + [last.at])[..|Accepted(front, ip)|] == Accepted(front, ip);
      assert Accepted(front, ip) + [] == Accepted(front, ip);
      assert InMinute(history, ip, start, openLeft)
             == InMinute(front, ip, start, openLeft)
                + if last.ip == ip && Inside(last.at, start, openLeft) then {n} else {};
    }
  }

  /** A request is held back exactly if thirty hits of its address were let through in the last minute. */
  lemma LimitedMeans(history: seq<Hit>, request: Hit)
    ensures Limited(history, request) <==> |Later(history, request.ip, request.at - 60.0)| >= 30
    ensures Serve(history, request)
            == if |Later(history, request.ip, request.at - 60.0)| >= 30 then history else history + [request]
  {
    NewerCounts(history, request.ip, request.at - 60.0);
  }

  /** For any requests in the order of their times, no half-open minute of an address, whichever end is open, holds
      more than thirty accepted hits. */
  lemma AtMostThirtyPerMinute(requests: seq<Hit>, now: real, ip: Address, start: real, openLeft: bool)
    requires Before(requests, now)
    ensures |InMinute(ServeAll(requests), ip, start, openLeft)| <= 30
  {
    WithinCounts(ServeAll(requests), ip, start, openLeft);
    ServedIsSpaced(requests, now, ip);
    AcceptedOrdered(ServeAll(requests), now, ip);
    SpacedWindow(Accepted(ServeAll(requests), ip), start, openLeft);
  }
}
