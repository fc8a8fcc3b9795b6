/** Active cadence: how many of an item's budgeted votes are due at an age, and when each one falls due.
    Powers and logarithms of two are any strictly increasing inverse pair over the reals. */
module Cadence {
  import opened Wrappers

  /** Minutes; both are validated to be positive. */
  datatype Section = Section(halfLife: real, window: real)

  type Real2Real = real -> real

  ghost predicate InversePair(exp2: Real2Real, log2: Real2Real) {
    && exp2(0.0) == 1.0
    && (forall x :: exp2(x) > 0.0 && log2(exp2(x)) == x)
    && (forall y :: y > 0.0 ==> exp2(log2(y)) == y)
    && (forall x, y :: x < y ==> exp2(x) < exp2(y))
  }

  predicate Validated(s: Section) {
    s.halfLife > 0.0 && s.window > 0.0
  }

  /** What is left of the attention after `age` minutes: it halves every half-life. */
  function Left(s: Section, exp2: Real2Real, age: real): real
    requires Validated(s)
  {
    exp2(-age / s.halfLife)
  }

  /** With powers of two, half of the attention is left after one half-life. */
  lemma HalfIsLeft(s: Section, exp2: Real2Real)
    requires Validated(s) && exp2(-1.0) == 0.5
    ensures Left(s, exp2, s.halfLife) == 0.5
  {
    assert -s.halfLife / s.halfLife == -1.0;
  }

  lemma LeftFalls(s: Section, exp2: Real2Real, log2: Real2Real, a: real, b: real)
    requires Validated(s) && InversePair(exp2, log2)
    ensures a < b <==> Left(s, exp2, a) > Left(s, exp2, b)
    ensures a == 0.0 ==> Left(s, exp2, a) == 1.0
  {
    Scaled(s.halfLife, a, b);
  }

  lemma Scaled(h: real, a: real, b: real)
    requires h > 0.0
    ensures a < b <==> -b / h < -a / h
    ensures -0.0 / h == 0.0
  {
    var x, y := -a / h, -b / h;
    assert x * h == -a && y * h == -b;
    assert (x - y) * h == b - a;
    assert x > y <==> (x - y) * h > 0.0;
  }

  /** How many of `budget` votes are due: the integer part of the budget times the elapsed share. The
      divisor is never zero for an inverse pair, see `WindowElapses`. */
  function DueCount(budget: int, age: real, s: Section, exp2: Real2Real): int
    requires Validated(s) && Left(s, exp2, s.window) != 1.0
  {
    if budget <= 0 then 0
    else if age <= 0.0 then 0
    else if age >= s.window then budget
    else
      var fraction := (1.0 - Left(s, exp2, age)) / (1.0 - Left(s, exp2, s.window));
      var due := (budget as real * fraction).Floor;
      if due < 0 then 0 else if due > budget then budget else due
  }

  /** The part of the attention used up when `ordinal` of `budget` shares of the window's are. */
  function Used(ordinal: int, budget: int, windowLeft: real): real
    requires budget > 0
  {
    ordinal as real / budget as real * (1.0 - windowLeft)
  }

  /** The age at which the vote numbered `ordinal`, from one, falls due; other ordinals are errors. */
  function ArrivalOffset(ordinal: int, budget: int, s: Section, exp2: Real2Real, log2: Real2Real): Option<real>
    requires Validated(s)
  {
    if ordinal < 1 || ordinal > budget then None
    else Some(-s.halfLife * log2(1.0 - Used(ordinal, budget, Left(s, exp2, s.window))))
  }

  lemma WindowElapses(s: Section, exp2: Real2Real, log2: Real2Real)
    requires Validated(s) && InversePair(exp2, log2)
    ensures 0.0 < Left(s, exp2, s.window) < 1.0
  {
    LeftFalls(s, exp2, log2, 0.0, s.window);
  }

  lemma Divide(a: real, m: real) returns (p: real)
    requires m > 0.0
    ensures p == a / m && p * m == a
  {
    p := a / m;
  }

  lemma ShareOrder(k: int, j: int, n: int)
    requires 0 <= k <= j && 0 < n
    ensures 0.0 <= k as real / n as real <= j as real / n as real
    ensures k < j ==> k as real / n as real < j as real / n as real
    ensures j == n ==> j as real / n as real == 1.0
  {
    var m := n as real;
    var p := Divide(k as real, m);
    var q := Divide(j as real, m);
    Scale(p, 0.0, m);
    Scale(q, p, m);
    Scale(p, q, m);
    Scale(1.0, q, m);
    Scale(q, 1.0, m);
  }

  /** More shares use more; all of them use what the window uses. */
  lemma UsedOrder(k: int, j: int, n: int, left: real)
    requires 0 <= k <= j <= n && 0 < n && 0.0 < left < 1.0
    ensures k < j ==> Used(k, n, left) < Used(j, n, left)
    ensures 0.0 <= Used(k, n, left) <= 1.0 - left
    ensures k == n ==> Used(k, n, left) == 1.0 - left
  {
    ShareOrder(k, j, n);
    ShareOrder(k, n, n);
    var p, q, d := k as real / n as real, j as real / n as real, 1.0 - left;
    assert Used(k, n, left) == p * d && Used(j, n, left) == q * d;
    Stretch(p, q, d);
  }

  lemma Stretch(p: real, q: real, d: real)
    requires 0.0 <= p <= q <= 1.0 && 0.0 < d
    ensures p < q ==> p * d < q * d
    ensures 0.0 <= p * d <= d
    ensures p == 1.0 ==> p * d == d
  {
    assert (q - p) * d == q * d - p * d;
    assert (1.0 - p) * d == d - p * d;
    assert q > p ==> (q - p) * d > 0.0;
  }

  lemma Scale(p: real, q: real, d: real)
    requires 0.0 < d
    ensures p < q <==> p * d < q * d
    ensures p == q ==> p * d == q * d
  {
    assert (q - p) * d == q * d - p * d;
    assert q > p <==> (q - p) * d > 0.0;
  }

  /** At its offset, exactly the ordinal's share of the window's attention is used up. */
  lemma OffsetMeaning(ordinal: int, budget: int, s: Section, exp2: Real2Real, log2: Real2Real) returns (offset: real)
    requires Validated(s) && InversePair(exp2, log2) && 1 <= ordinal <= budget
    ensures ArrivalOffset(ordinal, budget, s, exp2, log2) == Some(offset)
    ensures 1.0 - Left(s, exp2, offset) == Used(ordinal, budget, Left(s, exp2, s.window))
  {
    WindowElapses(s, exp2, log2);
    UsedOrder(ordinal, budget, budget, Left(s, exp2, s.window));
    offset := ArrivalOffset(ordinal, budget, s, exp2, log2).value;
    var y := 1.0 - Used(ordinal, budget, Left(s, exp2, s.window));
    Unscaled(s.halfLife, log2(y), offset);
  }

  lemma Unscaled(h: real, x: real, offset: real)
    requires h > 0.0 && offset == -h * x
    ensures -offset / h == x
  {
    assert -offset == h * x;
    assert h * x / h == x;
  }

  lemma FloorAtLeast(k: int, n: int, used: real, left: real)
    requires 1 <= k <= n && left < 1.0
    ensures (n as real * (used / (1.0 - left))).Floor >= k <==> Used(k, n, left) <= used
  {
    var f, q, d, m := used / (1.0 - left), k as real / n as real, 1.0 - left, n as real;
    assert f * d == used && q * m == k as real;
    Scale(f, q, d);
    Scale(f, q, m);
    assert m * f == f * m;
  }

  /** Inside the window, a vote is due exactly when its share of the attention is used up. */
  lemma DueMeaning(k: int, budget: int, age: real, s: Section, exp2: Real2Real, log2: Real2Real)
    requires Validated(s) && InversePair(exp2, log2) && 1 <= k <= budget && 0.0 < age < s.window
    requires Left(s, exp2, s.window) != 1.0
    ensures DueCount(budget, age, s, exp2) >= k
            <==> Used(k, budget, Left(s, exp2, s.window)) <= 1.0 - Left(s, exp2, age)
  {
    WindowElapses(s, exp2, log2);
    FloorAtLeast(k, budget, 1.0 - Left(s, exp2, age), Left(s, exp2, s.window));
  }

  lemma OffsetInWindow(k: int, budget: int, s: Section, exp2: Real2Real, log2: Real2Real) returns (offset: real)
    requires Validated(s) && InversePair(exp2, log2) && 1 <= k <= budget
    ensures ArrivalOffset(k, budget, s, exp2, log2) == Some(offset)
    ensures 1.0 - Left(s, exp2, offset) == Used(k, budget, Left(s, exp2, s.window))
    ensures 0.0 < offset <= s.window && (k == budget ==> offset == s.window)
  {
    WindowElapses(s, exp2, log2);
    offset := OffsetMeaning(k, budget, s, exp2, log2);
    UsedOrder(k, budget, budget, Left(s, exp2, s.window));
    UsedOrder(0, k, budget, Left(s, exp2, s.window));
    LeftFalls(s, exp2, log2, 0.0, offset);
    LeftFalls(s, exp2, log2, s.window, offset);
    LeftFalls(s, exp2, log2, offset, s.window);
  }

  /** The two formulas are dual: at a positive age at least `k` votes are due exactly when the age has
      reached the offset of vote `k`. */
  lemma Duality(k: int, budget: int, age: real, s: Section, exp2: Real2Real, log2: Real2Real)
    requires Validated(s) && InversePair(exp2, log2) && 1 <= k <= budget && age > 0.0
    requires Left(s, exp2, s.window) != 1.0
    ensures DueCount(budget, age, s, exp2) >= k <==> age >= ArrivalOffset(k, budget, s, exp2, log2).value
  {
    var offset := OffsetInWindow(k, budget, s, exp2, log2);
    if age < s.window {
      LeftFalls(s, exp2, log2, age, offset);
      DueMeaning(k, budget, age, s, exp2, log2);
    }
  }

  /** Offsets lie in the window, strictly increase, and the last one is the end of the window. */
  lemma OffsetsIncrease(k: int, j: int, budget: int, s: Section, exp2: Real2Real, log2: Real2Real)
    requires Validated(s) && InversePair(exp2, log2) && 1 <= k < j <= budget
    ensures var at, later := ArrivalOffset(k, budget, s, exp2, log2), ArrivalOffset(j, budget, s, exp2, log2);
            at.Some? && later.Some? && 0.0 < at.value < later.value <= s.window
    ensures ArrivalOffset(budget, budget, s, exp2, log2) == Some(s.window)
  {
    WindowElapses(s, exp2, log2);
    var at := OffsetInWindow(k, budget, s, exp2, log2);
    var later := OffsetInWindow(j, budget, s, exp2, log2);
    var last := OffsetInWindow(budget, budget, s, exp2, log2);
    UsedOrder(k, j, budget, Left(s, exp2, s.window));
    LeftFalls(s, exp2, log2, at, later);
  }

  /** Never more than the budget, and never fewer as the item ages. */
  lemma DueMonotone(budget: int, young: real, aged: real, s: Section, exp2: Real2Real, log2: Real2Real)
    requires Validated(s) && InversePair(exp2, log2) && young <= aged
    requires Left(s, exp2, s.window) != 1.0
    ensures 0 <= DueCount(budget, young, s, exp2) <= DueCount(budget, aged, s, exp2)
    ensures budget >= 0 ==> DueCount(budget, aged, s, exp2) <= budget
  {
    var k := DueCount(budget, young, s, exp2);
    if k >= 1 {
      Duality(k, budget, young, s, exp2, log2);
      Duality(k, budget, aged, s, exp2, log2);
    }
  }

  /// Polling

  /** How many votes were due by the polls before poll `i`. */
  function DueBefore(ages: seq<real>, i: nat, budget: int, s: Section, exp2: Real2Real): int
    requires i <= |ages| && Validated(s) && Left(s, exp2, s.window) != 1.0
  {
    if i == 0 then 0 else DueCount(budget, ages[i - 1], s, exp2)
  }

  /** Poll `i` finds vote `k` due and the poll before it did not. */
  predicate BecomesDue(ages: seq<real>, i: nat, k: int, budget: int, s: Section, exp2: Real2Real)
    requires i < |ages| && Validated(s) && Left(s, exp2, s.window) != 1.0
  {
    DueBefore(ages, i, budget, s, exp2) < k <= DueCount(budget, ages[i], s, exp2)
  }

  /** Whatever the polling schedule, a vote becomes due at exactly one poll: the first at or after its
      offset. A vote whose offset no poll has reached becomes due at none. */
  lemma EachVoteDueOnce(ages: seq<real>, i: nat, k: int, budget: int, s: Section, exp2: Real2Real, log2: Real2Real)
    requires Validated(s) && InversePair(exp2, log2) && 1 <= k <= budget && i < |ages|
    requires Left(s, exp2, s.window) != 1.0
    requires forall p, q :: 0 <= p < q < |ages| ==> ages[p] <= ages[q]
    ensures var offset := ArrivalOffset(k, budget, s, exp2, log2);
            offset.Some? &&
            (BecomesDue(ages, i, k, budget, s, exp2)
             <==> ages[i] >= offset.value && forall j :: 0 <= j < i ==> ages[j] < offset.value)
  {
    var offset := Reached(k, budget, ages[i], s, exp2, log2);
    if i > 0 {
      var _ := Reached(k, budget, ages[i - 1], s, exp2, log2);
      assert forall j :: 0 <= j < i ==> ages[j] <= ages[i - 1];
    }
  }

  lemma Reached(k: int, budget: int, age: real, s: Section, exp2: Real2Real, log2: Real2Real) returns (offset: real)
    requires Validated(s) && InversePair(exp2, log2) && 1 <= k <= budget
    requires Left(s, exp2, s.window) != 1.0
    ensures ArrivalOffset(k, budget, s, exp2, log2) == Some(offset)
    ensures k <= DueCount(budget, age, s, exp2) <==> age >= offset
  {
    offset := OffsetInWindow(k, budget, s, exp2, log2);
    if age > 0.0 {
      Duality(k, budget, age, s, exp2, log2);
    }
  }
}
