/** The Gini coefficient over exact reals: the sorted formula against pairwise differences. */
module Gini {
  import opened Wrappers
  import opened Sorting

  function Ascending(): (real, real) -> bool {
    (a, b) => a <= b
  }

  lemma AscendingIsTotal()
    ensures TotalPreorder(Ascending()) && Antisymmetric(Ascending())
  {
  }

  function Sum(s: seq<real>): real {
    if s == [] then 0.0 else Sum(s[..|s| - 1]) + s[|s| - 1]
  }

  /** The sum of every value times its one-based rank in `s`. */
  function Ranked(s: seq<real>): real {
    if s == [] then 0.0 else Ranked(s[..|s| - 1]) + |s| as real * s[|s| - 1]
  }

  function SortedValues(values: seq<real>): (r: seq<real>)
    ensures |r| == |values|
  {
    AscendingIsTotal();
    Sort(values, Ascending())
  }

  /** The textbook expression over a sorted list's ranked sum, length and total. */
  function Formula(ranked: real, n: real, total: real): real
    requires n > 0.0 && total != 0.0
  {
    2.0 * ranked / (n * total) - (n + 1.0) / n
  }

  /** Half the mean absolute difference, relative to the mean. */
  function RelativeDifference(pairs: real, n: real, total: real): real
    requires n > 0.0 && total != 0.0
  {
    pairs / (2.0 * n * total)
  }

  function Coefficient(values: seq<real>): Option<real> {
    var vals := SortedValues(values);
    if vals == [] then None
    else
      var total := Sum(vals);
      if total == 0.0 then None else Some(Formula(Ranked(vals), |vals| as real, total))
  }

  /// The definition: mean absolute difference over all ordered pairs

  function Abs(x: real): real {
    if x < 0.0 then -x else x
  }

  function Distances(x: real, s: seq<real>): real {
    if s == [] then 0.0 else Distances(x, s[..|s| - 1]) + Abs(x - s[|s| - 1])
  }

  /** The sum of |a - b| over all ordered pairs of positions. */
  function Pairwise(s: seq<real>): real {
    if s == [] then 0.0
    else Pairwise(s[..|s| - 1]) + 2.0 * Distances(s[|s| - 1], s[..|s| - 1])
  }

  lemma {:induction false} DistancesCons(x: real, y: real, s: seq<real>)
    ensures Distances(x, [y] + s) == Abs(x - y) + Distances(x, s)
  {
    if s == [] {
      assert ([y] + s)[..0] == [];
    } else {
      assert ([y] + s)[..|s|] == [y] + s[..|s| - 1];
      DistancesCons(x, y, s[..|s| - 1]);
    }
  }

  lemma {:induction false} PairwiseCons(y: real, s: seq<real>)
    ensures Pairwise([y] + s) == Pairwise(s) + 2.0 * Distances(y, s)
  {
    if s == [] {
      assert ([y] + s)[..0] == [];
    } else {
      assert ([y] + s)[..|s|] == [y] + s[..|s| - 1];
      PairwiseCons(y, s[..|s| - 1]);
      DistancesCons(s[|s| - 1], y, s[..|s| - 1]);
    }
  }

  lemma {:induction false} SumCons(y: real, s: seq<real>)
    ensures Sum([y] + s) == y + Sum(s)
  {
    if s == [] {
      assert ([y] + s)[..0] == [];
    } else {
      assert ([y] + s)[..|s|] == [y] + s[..|s| - 1];
      SumCons(y, s[..|s| - 1]);
    }
  }

  /// Both sums forget the order of the list

  lemma {:induction false} InsertKeepsSums(x: real, s: seq<real>, y: real)
    requires TotalPreorder(Ascending()) && Sorted(s, Ascending())
    ensures Distances(y, Insert(x, s, Ascending())) == Abs(y - x) + Distances(y, s)
    ensures Sum(Insert(x, s, Ascending())) == x + Sum(s)
  {
    DistancesCons(y, x, s);
    SumCons(x, s);
    assert Insert(x, [], Ascending()) == [x] + [];
    if s == [] || x < s[0] {
    } else {
      var rest := Insert(x, s[1..], Ascending());
      InsertKeepsSums(x, s[1..], y);
      assert s == [s[0]] + s[1..];
      DistancesCons(y, s[0], s[1..]);
      DistancesCons(y, s[0], rest);
      SumCons(s[0], s[1..]);
      SumCons(s[0], rest);
    }
  }

  lemma {:induction false} InsertKeepsPairs(x: real, s: seq<real>)
    requires TotalPreorder(Ascending()) && Sorted(s, Ascending())
    ensures Pairwise(Insert(x, s, Ascending())) == Pairwise(s) + 2.0 * Distances(x, s)
  {
    PairwiseCons(x, s);
    assert Insert(x, [], Ascending()) == [x] + [];
    if s == [] || x < s[0] {
    } else {
      var rest := Insert(x, s[1..], Ascending());
      InsertKeepsPairs(x, s[1..]);
      InsertKeepsSums(x, s[1..], s[0]);
      assert s == [s[0]] + s[1..];
      PairwiseCons(s[0], s[1..]);
      PairwiseCons(s[0], rest);
      DistancesCons(x, s[0], s[1..]);
    }
  }

  lemma {:induction false} SortKeepsSums(s: seq<real>, y: real)
    ensures Distances(y, SortedValues(s)) == Distances(y, s)
    ensures Sum(SortedValues(s)) == Sum(s)
    ensures Pairwise(SortedValues(s)) == Pairwise(s)
  {
    AscendingIsTotal();
    if s == [] {
    } else {
      var front, last := s[..|s| - 1], s[|s| - 1];
      SortKeepsSums(front, y);
      SortKeepsSums(front, last);
      InsertKeepsSums(last, SortedValues(front), y);
      InsertKeepsPairs(last, SortedValues(front));
    }
  }

  /// The sorted formula

  lemma {:induction false} DistancesToTop(s: seq<real>, x: real)
    requires forall i :: 0 <= i < |s| ==> s[i] <= x
    ensures Distances(x, s) == |s| as real * x - Sum(s)
  {
    if s == [] {
    } else {
      DistancesToTop(s[..|s| - 1], x);
    }
  }

  lemma {:induction false} SortedPairs(s: seq<real>)
    requires Sorted(s, Ascending())
    ensures Pairwise(s) == 4.0 * Ranked(s) - 2.0 * (|s| as real + 1.0) * Sum(s)
  {
    if s == [] {
    } else {
      var front, x, m := s[..|s| - 1], s[|s| - 1], |s| as real;
      SortedPairs(front);
      forall i | 0 <= i < |front|
        ensures front[i] <= x
      {
        assert Ascending()(s[i], s[|s| - 1]);
      }
      DistancesToTop(front, x);
      assert 2.0 * (m + 1.0) * (Sum(front) + x) == 2.0 * m * Sum(front) + 2.0 * Sum(front) + 2.0 * m * x + 2.0 * x;
      assert |front| as real * x == m * x - x;
    }
  }

  lemma Divided(ranked: real, pairs: real, n: real, total: real)
    requires n > 0.0 && total != 0.0 && pairs == 4.0 * ranked - 2.0 * (n + 1.0) * total
    ensures Formula(ranked, n, total) == RelativeDifference(pairs, n, total)
  {
    var d := n * total;
    assert d != 0.0;
    assert (n + 1.0) / n == (n + 1.0) * total / d by { Cancel(n + 1.0, n, total); }
    assert 2.0 * n * total == 2.0 * d;
    assert pairs / (2.0 * d) == (2.0 * ranked - (n + 1.0) * total) / d by {
      Cancel(2.0 * ranked - (n + 1.0) * total, d, 2.0);
      assert (2.0 * ranked - (n + 1.0) * total) * 2.0 == pairs;
      assert d * 2.0 == 2.0 * d;
    }
  }

  lemma Cancel(a: real, b: real, c: real)
    requires b != 0.0 && c != 0.0
    ensures b * c != 0.0 && (a * c) / (b * c) == a / b
  {
    var q := a / b;
    assert q * b == a;
    assert q * (b * c) == a * c;
  }

  /** The four quantities of a sorted list and the law between them. */
  lemma SortedLaw(s: seq<real>) returns (pairs: real, ranked: real, n: real, total: real)
    requires Sorted(s, Ascending())
    ensures pairs == Pairwise(s) && ranked == Ranked(s) && n == |s| as real && total == Sum(s)
    ensures pairs == 4.0 * ranked - 2.0 * (n + 1.0) * total
  {
    pairs, ranked, n, total := Pairwise(s), Ranked(s), |s| as real, Sum(s);
    SortedPairs(s);
  }

  lemma SortedFormula(s: seq<real>)
    requires Sorted(s, Ascending()) && |s| as real > 0.0 && Sum(s) != 0.0
    ensures Formula(Ranked(s), |s| as real, Sum(s)) == RelativeDifference(Pairwise(s), |s| as real, Sum(s))
  {
    var pairs, ranked, n, total := SortedLaw(s);
    Divided(ranked, pairs, n, total);
  }

  /** The sorted formula is the sum of pairwise absolute differences over 2 n total, for every list
      whose total is not zero. */
  lemma FormulaIsPairwise(values: seq<real>)
    ensures Coefficient(values).None? <==> values == [] || Sum(values) == 0.0
    ensures Coefficient(values).Some? ==>
              values != [] && Sum(values) != 0.0
              && Coefficient(values).value == RelativeDifference(Pairwise(values), |values| as real, Sum(values))
  {
    var vals := SortedValues(values);
    AscendingIsTotal();
    SortKeepsSums(values, 0.0);
    if values != [] && Sum(values) != 0.0 {
      SortedFormula(vals);
    }
  }

  /** Reordering the values does not change the coefficient. */
  lemma PermutationInvariant(a: seq<real>, b: seq<real>)
    requires multiset(a) == multiset(b)
    ensures Coefficient(a) == Coefficient(b)
  {
    AscendingIsTotal();
    SortPermutation(a, b, Ascending());
    assert SortedValues(a) == SortedValues(b);
  }

  /// Bounds

  ghost predicate NonNegative(s: seq<real>) {
    forall i :: 0 <= i < |s| ==> s[i] >= 0.0
  }

  lemma {:induction false} DistancesBound(x: real, s: seq<real>)
    requires x >= 0.0 && NonNegative(s)
    ensures 0.0 <= Distances(x, s) <= |s| as real * x + Sum(s)
  {
    if s == [] {
    } else {
      DistancesBound(x, s[..|s| - 1]);
    }
  }

  lemma {:induction false} PairwiseBound(s: seq<real>)
    requires NonNegative(s)
    ensures 0.0 <= Sum(s)
    ensures 0.0 <= Pairwise(s)
    ensures s != [] ==> Pairwise(s) <= 2.0 * (|s| as real - 1.0) * Sum(s)
  {
    if s == [] {
    } else {
      var front, x, m := s[..|s| - 1], s[|s| - 1], |s| as real;
      PairwiseBound(front);
      DistancesBound(x, front);
      assert |front| as real == m - 1.0;
      if front != [] {
        assert 2.0 * (m - 2.0) * Sum(front) + 2.0 * Sum(front) == 2.0 * (m - 1.0) * Sum(front);
        assert 2.0 * (m - 1.0) * (Sum(front) + x) == 2.0 * (m - 1.0) * Sum(front) + 2.0 * (m - 1.0) * x;
      }
    }
  }

  lemma {:induction false} PairwiseZero(s: seq<real>)
    ensures 0.0 <= Pairwise(s)
    ensures Pairwise(s) == 0.0 <==> forall i, j :: 0 <= i < j < |s| ==> s[i] == s[j]
  {
    if s == [] {
    } else {
      var front, x := s[..|s| - 1], s[|s| - 1];
      PairwiseZero(front);
      DistancesZero(x, front);
      assert forall i :: 0 <= i < |front| ==> front[i] == s[i];
      if Pairwise(s) == 0.0 {
        assert forall i, j :: 0 <= i < j < |front| ==> front[i] == front[j];
      }
    }
  }

  lemma {:induction false} DistancesZero(x: real, s: seq<real>)
    ensures 0.0 <= Distances(x, s)
    ensures Distances(x, s) == 0.0 <==> forall i :: 0 <= i < |s| ==> s[i] == x
  {
    if s == [] {
    } else {
      var front := s[..|s| - 1];
      DistancesZero(x, front);
      assert forall i :: 0 <= i < |front| ==> front[i] == s[i];
    }
  }

  lemma DivideBound(a: real, b: real, d: real)
    requires d > 0.0
    ensures a <= b ==> a / d <= b / d
    ensures a >= 0.0 ==> a / d >= 0.0
    ensures a / d == 0.0 <==> a == 0.0
  {
    assert (a / d) * d == a && (b / d) * d == b;
  }

  lemma BoundedLaw(s: seq<real>) returns (pairs: real, n: real, total: real)
    requires NonNegative(s) && s != []
    ensures pairs == Pairwise(s) && n == |s| as real && total == Sum(s)
    ensures n > 0.0 && 0.0 <= total && 0.0 <= pairs <= 2.0 * (n - 1.0) * total
  {
    pairs, n, total := Pairwise(s), |s| as real, Sum(s);
    PairwiseBound(s);
  }

  /** For non-negative values not all zero the coefficient lies in [0, (n - 1) / n], and is zero exactly
      when all values are equal. */
  lemma CoefficientBounds(values: seq<real>)
    requires NonNegative(values)
    ensures Coefficient(values).None? <==> forall i :: 0 <= i < |values| ==> values[i] == 0.0
    ensures Coefficient(values).Some? ==>
              var g, n := Coefficient(values).value, |values| as real;
              && n > 0.0 && 0.0 <= g <= (n - 1.0) / n
              && (g == 0.0 <==> forall i, j :: 0 <= i < j < |values| ==> values[i] == values[j])
  {
    FormulaIsPairwise(values);
    SumZero(values);
    if Coefficient(values).Some? {
      PairwiseZero(values);
      var pairs, n, total := BoundedLaw(values);
      RelativeBound(pairs, n, total);
    }
  }

  lemma RelativeBound(pairs: real, n: real, total: real)
    requires n > 0.0 && total > 0.0 && 0.0 <= pairs <= 2.0 * (n - 1.0) * total
    ensures 0.0 <= RelativeDifference(pairs, n, total) <= (n - 1.0) / n
    ensures RelativeDifference(pairs, n, total) == 0.0 <==> pairs == 0.0
  {
    var d := 2.0 * n * total;
    assert d == 2.0 * (n * total) && n * total > 0.0;
    DivideBound(pairs, 2.0 * (n - 1.0) * total, d);
    Cancel(n - 1.0, n, 2.0 * total);
    assert (n - 1.0) * (2.0 * total) == 2.0 * (n - 1.0) * total;
    assert n * (2.0 * total) == d;
  }

  lemma {:induction false} SumZero(s: seq<real>)
    requires NonNegative(s)
    ensures 0.0 <= Sum(s)
    ensures Sum(s) == 0.0 <==> forall i :: 0 <= i < |s| ==> s[i] == 0.0
  {
    if s == [] {
    } else {
      var front := s[..|s| - 1];
      SumZero(front);
      assert forall i :: 0 <= i < |front| ==> front[i] == s[i];
    }
  }
}
