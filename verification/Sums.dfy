/** Sums over finite sets of rows: what the database's SUM aggregates mean. */
module Sums {
  ghost function Total<T(!new)>(s: set<T>, f: T -> int): int {
    if s == {} then 0
    else
      var x :| x in s;
      f(x) + Total(s - {x}, f)
  }

  lemma {:induction false} TotalRemove<T(!new)>(s: set<T>, f: T -> int, x: T)
    requires x in s
    ensures Total(s, f) == f(x) + Total(s - {x}, f)
  {
    var y :| y in s && Total(s, f) == f(y) + Total(s - {y}, f);
    if y == x {
    } else {
      TotalRemove(s - {y}, f, x);
      TotalRemove(s - {x}, f, y);
      assert s - {y} - {x} == s - {x} - {y};
    }
  }

  lemma {:induction false} TotalSame<T(!new)>(s: set<T>, f: T -> int, g: T -> int)
    requires forall x :: x in s ==> f(x) == g(x)
    ensures Total(s, f) == Total(s, g)
  {
    if s == {} {
    } else {
      var x :| x in s;
      TotalRemove(s, f, x);
      TotalRemove(s, g, x);
      TotalSame(s - {x}, f, g);
    }
  }

  /** Two terms' sums differ by what the two functions differ at `x`. */
  lemma TotalUpdate<T(!new)>(s: set<T>, f: T -> int, g: T -> int, x: T)
    requires forall y :: y in s && y != x ==> f(y) == g(y)
    ensures Total(s, g) == Total(s, f) + if x in s then g(x) - f(x) else 0
  {
    if x in s {
      TotalRemove(s, f, x);
      TotalRemove(s, g, x);
      TotalSame(s - {x}, f, g);
    } else {
      TotalSame(s, f, g);
    }
  }

  lemma TotalAdd<T(!new)>(s: set<T>, f: T -> int, x: T)
    requires x !in s
    ensures Total(s + {x}, f) == Total(s, f) + f(x)
  {
    TotalRemove(s + {x}, f, x);
    assert s + {x} - {x} == s;
  }

  /** A sum of zeros; with terms 0 or 1, the sum counts, and is zero only if nothing is counted. */
  lemma {:induction false} TotalZero<T(!new)>(s: set<T>, f: T -> int)
    requires forall x :: x in s ==> f(x) == 0
    ensures Total(s, f) == 0
  {
    if s == {} {
    } else {
      var x :| x in s;
      TotalRemove(s, f, x);
      TotalZero(s - {x}, f);
    }
  }

  /** A sum of ones is a count. */
  lemma {:induction false} TotalCounts<T(!new)>(s: set<T>, f: T -> int, marked: set<T>)
    requires marked <= s && forall x :: x in s ==> f(x) == if x in marked then 1 else 0
    ensures Total(s, f) == |marked|
    decreases |s|
  {
    if s == {} {
    } else {
      var x :| x in s;
      TotalRemove(s, f, x);
      TotalCounts(s - {x}, f, marked - {x});
    }
  }

  lemma {:induction false} TotalOfTwo<T(!new)>(s: set<T>, f: T -> int, g: T -> int, h: T -> int)
    requires forall x :: x in s ==> f(x) == g(x) + h(x)
    ensures Total(s, f) == Total(s, g) + Total(s, h)
    decreases |s|
  {
    if s == {} {
    } else {
      var x :| x in s;
      TotalRemove(s, f, x);
      TotalRemove(s, g, x);
      TotalRemove(s, h, x);
      TotalOfTwo(s - {x}, f, g, h);
    }
  }
}
