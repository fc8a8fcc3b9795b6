/** Stable sorting of sequences by a comparison, and the facts every ordered listing relies on. */
module Sorting {
  /** `before(a, b)`: a may stand in front of b. */
  ghost predicate TotalPreorder<T(!new)>(before: (T, T) -> bool) {
    && (forall a, b :: before(a, b) || before(b, a))
    && (forall a, b, c :: before(a, b) && before(b, c) ==> before(a, c))
  }

  ghost predicate Antisymmetric<T(!new)>(before: (T, T) -> bool) {
    forall a, b :: before(a, b) && before(b, a) ==> a == b
  }

  /** Nothing occurs twice. */
  ghost predicate Unique<T(!new)>(s: seq<T>) {
    forall x :: multiset(s)[x] <= 1
  }

  ghost predicate Sorted<T>(s: seq<T>, before: (T, T) -> bool) {
    forall i, j :: 0 <= i < j < |s| ==> before(s[i], s[j])
  }

  function Insert<T(!new)>(x: T, s: seq<T>, before: (T, T) -> bool): (r: seq<T>)
    requires TotalPreorder(before) && Sorted(s, before)
    ensures |r| == |s| + 1
    ensures forall y :: y in r <==> y == x || y in s
    ensures Sorted(r, before)
  {
    if s == [] then [x]
    else if before(s[0], x) then
      var rest := Insert(x, s[1..], before);
      assert forall y :: y in s <==> y == s[0] || y in s[1..];
      assert forall y :: y in rest ==> before(s[0], y);
      [s[0]] + rest
    else
      assert forall y :: y in s ==> before(x, y);
      [x] + s
  }

  function Sort<T(!new)>(s: seq<T>, before: (T, T) -> bool): (r: seq<T>)
    requires TotalPreorder(before)
    ensures |r| == |s|
    ensures forall y :: y in r <==> y in s
    ensures Sorted(r, before)
  {
    if s == [] then []
    else
      assert forall y :: y in s <==> y == s[|s| - 1] || y in s[..|s| - 1];
      Insert(s[|s| - 1], Sort(s[..|s| - 1], before), before)
  }

  lemma {:induction false} InsertMultiset<T(!new)>(x: T, s: seq<T>, before: (T, T) -> bool)
    requires TotalPreorder(before) && Sorted(s, before)
    ensures multiset(Insert(x, s, before)) == multiset(s) + multiset{x}
  {
    if s != [] && before(s[0], x) {
      InsertMultiset(x, s[1..], before);
      assert s == [s[0]] + s[1..];
      assert Insert(x, s, before) == [s[0]] + Insert(x, s[1..], before);
    } else {
      assert Insert(x, s, before) == [x] + s;
    }
  }

  lemma {:induction false} SortMultiset<T(!new)>(s: seq<T>, before: (T, T) -> bool)
    requires TotalPreorder(before)
    ensures multiset(Sort(s, before)) == multiset(s)
  {
    if s == [] {
    } else {
      var front, last := s[..|s| - 1], s[|s| - 1];
      SortMultiset(front, before);
      InsertMultiset(last, Sort(front, before), before);
      assert s == front + [last];
    }
  }

  lemma HeadIsFirst<T(!new)>(s: seq<T>, x: T, before: (T, T) -> bool)
    requires TotalPreorder(before) && Sorted(s, before) && x in multiset(s)
    ensures s != [] && before(s[0], x)
  {
    var i :| 0 <= i < |s| && s[i] == x;
    assert before(x, x);
  }

  lemma SameHead<T(!new)>(a: seq<T>, b: seq<T>, before: (T, T) -> bool)
    requires TotalPreorder(before) && Antisymmetric(before) && a != []
    requires Sorted(a, before) && Sorted(b, before) && multiset(a) == multiset(b)
    ensures b != [] && a[0] == b[0]
  {
    assert a[0] in multiset(a);
    HeadIsFirst(b, a[0], before);
    assert b[0] in multiset(b);
    HeadIsFirst(a, b[0], before);
  }

  lemma TailMultiset<T>(s: seq<T>)
    requires s != []
    ensures multiset(s[1..]) == multiset(s) - multiset{s[0]}
  {
    assert s == [s[0]] + s[1..];
  }

  lemma SortedTail<T>(s: seq<T>, before: (T, T) -> bool)
    requires Sorted(s, before) && s != []
    ensures Sorted(s[1..], before)
  {
  }

  lemma SameHeadAndTail<T>(a: seq<T>, b: seq<T>)
    requires a != [] && b != [] && a[0] == b[0] && a[1..] == b[1..]
    ensures a == b
  {
    assert a == [a[0]] + a[1..] && b == [b[0]] + b[1..];
  }

  /** Under a total order a collection has one sorted listing. */
  lemma {:induction false} SortedUnique<T(!new)>(a: seq<T>, b: seq<T>, before: (T, T) -> bool)
    requires TotalPreorder(before) && Antisymmetric(before)
    requires Sorted(a, before) && Sorted(b, before) && multiset(a) == multiset(b)
    ensures a == b
  {
    if a == [] {
      assert |multiset(b)| == 0;
    } else {
      SameHead(a, b, before);
      TailMultiset(a);
      TailMultiset(b);
      SortedTail(a, before);
      SortedTail(b, before);
      SortedUnique(a[1..], b[1..], before);
      SameHeadAndTail(a, b);
    }
  }

  /** Sorting forgets the order of its input. */
  lemma SortPermutation<T(!new)>(a: seq<T>, b: seq<T>, before: (T, T) -> bool)
    requires TotalPreorder(before) && Antisymmetric(before) && multiset(a) == multiset(b)
    ensures Sort(a, before) == Sort(b, before)
  {
    SortMultiset(a, before);
    SortMultiset(b, before);
    SortedUnique(Sort(a, before), Sort(b, before), before);
  }
}
