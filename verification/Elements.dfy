/** What is in a sequence, and how many things that can be. */
module Elements {
  function Elems<T>(s: seq<T>): set<T> {
    set x | x in s
  }

  lemma ElemsSnoc<T>(s: seq<T>, x: T)
    ensures Elems(s + [x]) == Elems(s) + {x}
  {
  }

  /** `s` cut at `i` and at `j`. */
  lemma ElemsCut<T>(s: seq<T>, i: nat, j: nat)
    requires i <= j <= |s|
    ensures Elems(s[..j]) == Elems(s[..i]) + Elems(s[i..j])
  {
    assert s[..j] == s[..i] + s[i..j];
  }

  /** A smaller set has no more elements. */
  lemma SubsetCount<T>(a: set<T>, b: set<T>)
    requires a <= b
    ensures |a| <= |b|
  {
    assert b == a + (b - a);
  }

  lemma {:induction false} DistinctCount<T>(s: seq<T>)
    ensures |Elems(s)| <= |s|
  {
    if s == [] {
    } else {
      var front, last := s[..|s| - 1], s[|s| - 1];
      DistinctCount(front);
      assert s == front + [last];
      ElemsSnoc(front, last);
    }
  }
}
