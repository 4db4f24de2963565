/** First occurrences in sequences, as the text and byte searches of the program find them. */
module Search {

  /** p occurs in s at i. */
  predicate At<T(==)>(s: seq<T>, p: seq<T>, i: nat)
  {
    i + |p| <= |s| && s[i..i + |p|] == p
  }

  predicate HasPrefix<T(==)>(s: seq<T>, p: seq<T>) { |p| <= |s| && s[..|p|] == p }

  /** The first position from `from` on at which p occurs, or -1. */
  function IndexFrom<T(==)>(s: seq<T>, p: seq<T>, from: nat): (r: int)
    requires from <= |s|
    ensures r < 0 ==> r == -1 && forall i: nat | from <= i :: !At(s, p, i)
    ensures r >= 0 ==> from <= r <= |s| && At(s, p, r) && forall i: nat | from <= i < r :: !At(s, p, i)
    decreases |s| - from
  {
    if At(s, p, from) then from
    else if from == |s| then -1
    else IndexFrom(s, p, from + 1)
  }

  function Index<T(==)>(s: seq<T>, p: seq<T>): (r: int)
    ensures r < 0 ==> r == -1 && forall i: nat :: !At(s, p, i)
    ensures r >= 0 ==> r <= |s| && At(s, p, r) && forall i: nat | i < r :: !At(s, p, i)
  {
    IndexFrom(s, p, 0)
  }

  /** The first occurrence is the only position with these properties. */
  lemma IndexIs<T>(s: seq<T>, p: seq<T>, r: nat)
    requires At(s, p, r) && forall i: nat | i < r :: !At(s, p, i)
    ensures Index(s, p) == r
  {
    var k := Index(s, p);
    assert !(k < 0);
    assert !(k < r) && !(r < k);
  }

  /** Occurrences within a prefix are the occurrences that end there. */
  lemma AtInPrefix<T>(s: seq<T>, p: seq<T>, n: nat, i: nat)
    requires n <= |s|
    ensures At(s[..n], p, i) <==> At(s, p, i) && i + |p| <= n
  {
    if i + |p| <= n {
      assert s[..n][i..i + |p|] == s[i..i + |p|];
    }
  }

  /** A prefix shows the first occurrence as soon as it reaches its end, and none before. */
  lemma IndexInPrefix<T>(s: seq<T>, p: seq<T>, n: nat)
    requires n <= |s|
    ensures Index(s[..n], p) == if Index(s, p) >= 0 && Index(s, p) + |p| <= n then Index(s, p) else -1
  {
    var k := Index(s, p);
    forall i: nat ensures At(s[..n], p, i) <==> At(s, p, i) && i + |p| <= n {
      AtInPrefix(s, p, n, i);
    }
    if k >= 0 && k + |p| <= n {
      IndexIs(s[..n], p, k);
    } else {
      forall i: nat ensures !At(s[..n], p, i) {
        assert At(s, p, i) ==> k >= 0 && k <= i;
      }
    }
  }
}
