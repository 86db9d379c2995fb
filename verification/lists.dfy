/** Lists of nodes as the structurizer keeps them: vectors without repetition. */
module Lists {
  /** The position of the first `x` in `s`, or the length of `s`. */
  ghost function Index<T>(s: seq<T>, x: T): (i: nat)
    ensures i <= |s|
    ensures x in s <==> i < |s|
    ensures i < |s| ==> s[i] == x
  {
    if s == [] || s[0] == x then 0
    else
      assert s == [s[0]] + s[1..];
      1 + Index(s[1..], x)
  }

  /** What occurs in the list. */
  ghost function Members<T>(s: seq<T>): set<T> {
    set x | x in s
  }

  /** Nothing occurs twice. */
  ghost predicate Distinct<T>(s: seq<T>) {
    forall i :: 0 <= i < |s| ==> Index(s, s[i]) == i
  }

  lemma DistinctByPairs<T>(s: seq<T>)
    requires forall i, j :: 0 <= i < j < |s| ==> s[i] != s[j]
    ensures Distinct(s)
  {
    forall i | 0 <= i < |s| ensures Index(s, s[i]) == i {
      var k := Index(s, s[i]);
      assert s[k] == s[i];
    }
  }

  lemma DistinctPair<T>(s: seq<T>, i: nat, j: nat)
    requires Distinct(s) && i < |s| && j < |s|
    ensures s[i] == s[j] ==> i == j
  {}

  lemma DistinctSlice<T>(s: seq<T>, lo: nat, hi: nat)
    requires Distinct(s) && lo <= hi <= |s|
    ensures Distinct(s[lo..hi])
    ensures forall x :: x in s[lo..hi] ==> x !in s[..lo] && x !in s[hi..]
  {
    forall i, j | 0 <= i < j < hi - lo ensures s[lo..hi][i] != s[lo..hi][j] {
      DistinctPair(s, lo + i, lo + j);
    }
    DistinctByPairs(s[lo..hi]);
    forall i, j | 0 <= i < |s| && 0 <= j < |s| && i != j ensures s[i] != s[j] {
      DistinctPair(s, i, j);
    }
  }

  lemma DistinctNext<T>(s: seq<T>, i: nat)
    requires Distinct(s) && i < |s|
    ensures s[i] !in s[..i] && s[..i + 1] == s[..i] + [s[i]]
  {
    DistinctSlice(s, 0, i);
    assert s[0..i] == s[..i];
    assert s[i] in s[i..] by { assert s[i..][0] == s[i]; }
  }

  lemma DistinctConcat<T>(a: seq<T>, b: seq<T>)
    requires Distinct(a) && Distinct(b) && forall x :: x in a ==> x !in b
    ensures Distinct(a + b)
  {
    forall i, j | 0 <= i < j < |a + b| ensures (a + b)[i] != (a + b)[j] {
      if j < |a| {
        DistinctPair(a, i, j);
      } else if i < |a| {
        assert a[i] in a && b[j - |a|] in b;
      } else {
        DistinctPair(b, i - |a|, j - |a|);
      }
    }
    DistinctByPairs(a + b);
  }

  lemma DistinctSnoc<T>(a: seq<T>, x: T)
    requires Distinct(a) && x !in a
    ensures Distinct(a + [x])
  {
    DistinctByPairs([x]);
    DistinctConcat(a, [x]);
  }

  /** Takes out the first occurrence of `y`. */
  function Erase<T(==)>(xs: seq<T>, y: T): seq<T> {
    if xs == [] then []
    else if xs[0] == y then xs[1..]
    else [xs[0]] + Erase(xs[1..], y)
  }

  lemma {:induction false} EraseMembers<T>(xs: seq<T>, y: T)
    requires Distinct(xs)
    ensures Distinct(Erase(xs, y))
    ensures forall z :: z in Erase(xs, y) <==> z in xs && z != y
  {
    if xs != [] {
      DistinctSlice(xs, 1, |xs|);
      assert xs[1..|xs|] == xs[1..] && xs == [xs[0]] + xs[1..] && xs[..1] == [xs[0]];
      EraseMembers(xs[1..], y);
      if xs[0] != y {
        DistinctByPairs([xs[0]]);
        DistinctConcat([xs[0]], Erase(xs[1..], y));
      }
    }
  }
}
