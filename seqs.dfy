/**
 * Sequence helpers shared by the exporters and the statistics modules:
 * order-preserving de-duplication (pandas `unique()`, `[...new Set(…)]`,
 * the insertion order of a `Map`'s keys) and the distinctness of
 * permutations.
 */
module Seqs {
  predicate NoDuplicates<T(==)>(s: seq<T>) {
    forall i, j :: 0 <= i < j < |s| ==> s[i] != s[j]
  }

  /** The position of the first occurrence of `x` in `s`. */
  function FirstIndex<T(==)>(s: seq<T>, x: T): (k: nat)
    requires x in s
    ensures k < |s| && s[k] == x && x !in s[..k]
  {
    if s[0] == x then 0 else 1 + FirstIndex(s[1..], x)
  }

  /** Each value of `s` once, in the order of its first appearance. */
  function Unique<T(==)>(s: seq<T>): (u: seq<T>)
    ensures NoDuplicates(u)
  {
    if s == [] then []
    else
      var p := Unique(s[..|s| - 1]);
      assert s == s[..|s| - 1] + [s[|s| - 1]];
      if s[|s| - 1] in p then p else p + [s[|s| - 1]]
  }

  /** The first index is the one position holding `x` with no `x` before it. */
  lemma {:induction false} FirstIndexIs<T>(s: seq<T>, x: T, k: nat)
    requires k < |s| && s[k] == x && x !in s[..k]
    ensures FirstIndex(s, x) == k
  {
    if k > 0 {
      assert s[0] == s[..k][0];
      assert s[1..][..k - 1] == s[..k][1..];
      FirstIndexIs(s[1..], x, k - 1);
    }
  }

  lemma FirstIndexPrefix<T>(s: seq<T>, x: T, n: nat)
    requires n <= |s| && x in s[..n]
    ensures FirstIndex(s, x) == FirstIndex(s[..n], x)
  {
    var k := FirstIndex(s[..n], x);
    assert s[..n][..k] == s[..k];
    FirstIndexIs(s, x, k);
  }

  /** The unique values appear in the order of their first occurrences. */
  lemma {:induction false} UniqueKeepsFirstSeenOrder<T>(s: seq<T>)
    ensures forall i, j :: 0 <= i < j < |Unique(s)| ==>
      Unique(s)[i] in s && Unique(s)[j] in s &&
      FirstIndex(s, Unique(s)[i]) < FirstIndex(s, Unique(s)[j])
  {
    UniqueElements(s);
    if s != [] {
      var n := |s| - 1;
      var p, x := s[..n], s[n];
      assert s == p + [x];
      UniqueKeepsFirstSeenOrder(p);
      UniqueElements(p);
      var u := Unique(s);
      forall i | 0 <= i < |u| && u[i] in p ensures FirstIndex(s, u[i]) == FirstIndex(p, u[i]) {
        FirstIndexPrefix(s, u[i], n);
      }
      if x !in Unique(p) {
        UniqueMembership(p, x);
        assert FirstIndex(s, x) == n by {
          var k := FirstIndex(s, x);
          assert s[..n] == p;
        }
        forall i | 0 <= i < |u| - 1 ensures u[i] in s && FirstIndex(s, u[i]) < n {
          assert u[i] == Unique(p)[i];
          FirstIndexPrefix(s, u[i], n);
        }
      }
    }
  }

  /** The unique list holds exactly the values of `s`. */
  lemma {:induction false} UniqueMembership<T>(s: seq<T>, x: T)
    ensures x in Unique(s) <==> x in s
  {
    if s != [] {
      var n := |s| - 1;
      assert s == s[..n] + [s[n]];
      UniqueMembership(s[..n], x);
    }
  }

  /** Every value of the unique list occurs in `s`, and every value of `s`
      occurs in the unique list. */
  lemma UniqueElements<T>(s: seq<T>)
    ensures forall i :: 0 <= i < |Unique(s)| ==> Unique(s)[i] in s
    ensures forall i :: 0 <= i < |s| ==> s[i] in Unique(s)
  {
    forall i | 0 <= i < |Unique(s)| ensures Unique(s)[i] in s {
      UniqueMembership(s, Unique(s)[i]);
    }
    forall i | 0 <= i < |s| ensures s[i] in Unique(s) {
      UniqueMembership(s, s[i]);
    }
  }

  /** Appending a value extends the unique list exactly when it is new. */
  lemma UniqueSnoc<T>(s: seq<T>, x: T)
    ensures Unique(s + [x]) == if x in s then Unique(s) else Unique(s) + [x]
  {
    assert (s + [x])[..|s|] == s;
    UniqueMembership(s, x);
  }

  /** A value that is new to `s` is first found at the end of `s + [x]`. */
  lemma FirstIndexOfNew<T>(s: seq<T>, x: T)
    requires x !in s
    ensures FirstIndex(s + [x], x) == |s|
  {
    assert (s + [x])[..|s|] == s;
    FirstIndexIs(s + [x], x, |s|);
  }

  /** A value already in `s` keeps its first index in `s + [y]`. */
  lemma FirstIndexOfOld<T>(s: seq<T>, x: T, y: T)
    requires x in s
    ensures FirstIndex(s + [y], x) == FirstIndex(s, x)
  {
    var k := FirstIndex(s, x);
    assert (s + [y])[..k] == s[..k];
    FirstIndexIs(s + [y], x, k);
  }

  /** In a sequence without duplicates every element's first index is its own. */
  lemma FirstIndexOfDistinct<T>(s: seq<T>, j: nat)
    requires NoDuplicates(s) && j < |s|
    ensures FirstIndex(s, s[j]) == j
  {
    assert s[j] !in s[..j];
    FirstIndexIs(s, s[j], j);
  }

  /** A sequence that agrees with `s` on its positions and has one more
      element `v` is `s + [v]`. */
  lemma AppendedByPositions<T>(s: seq<T>, t: seq<T>, v: T)
    requires |t| == |s| + 1 && t[|s|] == v
    requires forall j :: 0 <= j < |s| ==> t[j] == s[j]
    ensures t == s + [v]
  {
  }

  /** A sequence without duplicates holds each value at most once. */
  lemma {:induction false} DistinctCount<T>(s: seq<T>, x: T)
    requires NoDuplicates(s)
    ensures multiset(s)[x] <= 1
  {
    if s != [] {
      var n := |s| - 1;
      assert s == s[..n] + [s[n]];
      assert NoDuplicates(s[..n]);
      DistinctCount(s[..n], x);
      if s[n] == x {
        assert x !in s[..n] by {
          forall i | 0 <= i < n ensures s[..n][i] != x {
            assert s[i] != s[n];
          }
        }
      }
    }
  }

  /** A value at two positions is counted twice. */
  lemma TwiceCounted<T>(s: seq<T>, i: nat, j: nat)
    requires i < j < |s| && s[i] == s[j]
    ensures multiset(s)[s[i]] >= 2
  {
    assert s == s[..j] + [s[j]] + s[j + 1..];
    assert s[..j][i] == s[i];
    assert multiset(s[..j])[s[i]] >= 1;
  }

  /** A permutation of a sequence without duplicates has none. */
  lemma PermutationKeepsDistinct<T>(r: seq<T>, s: seq<T>)
    requires multiset(r) == multiset(s) && NoDuplicates(s)
    ensures NoDuplicates(r)
  {
    forall i, j | 0 <= i < j < |r| ensures r[i] != r[j] {
      if r[i] == r[j] {
        TwiceCounted(r, i, j);
        DistinctCount(s, r[i]);
      }
    }
  }
}
