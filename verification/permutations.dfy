/**
 * Reading a sequence through a one-to-one index map reorders it without
 * losing or duplicating elements. The bit-reversed buffer is such a reading.
 */
module Permutations {

  /** `y` is `x` read through the index map `f`: `y[i] == x[f[i]]`. */
  ghost predicate Reindexes<T>(y: seq<T>, x: seq<T>, f: seq<nat>) {
    && |y| == |x| == |f|
    && (forall i :: 0 <= i < |f| ==> f[i] < |x| && y[i] == x[f[i]])
  }

  predicate Injective(f: seq<nat>) {
    forall i, j :: 0 <= i < j < |f| ==> f[i] != f[j]
  }

  /** A one-to-one reindexing is a permutation: the multisets agree. */
  lemma {:induction false} ReindexPreservesMultiset<T>(y: seq<T>, x: seq<T>, f: seq<nat>)
    requires Reindexes(y, x, f) && Injective(f)
    ensures multiset(y) == multiset(x)
  {
    if |f| > 0 {
      var n := |f| - 1;
      var j := f[n];
      // Swap positions j and n of x, so that y's last element ends up last.
      var x' := x[j := x[n]][n := x[j]];
      assert multiset(x') == multiset(x) by {
        SwapKeepsMultiset(x, j, n);
      }
      var f' := seq(n, i requires 0 <= i < n => if f[i] == n then j else f[i]);
      forall i | 0 <= i < n
        ensures f'[i] < n && y[i] == x'[f'[i]]
      {
        assert f[i] != j;
      }
      forall a, b | 0 <= a < b < n
        ensures f'[a] != f'[b]
      {
        assert f[a] != f[b] && f[a] != j && f[b] != j;
      }
      assert Reindexes(y[..n], x'[..n], f');
      ReindexPreservesMultiset(y[..n], x'[..n], f');
      assert y == y[..n] + [y[n]];
      assert x' == x'[..n] + [x'[n]];
      assert x'[n] == y[n];
    }
  }

  /** Exchanging two positions keeps the multiset of elements. */
  lemma SwapKeepsMultiset<T>(x: seq<T>, j: nat, n: nat)
    requires j < |x| && n < |x|
    ensures multiset(x[j := x[n]][n := x[j]]) == multiset(x)
  {
  }
}
