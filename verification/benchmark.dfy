/**
 * The timing summary of `benchmarkComputation` (utils/fft.ts): the duration
 * of every trial is collected, the durations are sorted ascending in place,
 * and the one at index floor(len / 2) is reported as the median. The clock
 * and the transform being timed are outside the model: the duration of
 * trial i is the parameter `elapsed(i)`.
 */
module Benchmark {
  import opened Wrappers
  import opened Permutations

  predicate Sorted(s: seq<real>) {
    forall p, q :: 0 <= p < q < |s| ==> s[p] <= s[q]
  }

  // ---------------------------------------------------------------------
  // Reference definition of the ascending order

  /** `x` inserted in front of the first element of `s` that is not below it. */
  function Insert(x: real, s: seq<real>): (r: seq<real>)
    ensures |r| == |s| + 1
    ensures multiset(r) == multiset(s) + multiset{x}
  {
    if s == [] || x <= s[0] then [x] + s
    else
      assert s == [s[0]] + s[1..];
      [s[0]] + Insert(x, s[1..])
  }

  lemma {:induction false} InsertSorted(x: real, s: seq<real>)
    requires Sorted(s)
    ensures Sorted(Insert(x, s))
  {
    if s != [] && x > s[0] {
      var tail := Insert(x, s[1..]);
      InsertSorted(x, s[1..]);
      forall q | 0 <= q < |tail|
        ensures s[0] <= tail[q]
      {
        assert tail[q] in multiset(s[1..]) + multiset{x};
        if tail[q] != x {
          var i :| 0 <= i < |s[1..]| && s[1..][i] == tail[q];
          assert s[i + 1] == tail[q];
        }
      }
    }
  }

  /** The durations in ascending order: each one inserted into the sorted rest. */
  function SortAscending(t: seq<real>): (r: seq<real>)
    ensures |r| == |t|
    ensures multiset(r) == multiset(t)
  {
    if t == [] then []
    else
      assert t == t[..|t| - 1] + [t[|t| - 1]];
      Insert(t[|t| - 1], SortAscending(t[..|t| - 1]))
  }

  lemma {:induction false} SortAscendingSorted(t: seq<real>)
    ensures Sorted(SortAscending(t))
  {
    if t != [] {
      SortAscendingSorted(t[..|t| - 1]);
      InsertSorted(t[|t| - 1], SortAscending(t[..|t| - 1]));
    }
  }

  /**
   * There is one ascending arrangement of a multiset of durations, so any
   * sorting procedure agrees with `SortAscending`.
   */
  lemma {:induction false} SortedUnique(s: seq<real>, u: seq<real>)
    requires Sorted(s) && Sorted(u) && multiset(s) == multiset(u)
    ensures s == u
  {
    assert |s| == |multiset(s)| == |multiset(u)| == |u|;
    if s != [] {
      SortedHeads(s, u);
      MultisetTail(s);
      MultisetTail(u);
      SortedUnique(s[1..], u[1..]);
      assert s == [s[0]] + s[1..] && u == [u[0]] + u[1..];
    }
  }

  /** Both arrangements start with the least duration. */
  lemma SortedHeads(s: seq<real>, u: seq<real>)
    requires Sorted(s) && Sorted(u) && multiset(s) == multiset(u)
    requires |s| > 0 && |u| > 0
    ensures s[0] == u[0]
  {
    assert s[0] in multiset(u) && u[0] in multiset(s);
    var i :| 0 <= i < |u| && u[i] == s[0];
    var j :| 0 <= j < |s| && s[j] == u[0];
  }

  /** The median `benchmarkComputation` reports: none when there was no trial. */
  function Median(times: seq<real>): (median: Option<real>)
    ensures median.None? <==> |times| == 0
  {
    if |times| == 0 then None else Some(SortAscending(times)[|times| / 2])
  }

  // ---------------------------------------------------------------------
  // The measurement loop and the in-place sort

  /**
   * `benchmarkComputation(x, fn, trials)` with the clock read out as
   * `elapsed`: run `trials` trials (5 unless given, none when
   * `trials <= 0`), sort the durations and pick the one at index
   * floor(len / 2).
   */
  method BenchmarkComputation(elapsed: nat -> real, trials: int := 5) returns (median: Option<real>)
    ensures median == Median(Durations(trials, elapsed))
  {
    var count := if trials > 0 then trials else 0;
    var times := new real[count];
    for i := 0 to count
      invariant forall q :: 0 <= q < i ==> times[q] == elapsed(q)
    {
      times[i] := elapsed(i);
    }
    ghost var measured := times[..];
    assert measured == Durations(trials, elapsed);
    SortTimes(times);
    SortAscendingSorted(measured);
    SortedUnique(times[..], SortAscending(measured));
    if times.Length == 0 {
      median := None;
    } else {
      median := Some(times[times.Length / 2]);
    }
  }

  /** The durations of trials 0, 1, ..., trials - 1. */
  function Durations(trials: int, elapsed: nat -> real): (times: seq<real>)
    ensures |times| == if trials > 0 then trials else 0
    ensures forall i :: 0 <= i < |times| ==> times[i] == elapsed(i)
  {
    seq(if trials > 0 then trials else 0, i requires 0 <= i => elapsed(i))
  }

  /** `times.sort((a, b) => a - b)`: an in-place ascending sort. */
  method SortTimes(a: array<real>)
    modifies a
    ensures Sorted(a[..])
    ensures multiset(a[..]) == old(multiset(a[..]))
  {
    for i := 0 to a.Length
      invariant forall p, q :: 0 <= p < q < i ==> a[p] <= a[q]
      invariant multiset(a[..]) == old(multiset(a[..]))
    {
      InsertAt(a, i);
    }
  }

  /** Move `a[i]` down past the larger elements of the sorted prefix `a[..i]`. */
  method InsertAt(a: array<real>, i: nat)
    requires i < a.Length
    requires forall p, q :: 0 <= p < q < i ==> a[p] <= a[q]
    modifies a
    ensures forall p, q :: 0 <= p < q <= i ==> a[p] <= a[q]
    ensures forall p :: i < p < a.Length ==> a[p] == old(a[p])
    ensures multiset(a[..]) == old(multiset(a[..]))
  {
    var j := i;
    while j > 0 && a[j - 1] > a[j]
      invariant 0 <= j <= i
      invariant forall p, q :: 0 <= p < q <= i && q != j ==> a[p] <= a[q]
      invariant forall p :: i < p < a.Length ==> a[p] == old(a[p])
      invariant multiset(a[..]) == old(multiset(a[..]))
    {
      Swap(a, j);
      j := j - 1;
    }
  }

  /** Exchange `a[j - 1]` and `a[j]`. */
  method Swap(a: array<real>, j: nat)
    requires 0 < j < a.Length
    modifies a
    ensures a[..] == old(a[..])[j - 1 := old(a[j])][j := old(a[j - 1])]
    ensures multiset(a[..]) == old(multiset(a[..]))
  {
    SwapKeepsMultiset(a[..], j - 1, j);
    a[j - 1], a[j] := a[j], a[j - 1];
  }

  // ---------------------------------------------------------------------
  // What the median means

  /** The number of durations in `t` that satisfy `p`. */
  function Count(t: seq<real>, p: real -> bool): (c: nat)
    ensures c <= |t|
  {
    if t == [] then 0 else (if p(t[0]) then 1 else 0) + Count(t[1..], p)
  }

  lemma {:induction false} CountAppend(a: seq<real>, b: seq<real>, p: real -> bool)
    ensures Count(a + b, p) == Count(a, p) + Count(b, p)
  {
    if a != [] {
      assert (a + b)[0] == a[0] && (a + b)[1..] == a[1..] + b;
      CountAppend(a[1..], b, p);
    } else {
      assert a + b == b;
    }
  }

  /** Counting does not depend on the order of the durations. */
  lemma {:induction false} CountPermutation(a: seq<real>, b: seq<real>, p: real -> bool)
    requires multiset(a) == multiset(b)
    ensures Count(a, p) == Count(b, p)
  {
    if a == [] {
      assert |b| == |multiset(b)| == 0;
    } else {
      var x := a[0];
      assert x in multiset(b);
      var j :| 0 <= j < |b| && b[j] == x;
      var rest := b[..j] + b[j + 1..];
      MultisetTail(a);
      MultisetRemove(b, j);
      CountPermutation(a[1..], rest, p);
      assert b == (b[..j] + [x]) + b[j + 1..];
      CountAppend(b[..j] + [x], b[j + 1..], p);
      CountAppend(b[..j], [x], p);
      CountAppend(b[..j], b[j + 1..], p);
      assert Count([x], p) == Count(a, p) - Count(a[1..], p);
    }
  }

  lemma MultisetTail(s: seq<real>)
    requires |s| > 0
    ensures multiset(s[1..]) == multiset(s) - multiset{s[0]}
  {
    assert s == [s[0]] + s[1..];
  }

  lemma MultisetRemove(b: seq<real>, j: nat)
    requires j < |b|
    ensures multiset(b[..j] + b[j + 1..]) == multiset(b) - multiset{b[j]}
  {
    assert b == b[..j] + [b[j]] + b[j + 1..];
  }

  lemma {:induction false} CountEvery(t: seq<real>, p: real -> bool)
    requires forall i :: 0 <= i < |t| ==> p(t[i])
    ensures Count(t, p) == |t|
  {
    if t != [] {
      CountEvery(t[1..], p);
    }
  }

  /** The test "at most v". */
  function AtMost(v: real): real -> bool {
    x => x <= v
  }

  /** The test "at least v". */
  function AtLeast(v: real): real -> bool {
    x => x >= v
  }

  /**
   * The median is one of the durations; with n durations, at least
   * floor(n / 2) + 1 of them are at most the median and at least
   * n - floor(n / 2) are at least the median.
   */
  lemma MedianRank(times: seq<real>)
    requires |times| > 0
    ensures Median(times).value in times
    ensures Count(times, AtMost(Median(times).value)) >= |times| / 2 + 1
    ensures Count(times, AtLeast(Median(times).value)) >= |times| - |times| / 2
  {
    var s := SortAscending(times);
    var k := |times| / 2;
    var v := s[k];
    assert Median(times).value == v;
    SortAscendingSorted(times);
    assert v in multiset(times) by {
      assert v in multiset(s);
    }
    CountPermutation(times, s, AtMost(v));
    CountPermutation(times, s, AtLeast(v));
    SortedAtMost(s, k);
    SortedAtLeast(s, k);
  }

  /** In ascending order, the first k + 1 elements are at most element k. */
  lemma SortedAtMost(s: seq<real>, k: nat)
    requires Sorted(s) && k < |s|
    ensures Count(s, AtMost(s[k])) >= k + 1
  {
    assert s == s[..k + 1] + s[k + 1..];
    CountAppend(s[..k + 1], s[k + 1..], AtMost(s[k]));
    CountEvery(s[..k + 1], AtMost(s[k]));
  }

  /** In ascending order, the elements from k on are at least element k. */
  lemma SortedAtLeast(s: seq<real>, k: nat)
    requires Sorted(s) && k < |s|
    ensures Count(s, AtLeast(s[k])) >= |s| - k
  {
    assert s == s[..k] + s[k..];
    CountAppend(s[..k], s[k..], AtLeast(s[k]));
    CountEvery(s[k..], AtLeast(s[k]));
  }

  /** Any ascending arrangement of the durations tells the median. */
  lemma MedianOfArrangement(t: seq<real>, sorted: seq<real>)
    requires |t| > 0 && Sorted(sorted) && multiset(t) == multiset(sorted)
    ensures Median(t) == Some(sorted[|sorted| / 2])
  {
    assert |t| == |multiset(t)| == |sorted|;
    SortAscendingSorted(t);
    SortedUnique(SortAscending(t), sorted);
  }

  /** A sequence whose neighbours are in order is sorted. */
  lemma {:induction false} SortedFromNeighbours(s: seq<real>)
    requires forall i :: 0 <= i < |s| - 1 ==> s[i] <= s[i + 1]
    ensures Sorted(s)
  {
    if |s| >= 2 {
      SortedFromNeighbours(s[1..]);
      forall q | 1 <= q < |s|
        ensures s[0] <= s[q]
      {
        assert s[0] <= s[1];
        if q > 1 {
          assert s[1..][0] <= s[1..][q - 1];
        }
      }
    }
  }

  /**
   * Five trials whose durations, in trial order, are the largest, the
   * smallest, the middle one, the second smallest and the second largest
   * report the middle one.
   */
  lemma MedianOfFive(a: real, b: real, c: real, d: real, e: real)
    requires b <= d <= c <= e <= a
    ensures Median([a, b, c, d, e]) == Some(c)
  {
    FiveReordered(a, b, c, d, e);
    MedianOfArrangement([a, b, c, d, e], [b, d, c, e, a]);
  }

  lemma FiveReordered(a: real, b: real, c: real, d: real, e: real)
    requires b <= d <= c <= e <= a
    ensures Sorted([b, d, c, e, a])
    ensures multiset([a, b, c, d, e]) == multiset([b, d, c, e, a])
  {
    SortedFromNeighbours([b, d, c, e, a]);
    assert Reindexes([b, d, c, e, a], [a, b, c, d, e], [1, 3, 2, 4, 0]);
    ReindexPreservesMultiset([b, d, c, e, a], [a, b, c, d, e], [1, 3, 2, 4, 0]);
  }

  /** Trials taking 5, 1, 3, 2 and 4 time units report 3. */
  lemma MedianExample()
    ensures Median([5.0, 1.0, 3.0, 2.0, 4.0]) == Some(3.0)
  {
    MedianOfFive(5.0, 1.0, 3.0, 2.0, 4.0);
  }
}
