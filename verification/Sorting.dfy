/** Ordering of result tables by a numeric column, largest first (what
    `sort_values(..., ascending=False)` and `value_counts()` produce). */
module Sorting {

  /** Non-increasing by `key`. */
  ghost predicate SortedDesc<T>(xs: seq<T>, key: T -> int) {
    forall i, j | 0 <= i < j < |xs| :: key(xs[i]) >= key(xs[j])
  }

  /** The sum of the keys, e.g. the total of a `count` column. */
  function SumKeys<T>(xs: seq<T>, key: T -> int): int
    decreases |xs|
  {
    if |xs| == 0 then 0 else key(xs[0]) + SumKeys(xs[1..], key)
  }

  /** Puts `x` in front of the first element whose key is not larger. */
  function InsertDesc<T>(x: T, xs: seq<T>, key: T -> int): (r: seq<T>)
    requires SortedDesc(xs, key)
    ensures SortedDesc(r, key)
    ensures multiset(r) == multiset(xs) + multiset{x}
    ensures SumKeys(r, key) == key(x) + SumKeys(xs, key)
    ensures |r| == |xs| + 1
    ensures r[0] == x || (|xs| > 0 && r[0] == xs[0])
    decreases |xs|
  {
    if |xs| == 0 || key(x) >= key(xs[0]) then
      [x] + xs
    else
      var rest := InsertDesc(x, xs[1..], key);
      var r := [xs[0]] + rest;
      assert xs == [xs[0]] + xs[1..];
      assert r[1..] == rest;
      assert key(rest[0]) <= key(xs[0]);
      r
  }

  /** A largest-first ordering of `xs`: the same elements, the same key total. */
  function SortDesc<T>(xs: seq<T>, key: T -> int): (r: seq<T>)
    ensures SortedDesc(r, key)
    ensures multiset(r) == multiset(xs)
    ensures SumKeys(r, key) == SumKeys(xs, key)
    ensures |r| == |xs|
    decreases |xs|
  {
    if |xs| == 0 then []
    else
      assert xs == [xs[0]] + xs[1..];
      InsertDesc(xs[0], SortDesc(xs[1..], key), key)
  }

  /** A prefix of a list with non-negative keys has no larger key total. */
  lemma {:induction false} PrefixSumAtMost<T>(xs: seq<T>, n: nat, key: T -> int)
    requires n <= |xs|
    requires forall i | 0 <= i < |xs| :: key(xs[i]) >= 0
    ensures SumKeys(xs[..n], key) <= SumKeys(xs, key)
    decreases n
  {
    if n > 0 {
      assert xs[..n][1..] == xs[1..][..n - 1];
      PrefixSumAtMost(xs[1..], n - 1, key);
    } else {
      NonNegativeSum(xs, key);
    }
  }

  lemma {:induction false} NonNegativeSum<T>(xs: seq<T>, key: T -> int)
    requires forall i | 0 <= i < |xs| :: key(xs[i]) >= 0
    ensures SumKeys(xs, key) >= 0
    decreases |xs|
  {
    if |xs| > 0 {
      NonNegativeSum(xs[1..], key);
    }
  }
}
