/** Ordering by a numeric key, largest first, as a `sort({ field: -1 })`
    over a store returns documents. */
module Sorting {
  predicate SortedDesc<T>(xs: seq<T>, key: T -> int) {
    forall i, j :: 0 <= i < j < |xs| ==> key(xs[i]) >= key(xs[j])
  }

  /** `x` placed before the first element whose key is no larger than its
      own. */
  function Insert<T>(x: T, xs: seq<T>, key: T -> int): (r: seq<T>)
    requires SortedDesc(xs, key)
    ensures SortedDesc(r, key)
    ensures multiset(r) == multiset(xs) + multiset{x}
    ensures |r| == |xs| + 1 && (key(r[0]) == key(x) || (xs != [] && key(r[0]) == key(xs[0])))
  {
    if xs == [] || key(x) >= key(xs[0]) then [x] + xs
    else
      var rest := Insert(x, xs[1..], key);
      assert xs == [xs[0]] + xs[1..];
      assert key(rest[0]) <= key(xs[0]);
      [xs[0]] + rest
  }

  /** The elements of `xs`, largest key first. */
  function SortDesc<T>(xs: seq<T>, key: T -> int): (r: seq<T>)
    ensures SortedDesc(r, key)
    ensures multiset(r) == multiset(xs)
  {
    if xs == [] then []
    else
      assert xs == [xs[0]] + xs[1..];
      Insert(xs[0], SortDesc(xs[1..], key), key)
  }
}
