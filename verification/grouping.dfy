/** Grouping a list by a key, as the timeline view does with an object of
    buckets and as MongoDB's `$group` stage does for the weekly statistics. */
module Grouping {
  import opened Sorting

  /** The elements of `xs` whose key is `k`, in their order in `xs`. */
  function Bucket<T, K(==)>(xs: seq<T>, key: T -> K, k: K): (b: seq<T>)
    ensures |b| <= |xs|
    ensures forall i :: 0 <= i < |b| ==> key(b[i]) == k && b[i] in xs
  {
    if xs == [] then []
    else
      var last := xs[|xs| - 1];
      var b := Bucket(xs[..|xs| - 1], key, k) + (if key(last) == k then [last] else []);
      assert forall y :: y in xs[..|xs| - 1] ==> y in xs;
      b
  }

  /** The distinct keys of `xs` in order of first appearance. */
  function KeysInOrder<T, K(==,!new)>(xs: seq<T>, key: T -> K): (ks: seq<K>)
    ensures Distinct(ks)
    ensures forall k :: k in ks <==> exists i :: 0 <= i < |xs| && key(xs[i]) == k
  {
    if xs == [] then []
    else
      var init := xs[..|xs| - 1];
      var ks := KeysInOrder(init, key);
      var k := key(xs[|xs| - 1]);
      assert forall i :: 0 <= i < |init| ==> init[i] == xs[i];
      if k in ks then ks else ks + [k]
  }

  /** An element sits in the bucket of its own key. */
  lemma {:induction false} InOwnBucket<T, K>(xs: seq<T>, key: T -> K, i: int)
    requires 0 <= i < |xs|
    ensures xs[i] in Bucket(xs, key, key(xs[i]))
  {
    if i < |xs| - 1 {
      InOwnBucket(xs[..|xs| - 1], key, i);
    }
  }

  /** The bucket of a key that occurs is not empty. */
  lemma BucketNonEmpty<T, K>(xs: seq<T>, key: T -> K, k: K)
    requires exists i :: 0 <= i < |xs| && key(xs[i]) == k
    ensures Bucket(xs, key, k) != []
  {
    var i :| 0 <= i < |xs| && key(xs[i]) == k;
    InOwnBucket(xs, key, i);
  }

  /** The sum of the bucket sizes over the keys `ks`. */
  function BucketTotal<T, K(==)>(xs: seq<T>, key: T -> K, ks: seq<K>): nat {
    if ks == [] then 0 else |Bucket(xs, key, ks[0])| + BucketTotal(xs, key, ks[1..])
  }

  lemma {:induction false} BucketTotalStep<T, K>(xs: seq<T>, key: T -> K, ks: seq<K>)
    requires xs != [] && Distinct(ks)
    ensures BucketTotal(xs, key, ks) ==
      BucketTotal(xs[..|xs| - 1], key, ks) + (if key(xs[|xs| - 1]) in ks then 1 else 0)
  {
    if ks != [] {
      assert Distinct(ks[1..]);
      BucketTotalStep(xs, key, ks[1..]);
      assert key(xs[|xs| - 1]) in ks <==> key(xs[|xs| - 1]) == ks[0] || key(xs[|xs| - 1]) in ks[1..];
      assert key(xs[|xs| - 1]) == ks[0] ==> key(xs[|xs| - 1]) !in ks[1..];
    }
  }

  /** When `ks` lists every key exactly once, the buckets partition `xs`:
      their sizes add up to its length. */
  lemma {:induction false} BucketsPartition<T, K>(xs: seq<T>, key: T -> K, ks: seq<K>)
    requires Distinct(ks)
    requires forall i :: 0 <= i < |xs| ==> key(xs[i]) in ks
    ensures BucketTotal(xs, key, ks) == |xs|
  {
    if xs == [] {
      BucketTotalEmpty(key, ks);
    } else {
      var init := xs[..|xs| - 1];
      assert forall i :: 0 <= i < |init| ==> init[i] == xs[i];
      BucketsPartition(init, key, ks);
      BucketTotalStep(xs, key, ks);
    }
  }

  lemma {:induction false} BucketTotalEmpty<T, K>(key: T -> K, ks: seq<K>)
    ensures BucketTotal([], key, ks) == 0
  {
    if ks != [] {
      BucketTotalEmpty(key, ks[1..]);
    }
  }

  /** A key no element has gets an empty bucket. */
  lemma {:induction false} BucketOfAbsentKey<T, K>(xs: seq<T>, key: T -> K, k: K)
    requires forall i :: 0 <= i < |xs| ==> key(xs[i]) != k
    ensures Bucket(xs, key, k) == []
  {
    if xs != [] {
      BucketOfAbsentKey(xs[..|xs| - 1], key, k);
    }
  }

  /** Bucketing keeps the list's order: the bucket of a concatenation is the
      concatenation of the buckets. */
  lemma {:induction false} BucketAppend<T, K>(xs: seq<T>, ys: seq<T>, key: T -> K, k: K)
    ensures Bucket(xs + ys, key, k) == Bucket(xs, key, k) + Bucket(ys, key, k)
  {
    if ys == [] {
      assert xs + ys == xs;
    } else {
      var init := ys[..|ys| - 1];
      var last := ys[|ys| - 1];
      BucketAppend(xs, init, key, k);
      assert (xs + ys)[..|xs + ys| - 1] == xs + init;
      assert (xs + ys)[|xs + ys| - 1] == last;
    }
  }

  /** One more element lands at the end of its own key's bucket. */
  lemma BucketPush<T, K>(xs: seq<T>, x: T, key: T -> K, k: K)
    ensures Bucket(xs + [x], key, k) == Bucket(xs, key, k) + (if key(x) == k then [x] else [])
  {
    assert (xs + [x])[..|xs + [x]| - 1] == xs;
  }

  /** One more element adds its key at the end unless it was already seen. */
  lemma KeysPush<T, K(!new)>(xs: seq<T>, x: T, key: T -> K)
    ensures KeysInOrder(xs + [x], key)
      == if key(x) in KeysInOrder(xs, key) then KeysInOrder(xs, key) else KeysInOrder(xs, key) + [key(x)]
  {
    assert (xs + [x])[..|xs + [x]| - 1] == xs;
  }
}
