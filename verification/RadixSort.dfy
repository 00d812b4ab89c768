/**
 The radix sort of term occurrences by the bytes of their terms: most significant byte
 first, with small buckets handed to a comparison sort (src/search/mod.rs).
 */
module RadixSort {
  import opened Bytes
  import opened SearchIndexData
  import Ordering

  const SMALL_BUCKET: nat := 32
  const BUCKETS: nat := 257

  predicate TermLeq<T>(termOf: T -> ByteString, a: T, b: T) {
    BytesLeq(termOf(a), termOf(b))
  }

  ghost predicate SortedByTerm<T>(termOf: T -> ByteString, xs: seq<T>) {
    forall i, j :: 0 <= i < j < |xs| ==> BytesLeq(termOf(xs[i]), termOf(xs[j]))
  }

  /** Everything that reached this depth agrees on the bytes already looked at. */
  ghost predicate SharePrefix<T>(termOf: T -> ByteString, xs: seq<T>, prefix: ByteString) {
    forall i :: 0 <= i < |xs| ==> prefix <= termOf(xs[i])
  }

  /** Bucket 0 for terms that end here, else one more than the next byte. */
  function BucketOf<T>(termOf: T -> ByteString, depth: nat, x: T): (b: nat)
    ensures b < BUCKETS
  {
    if depth < |termOf(x)| then termOf(x)[depth] as int + 1 else 0
  }

  function Bucket<T>(termOf: T -> ByteString, depth: nat, xs: seq<T>, b: nat): seq<T> {
    if xs == [] then []
    else
      var rest := Bucket(termOf, depth, xs[..|xs| - 1], b);
      if BucketOf(termOf, depth, xs[|xs| - 1]) == b then rest + [xs[|xs| - 1]] else rest
  }

  /** What the first `b` buckets hold, in the order it came. */
  ghost function Below<T>(termOf: T -> ByteString, depth: nat, xs: seq<T>, b: nat): seq<T> {
    if xs == [] then []
    else
      var rest := Below(termOf, depth, xs[..|xs| - 1], b);
      if BucketOf(termOf, depth, xs[|xs| - 1]) < b then rest + [xs[|xs| - 1]] else rest
  }

  function LongestTerm<T>(termOf: T -> ByteString, xs: seq<T>): nat {
    if xs == [] then 0
    else
      var rest := LongestTerm(termOf, xs[1..]);
      if |termOf(xs[0])| > rest then |termOf(xs[0])| else rest
  }

  lemma {:induction false} LongestIsLongest<T>(termOf: T -> ByteString, xs: seq<T>, i: nat)
    requires i < |xs|
    ensures |termOf(xs[i])| <= LongestTerm(termOf, xs)
  {
    if i > 0 {
      LongestIsLongest(termOf, xs[1..], i - 1);
    }
  }

  lemma {:induction false} LongestIsReached<T>(termOf: T -> ByteString, xs: seq<T>) returns (i: nat)
    requires xs != []
    ensures i < |xs| && |termOf(xs[i])| == LongestTerm(termOf, xs)
  {
    i := 0;
    if |xs| > 1 && |termOf(xs[0])| < LongestTerm(termOf, xs) {
      var j := LongestIsReached(termOf, xs[1..]);
      i := j + 1;
    }
  }

  // ---- buckets partition their input ----

  lemma {:induction false} BucketMembers<T>(termOf: T -> ByteString, depth: nat, xs: seq<T>, b: nat)
    ensures forall i :: 0 <= i < |Bucket(termOf, depth, xs, b)| ==>
      Bucket(termOf, depth, xs, b)[i] in xs && BucketOf(termOf, depth, Bucket(termOf, depth, xs, b)[i]) == b
  {
    if xs != [] {
      BucketMembers(termOf, depth, xs[..|xs| - 1], b);
    }
  }

  lemma {:induction false} BelowSplits<T>(termOf: T -> ByteString, depth: nat, xs: seq<T>, b: nat)
    ensures multiset(Below(termOf, depth, xs, b + 1)) == multiset(Below(termOf, depth, xs, b)) + multiset(Bucket(termOf, depth, xs, b))
  {
    if xs != [] {
      BelowSplits(termOf, depth, xs[..|xs| - 1], b);
    }
  }

  lemma {:induction false} BelowAll<T>(termOf: T -> ByteString, depth: nat, xs: seq<T>)
    ensures Below(termOf, depth, xs, BUCKETS) == xs && Below(termOf, depth, xs, 0) == []
  {
    if xs != [] {
      BelowAll(termOf, depth, xs[..|xs| - 1]);
      assert xs == xs[..|xs| - 1] + [xs[|xs| - 1]];
    }
  }

  // ---- order between and inside buckets ----

  /** An element of an earlier bucket sorts before one of a later bucket. */
  lemma {:induction false} BucketsInOrder<T>(termOf: T -> ByteString, prefix: ByteString, x: T, y: T)
    requires prefix <= termOf(x) && prefix <= termOf(y)
    requires BucketOf(termOf, |prefix|, x) < BucketOf(termOf, |prefix|, y)
    ensures BytesLeq(termOf(x), termOf(y))
  {
    var a, b := termOf(x)[|prefix|..], termOf(y)[|prefix|..];
    assert termOf(x) == prefix + a && termOf(y) == prefix + b;
    LeqAppend(prefix, a, b);
  }

  /** A later bucket agrees on one more byte. */
  lemma {:induction false} BucketShares<T>(termOf: T -> ByteString, prefix: ByteString, xs: seq<T>, b: nat)
    requires SharePrefix(termOf, xs, prefix) && 0 < b < BUCKETS
    ensures SharePrefix(termOf, Bucket(termOf, |prefix|, xs, b), prefix + [b - 1])
  {
    var bucket := Bucket(termOf, |prefix|, xs, b);
    BucketMembers(termOf, |prefix|, xs, b);
    forall i | 0 <= i < |bucket|
      ensures prefix + [b - 1] <= termOf(bucket[i])
    {
      var term := termOf(bucket[i]);
      assert prefix <= term && term[|prefix|] == b - 1;
    }
  }

  lemma {:induction false} BucketShorter<T>(termOf: T -> ByteString, prefix: ByteString, xs: seq<T>, b: nat)
    requires 0 < b < BUCKETS && Bucket(termOf, |prefix|, xs, b) != []
    ensures |prefix| < LongestTerm(termOf, Bucket(termOf, |prefix|, xs, b)) <= LongestTerm(termOf, xs)
  {
    var bucket := Bucket(termOf, |prefix|, xs, b);
    BucketMembers(termOf, |prefix|, xs, b);
    LongestIsLongest(termOf, bucket, 0);
    var i := LongestIsReached(termOf, bucket);
    assert bucket[i] in xs;
    var j :| 0 <= j < |xs| && xs[j] == bucket[i];
    LongestIsLongest(termOf, xs, j);
  }

  /** The standard library's stable sort on terms. */
  method SortSmall<T(!new)>(termOf: T -> ByteString, xs: seq<T>) returns (sorted: seq<T>)
    ensures multiset(sorted) == multiset(xs) && SortedByTerm(termOf, sorted)
  {
    TermLeqTotal(termOf);
    var leq := (a: T, b: T) => TermLeq(termOf, a, b);
    Ordering.SortByCorrect(xs, leq);
    sorted := Ordering.SortBy(xs, leq);
    assert forall i, j :: 0 <= i < j < |sorted| ==> leq(sorted[i], sorted[j]);
  }

  lemma {:induction false} TermLeqTotal<T(!new)>(termOf: T -> ByteString)
    ensures Ordering.TotalPreorder((a: T, b: T) => TermLeq(termOf, a, b))
  {
    BytesLeqIsTotalOrder();
  }

  /** The sorted buckets so far, and that nothing in them belongs to a later bucket. */
  ghost predicate BucketsDone<T>(termOf: T -> ByteString, depth: nat, xs: seq<T>, b: nat, sorted: seq<T>) {
    && multiset(sorted) == multiset(Below(termOf, depth, xs, b))
    && SortedByTerm(termOf, sorted)
    && forall i :: 0 <= i < |sorted| ==> BucketOf(termOf, depth, sorted[i]) < b && sorted[i] in xs
  }

  lemma {:induction false} BucketAppended<T>(termOf: T -> ByteString, prefix: ByteString, xs: seq<T>, b: nat, sorted: seq<T>, bucket: seq<T>)
    requires SharePrefix(termOf, xs, prefix) && BucketsDone(termOf, |prefix|, xs, b, sorted)
    requires multiset(bucket) == multiset(Bucket(termOf, |prefix|, xs, b)) && SortedByTerm(termOf, bucket)
    ensures BucketsDone(termOf, |prefix|, xs, b + 1, sorted + bucket)
  {
    BelowSplits(termOf, |prefix|, xs, b);
    BucketMembers(termOf, |prefix|, xs, b);
    forall j | 0 <= j < |bucket|
      ensures bucket[j] in xs && BucketOf(termOf, |prefix|, bucket[j]) == b
    {
      assert bucket[j] in multiset(bucket);
      assert bucket[j] in Bucket(termOf, |prefix|, xs, b);
    }
    var all := sorted + bucket;
    forall i, j | 0 <= i < j < |all|
      ensures BytesLeq(termOf(all[i]), termOf(all[j]))
    {
      if i < |sorted| && j >= |sorted| {
        assert all[i] == sorted[i] && all[j] == bucket[j - |sorted|];
        BucketsInOrder(termOf, prefix, all[i], all[j]);
      }
    }
  }

  /** The distribution loop. */
  method Distribute<T>(termOf: T -> ByteString, xs: seq<T>, depth: nat) returns (buckets: seq<seq<T>>)
    ensures |buckets| == BUCKETS
    ensures forall b :: 0 <= b < BUCKETS ==> buckets[b] == Bucket(termOf, depth, xs, b)
  {
    buckets := seq(BUCKETS, b => []);
    for i := 0 to |xs|
      invariant |buckets| == BUCKETS
      invariant forall b :: 0 <= b < BUCKETS ==> buckets[b] == Bucket(termOf, depth, xs[..i], b)
    {
      var k := BucketOf(termOf, depth, xs[i]);
      assert xs[..i + 1][..i] == xs[..i];
      buckets := buckets[k := buckets[k] + [xs[i]]];
    }
    assert xs[..|xs|] == xs;
  }

  /** `radix_sorted_occurrences`: it terminates, and returns an ordered permutation. */
  method RadixSorted<T(!new)>(termOf: T -> ByteString, xs: seq<T>, ghost prefix: ByteString, depth: nat) returns (sorted: seq<T>)
    requires depth == |prefix| && SharePrefix(termOf, xs, prefix)
    ensures multiset(sorted) == multiset(xs) && SortedByTerm(termOf, sorted)
    decreases if LongestTerm(termOf, xs) >= depth then LongestTerm(termOf, xs) - depth else 0
  {
    if |xs| <= SMALL_BUCKET {
      sorted := SortSmall(termOf, xs);
      return;
    }
    var buckets := Distribute(termOf, xs, depth);
    sorted := [];
    BelowAll(termOf, depth, xs);
    hide Bucket, Below, LongestTerm, SortedByTerm;
    assert BucketsDone(termOf, depth, xs, 0, []) by { NothingDone(termOf, depth, xs); }
    for b := 0 to BUCKETS
      invariant BucketsDone(termOf, depth, xs, b, sorted)
    {
      var bucket := buckets[b];
      var part: seq<T> := [];
      if bucket == [] {
        NothingSorted(termOf);
      } else if b == 0 || |bucket| <= SMALL_BUCKET {
        part := SortSmall(termOf, bucket);
      } else {
        BucketShares(termOf, prefix, xs, b);
        BucketShorter(termOf, prefix, xs, b);
        part := RadixSorted(termOf, bucket, prefix + [b - 1], depth + 1);
      }
      BucketAppended(termOf, prefix, xs, b, sorted, part);
      sorted := sorted + part;
    }
  }

  lemma {:induction false} NothingDone<T>(termOf: T -> ByteString, depth: nat, xs: seq<T>)
    requires Below(termOf, depth, xs, 0) == []
    ensures BucketsDone(termOf, depth, xs, 0, [])
  {
  }

  lemma {:induction false} NothingSorted<T>(termOf: T -> ByteString)
    ensures SortedByTerm(termOf, [])
  {
  }
}
