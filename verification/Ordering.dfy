/**
 Comparison sorting.  The program sorts with the standard library's stable sorts;
 they are modelled by a stable insertion sort, and everything proved about them uses
 only that the result is an ordered permutation (and, for antisymmetric orders, that
 an ordered permutation is unique).
 */
module Ordering {

  ghost predicate TotalPreorder<T(!new)>(leq: (T, T) -> bool) {
    && (forall x, y :: leq(x, y) || leq(y, x))
    && (forall x, y, z :: leq(x, y) && leq(y, z) ==> leq(x, z))
  }

  ghost predicate Antisymmetric<T(!new)>(leq: (T, T) -> bool) {
    forall x, y :: leq(x, y) && leq(y, x) ==> x == y
  }

  ghost predicate Sorted<T>(xs: seq<T>, leq: (T, T) -> bool) {
    forall i, j :: 0 <= i < j < |xs| ==> leq(xs[i], xs[j])
  }

  /** Inserts `x` before the first element that `x` is less than or equal to. */
  function Insert<T>(x: T, xs: seq<T>, leq: (T, T) -> bool): seq<T> {
    if xs == [] then [x]
    else if leq(x, xs[0]) then [x] + xs
    else [xs[0]] + Insert(x, xs[1..], leq)
  }

  function SortBy<T>(xs: seq<T>, leq: (T, T) -> bool): seq<T> {
    if xs == [] then [] else Insert(xs[0], SortBy(xs[1..], leq), leq)
  }

  lemma {:induction false} InsertPermutes<T>(x: T, xs: seq<T>, leq: (T, T) -> bool)
    ensures multiset(Insert(x, xs, leq)) == multiset([x] + xs)
  {
    if xs != [] && !leq(x, xs[0]) {
      InsertPermutes(x, xs[1..], leq);
      Swapped(x, xs[0], xs[1..], Insert(x, xs[1..], leq));
      assert xs == [xs[0]] + xs[1..];
    }
  }

  lemma {:induction false} Swapped<T>(x: T, y: T, rest: seq<T>, inserted: seq<T>)
    requires multiset(inserted) == multiset([x] + rest)
    ensures multiset([y] + inserted) == multiset([x] + ([y] + rest))
  {
    assert multiset([y] + inserted) == multiset{y} + multiset(inserted);
    assert multiset([x] + rest) == multiset{x} + multiset(rest);
    assert multiset([x] + ([y] + rest)) == multiset{x} + (multiset{y} + multiset(rest));
  }

  lemma {:induction false} InsertSorts<T(!new)>(x: T, xs: seq<T>, leq: (T, T) -> bool)
    requires TotalPreorder(leq)
    requires Sorted(xs, leq)
    ensures Sorted(Insert(x, xs, leq), leq)
  {
    if xs == [] {
    } else if leq(x, xs[0]) {
    } else {
      InsertSorts(x, xs[1..], leq);
      InsertPermutes(x, xs[1..], leq);
      var rest := Insert(x, xs[1..], leq);
      forall j | 0 <= j < |rest|
        ensures leq(xs[0], rest[j])
      {
        assert rest[j] in multiset(rest);
        assert rest[j] == x || rest[j] in xs[1..];
      }
    }
  }

  /** The sort returns an ordered permutation of its input. */
  lemma {:induction false} SortUnfold<T>(first: T, others: seq<T>, leq: (T, T) -> bool)
    ensures SortBy([first] + others, leq) == Insert(first, SortBy(others, leq), leq)
  {
    assert ([first] + others)[1..] == others;
  }

  lemma {:induction false} SameFirst<T>(x: T, a: seq<T>, b: seq<T>)
    requires multiset(a) == multiset(b)
    ensures multiset([x] + a) == multiset([x] + b)
  {
    assert multiset([x] + a) == multiset{x} + multiset(a);
  }

  lemma {:induction false} SameLength<T>(a: seq<T>, b: seq<T>)
    requires multiset(a) == multiset(b)
    ensures |a| == |b|
  {
    assert |multiset(a)| == |multiset(b)|;
  }

  lemma {:induction false} SortByCorrect<T(!new)>(xs: seq<T>, leq: (T, T) -> bool)
    requires TotalPreorder(leq)
    ensures multiset(SortBy(xs, leq)) == multiset(xs)
    ensures Sorted(SortBy(xs, leq), leq)
    ensures |SortBy(xs, leq)| == |xs|
  {
    if xs != [] {
      var first, others := xs[0], xs[1..];
      SortUnfold(first, others, leq);
      assert xs == [first] + others;
      hide *;
      SortByCorrect(others, leq);
      InsertPermutes(first, SortBy(others, leq), leq);
      InsertSorts(first, SortBy(others, leq), leq);
      SameFirst(first, SortBy(others, leq), others);
      SameLength(SortBy(xs, leq), xs);
    }
  }

  /** Ordered permutations agree wherever the order is antisymmetric. */
  lemma {:induction false} SortedUnique<T(!new)>(a: seq<T>, b: seq<T>, leq: (T, T) -> bool)
    requires TotalPreorder(leq) && Antisymmetric(leq)
    requires multiset(a) == multiset(b)
    requires Sorted(a, leq) && Sorted(b, leq)
    ensures a == b
  {
    assert |a| == |multiset(a)| == |multiset(b)| == |b|;
    if a != [] {
      assert a[0] in multiset(b) && b[0] in multiset(a);
      assert leq(a[0], b[0]) && leq(b[0], a[0]);
      assert a == [a[0]] + a[1..] && b == [b[0]] + b[1..];
      assert multiset(a[1..]) == multiset(a) - multiset{a[0]};
      assert multiset(b[1..]) == multiset(b) - multiset{b[0]};
      SortedUnique(a[1..], b[1..], leq);
    }
  }

  /** Sorting forgets the order of its input. */
  lemma {:induction false} SortByPermutation<T(!new)>(a: seq<T>, b: seq<T>, leq: (T, T) -> bool)
    requires TotalPreorder(leq) && Antisymmetric(leq)
    requires multiset(a) == multiset(b)
    ensures SortBy(a, leq) == SortBy(b, leq)
  {
    SortByCorrect(a, leq);
    SortByCorrect(b, leq);
    SortedUnique(SortBy(a, leq), SortBy(b, leq), leq);
  }

  // ---- permutations of sequences without repeated keys ----

  ghost predicate DistinctBy<T, K>(xs: seq<T>, key: T -> K) {
    forall i, j :: 0 <= i < j < |xs| ==> key(xs[i]) != key(xs[j])
  }

  /** A permutation has the same elements, and repeats a key only if the original did. */
  lemma {:induction false} PermutationKeeps<T, K>(a: seq<T>, b: seq<T>, key: T -> K)
    requires multiset(a) == multiset(b) && DistinctBy(a, key)
    ensures |a| == |b| && DistinctBy(b, key)
    ensures forall x :: x in a <==> x in b
  {
    assert |a| == |multiset(a)| == |multiset(b)| == |b|;
    forall x
      ensures x in a <==> x in b
    {
      assert x in a <==> x in multiset(a);
      assert x in b <==> x in multiset(b);
    }
    forall i, j | 0 <= i < j < |b|
      ensures key(b[i]) != key(b[j])
    {
      assert b[i] in a && b[j] in a;
      var k :| 0 <= k < |a| && a[k] == b[i];
      var l :| 0 <= l < |a| && a[l] == b[j];
      if k == l {
        AppearsOnce(a, k, key);
        AppearsTwice(b, i, j);
      }
    }
  }

  /** Where a permutation has the first element, and that the rests are permutations too. */
  lemma {:induction false} RemoveFirst<T>(a: seq<T>, b: seq<T>) returns (i: nat)
    requires a != [] && multiset(a) == multiset(b)
    ensures i < |b| && b[i] == a[0] && multiset(a[1..]) == multiset(b[..i] + b[i + 1..])
  {
    assert a[0] in multiset(b);
    i :| 0 <= i < |b| && b[i] == a[0];
    assert b == b[..i] + [b[i]] + b[i + 1..];
    assert a == [a[0]] + a[1..];
    assert multiset(a[1..]) == multiset(a) - multiset{a[0]};
  }

  lemma {:induction false} AppearsTwice<T>(b: seq<T>, i: nat, j: nat)
    requires i < j < |b| && b[i] == b[j]
    ensures multiset(b)[b[i]] >= 2
  {
    assert b == b[..i] + [b[i]] + b[i + 1..j] + [b[j]] + b[j + 1..];
  }

  lemma {:induction false} AppearsOnce<T, K>(a: seq<T>, k: nat, key: T -> K)
    requires DistinctBy(a, key) && k < |a|
    ensures multiset(a)[a[k]] == 1
  {
    assert a == a[..k] + [a[k]] + a[k + 1..];
    assert a[k] !in a[..k] && a[k] !in a[k + 1..];
  }

  /** Lexicographic order on strings, as the program compares identifiers. */
  predicate StringLeq(a: string, b: string) {
    if a == [] then true
    else if b == [] then false
    else if a[0] == b[0] then StringLeq(a[1..], b[1..])
    else a[0] < b[0]
  }

  lemma {:induction false} StringLeqTotal(a: string, b: string)
    ensures StringLeq(a, b) || StringLeq(b, a)
    ensures StringLeq(a, b) && StringLeq(b, a) ==> a == b
  {
    if a != [] && b != [] && a[0] == b[0] {
      StringLeqTotal(a[1..], b[1..]);
      assert a == [a[0]] + a[1..] && b == [b[0]] + b[1..];
    }
  }

  lemma {:induction false} StringLeqTransitive(a: string, b: string, c: string)
    requires StringLeq(a, b) && StringLeq(b, c)
    ensures StringLeq(a, c)
  {
    if a != [] && b != [] && c != [] && a[0] == b[0] && b[0] == c[0] {
      StringLeqTransitive(a[1..], b[1..], c[1..]);
    }
  }

  lemma {:induction false} StringLeqIsTotalOrder()
    ensures TotalPreorder(StringLeq) && Antisymmetric(StringLeq)
  {
    forall a: string, b: string
      ensures StringLeq(a, b) || StringLeq(b, a)
      ensures StringLeq(a, b) && StringLeq(b, a) ==> a == b
    {
      StringLeqTotal(a, b);
    }
    forall a: string, b: string, c: string | StringLeq(a, b) && StringLeq(b, c)
      ensures StringLeq(a, c)
    {
      StringLeqTransitive(a, b, c);
    }
  }

  /** The order of a dictionary: a front first, else by the first letter that differs. */
  ghost predicate InDictionaryOrder(a: string, b: string) {
    a <= b || exists k :: 0 <= k < |a| && k < |b| && AgreeTo(a, b, k) && a[k] < b[k]
  }

  predicate AgreeTo(a: string, b: string, k: nat)
    requires k <= |a| && k <= |b|
  {
    forall l :: 0 <= l < k ==> a[l] == b[l]
  }

  lemma {:induction false} StringLeqIsDictionary(a: string, b: string)
    ensures StringLeq(a, b) <==> InDictionaryOrder(a, b)
  {
    if a != [] && b != [] && a[0] == b[0] {
      StringLeqIsDictionary(a[1..], b[1..]);
      assert a == [a[0]] + a[1..] && b == [b[0]] + b[1..];
      if k :| 0 <= k < |a| && k < |b| && AgreeTo(a, b, k) && a[k] < b[k] {
        assert AgreeTo(a[1..], b[1..], k - 1);
      }
      if k :| 0 <= k < |a[1..]| && k < |b[1..]| && AgreeTo(a[1..], b[1..], k) && a[1..][k] < b[1..][k] {
        assert AgreeTo(a, b, k + 1) by {
          assert forall l :: 0 < l < k + 1 ==> a[l] == a[1..][l - 1] && b[l] == b[1..][l - 1];
        }
      }
    } else if a != [] && b != [] {
      assert AgreeTo(a, b, 0);
    }
  }
}
