/**
 Paging over two levels of partition: each segment batch and each worker sorts and keeps
 only the first limit + offset runs, and the coordinator pages the merge
 (src/query/object_store_stats.rs, src/query/distributed.rs, src/query.rs).
 */
module Paging {
  import opened Wrappers
  import opened Ordering
  import opened Sequences
  import opened Widths

  const USIZE_MAX: nat := 0xFFFF_FFFF_FFFF_FFFF

  datatype Key = Key(start: int, span: string)

  datatype Run = Run(key: Key, payload: string)

  datatype Query = Query(limit: Option<nat>, offset: Option<nat>, newestFirst: bool)

  /** Time in the asked direction, then span id. */
  predicate KeyLeq(newestFirst: bool, a: Key, b: Key) {
    if a.start == b.start then StringLeq(a.span, b.span)
    else if newestFirst then a.start > b.start else a.start < b.start
  }

  function KeyOrder(newestFirst: bool): (Key, Key) -> bool {
    (a: Key, b: Key) => KeyLeq(newestFirst, a, b)
  }

  lemma {:induction false} KeyOrderTotal(newestFirst: bool)
    ensures TotalPreorder(KeyOrder(newestFirst)) && Antisymmetric(KeyOrder(newestFirst))
  {
    StringLeqIsTotalOrder();
  }

  function RunOrder(newestFirst: bool): (Run, Run) -> bool {
    (a: Run, b: Run) => KeyLeq(newestFirst, a.key, b.key)
  }

  lemma {:induction false} RunOrderTotal(newestFirst: bool)
    ensures TotalPreorder(RunOrder(newestFirst))
  {
    StringLeqIsTotalOrder();
  }

  function Take<T>(xs: seq<T>, n: nat): seq<T> {
    if n <= |xs| then xs[..n] else xs
  }

  function Skip<T>(xs: seq<T>, n: nat): seq<T> {
    if n <= |xs| then xs[n..] else []
  }

  function Keys(runs: seq<Run>): (keys: seq<Key>)
    ensures |keys| == |runs|
  {
    seq(|runs|, i requires 0 <= i < |runs| => runs[i].key)
  }

  // ---- the program's queries ----

  function OffsetOf(query: Query): nat {
    if query.offset.Some? then query.offset.value else 0
  }

  /** `datafusion_batch_query` and `worker_query`: enough rows for the page, and no offset. */
  function Widened(query: Query): Query {
    Query(if query.limit.Some? then Some(SaturatingAdd(query.limit.value, OffsetOf(query), USIZE_MAX)) else None, None, query.newestFirst)
  }

  /** `page_datafusion_runs`. */
  function Page(runs: seq<Run>, query: Query): seq<Run> {
    Take(Skip(SortBy(runs, RunOrder(query.newestFirst)), OffsetOf(query)), if query.limit.Some? then query.limit.value else USIZE_MAX)
  }

  // ---- what a page is ----

  /** May stand before: newest or oldest first as asked, spans of one time in dictionary order. */
  ghost predicate InPlace(newestFirst: bool, a: Run, b: Run) {
    if a.key.start == b.key.start then InDictionaryOrder(a.key.span, b.key.span)
    else if newestFirst then a.key.start > b.key.start
    else a.key.start < b.key.start
  }

  ghost predicate InOrder(newestFirst: bool, runs: seq<Run>) {
    forall i, j :: 0 <= i < j < |runs| ==> InPlace(newestFirst, runs[i], runs[j])
  }

  /** How often the segments hold the run. */
  function Occurrences(segments: seq<seq<Run>>, r: Run): nat {
    if segments == [] then 0 else multiset(segments[0])[r] + Occurrences(segments[1..], r)
  }

  /** The page of the runs that are kept: in their order, as many before it as the offset says, no more in it than the limit says. */
  ghost predicate IsPage(segments: seq<seq<Run>>, keep: Run -> bool, query: Query, page: seq<Run>) {
    exists before, after :: PageBetween(segments, keep, query, before, page, after)
  }

  ghost predicate PageBetween(segments: seq<seq<Run>>, keep: Run -> bool, query: Query, before: seq<Run>, page: seq<Run>, after: seq<Run>) {
    && (forall r :: multiset(before + page + after)[r] == if keep(r) then Occurrences(segments, r) else 0)
    && InOrder(query.newestFirst, before + page + after)
    && (|before| == (if query.offset.Some? then query.offset.value else 0)
        || (page == [] && after == [] && query.offset.Some? && |before| < query.offset.value))
    && (if query.limit.None? then after == [] else |page| <= query.limit.value && (after != [] ==> |page| == query.limit.value))
  }

  predicate Everything(r: Run) {
    true
  }

  lemma {:induction false} KeyLeqIs(newestFirst: bool, a: Run, b: Run)
    ensures KeyLeq(newestFirst, a.key, b.key) <==> InPlace(newestFirst, a, b)
  {
    StringLeqIsDictionary(a.key.span, b.key.span);
    hide InDictionaryOrder, StringLeq;
  }

  lemma {:induction false} SortedIsInOrder(newestFirst: bool, runs: seq<Run>)
    ensures Sorted(runs, RunOrder(newestFirst)) <==> InOrder(newestFirst, runs)
  {
    hide InPlace, KeyLeq;
    forall i, j | 0 <= i < j < |runs|
      ensures RunOrder(newestFirst)(runs[i], runs[j]) <==> InPlace(newestFirst, runs[i], runs[j])
    {
      KeyLeqIs(newestFirst, runs[i], runs[j]);
    }
  }

  lemma {:induction false} OccurrencesFlat(segments: seq<seq<Run>>, r: Run)
    ensures Occurrences(segments, r) == multiset(Flatten(segments))[r]
  {
    if segments != [] {
      OccurrencesFlat(segments[1..], r);
    }
  }

  /** The runs are those of the segments that are kept. */
  ghost predicate KeptOf(segments: seq<seq<Run>>, keep: Run -> bool, runs: seq<Run>) {
    forall r :: multiset(runs)[r] == if keep(r) then Occurrences(segments, r) else 0
  }

  lemma {:induction false} SameMultiset(a: seq<Run>, b: seq<Run>)
    requires forall r :: multiset(a)[r] == multiset(b)[r]
    ensures multiset(a) == multiset(b) && |a| == |b|
  {
    assert multiset(a) == multiset(b);
    assert |a| == |multiset(a)| && |b| == |multiset(b)|;
  }

  /** Cutting any ordering at offset and limit gives the page, and every page is cut like this. */
  lemma {:induction false} CutsArePages(segments: seq<seq<Run>>, keep: Run -> bool, runs: seq<Run>, query: Query, page: seq<Run>)
    requires KeptOf(segments, keep, runs) && |runs| <= USIZE_MAX
    ensures IsPage(segments, keep, query, page) <==>
            exists sorted :: SortedRuns(runs, query.newestFirst, sorted) && page == Take(Skip(sorted, OffsetOf(query)), LimitOf(query))
  {
    hide *;
    if IsPage(segments, keep, query, page) {
      var sorted := PageIsOfSorted(segments, keep, runs, query, page);
    }
    if sorted :| SortedRuns(runs, query.newestFirst, sorted) && page == Take(Skip(sorted, OffsetOf(query)), LimitOf(query)) {
      CutIsPage(segments, keep, runs, query, sorted);
    }
  }

  lemma {:induction false} PageIsOfSorted(segments: seq<seq<Run>>, keep: Run -> bool, runs: seq<Run>, query: Query, page: seq<Run>)
    returns (sorted: seq<Run>)
    requires KeptOf(segments, keep, runs) && |runs| <= USIZE_MAX && IsPage(segments, keep, query, page)
    ensures SortedRuns(runs, query.newestFirst, sorted) && page == Take(Skip(sorted, OffsetOf(query)), LimitOf(query))
  {
    hide InOrder, Occurrences, Sorted, RunOrder, Take, Skip, LimitOf, OffsetOf;
    var before, after :| PageBetween(segments, keep, query, before, page, after);
    sorted := before + page + after;
    SortedIsInOrder(query.newestFirst, sorted);
    SameMultiset(sorted, runs);
    PageIsCut(query, before, page, after);
  }

  lemma {:induction false} SortedSize(runs: seq<Run>, newestFirst: bool, sorted: seq<Run>)
    requires SortedRuns(runs, newestFirst, sorted)
    ensures |sorted| == |runs| && multiset(sorted) == multiset(runs) && InOrder(newestFirst, sorted)
  {
    SortedIsInOrder(newestFirst, sorted);
    hide Sorted, RunOrder, InOrder;
    assert |sorted| == |multiset(sorted)| && |runs| == |multiset(runs)|;
  }

  lemma {:induction false} CutIsPage(segments: seq<seq<Run>>, keep: Run -> bool, runs: seq<Run>, query: Query, sorted: seq<Run>)
    requires KeptOf(segments, keep, runs) && |runs| <= USIZE_MAX && SortedRuns(runs, query.newestFirst, sorted)
    ensures IsPage(segments, keep, query, Take(Skip(sorted, OffsetOf(query)), LimitOf(query)))
  {
    SortedSize(runs, query.newestFirst, sorted);
    hide InOrder, Occurrences, SortedRuns;
    var o, l := OffsetOf(query), LimitOf(query);
    var before, page, after := Take(sorted, o), Take(Skip(sorted, o), l), Skip(Skip(sorted, o), l);
    ThreeCuts(sorted, o, l);
    assert PageBetween(segments, keep, query, before, page, after);
  }

  lemma {:induction false} ThreeCuts(sorted: seq<Run>, o: nat, l: nat)
    ensures Take(sorted, o) + Take(Skip(sorted, o), l) + Skip(Skip(sorted, o), l) == sorted
    ensures |Take(sorted, o)| == if o <= |sorted| then o else |sorted|
    ensures o > |sorted| ==> Skip(sorted, o) == []
    ensures |Take(Skip(sorted, o), l)| <= l && (Skip(Skip(sorted, o), l) != [] ==> |Take(Skip(sorted, o), l)| == l)
    ensures |sorted| <= l ==> Skip(Skip(sorted, o), l) == []
  {
  }

  lemma {:induction false} PageIsCut(query: Query, before: seq<Run>, page: seq<Run>, after: seq<Run>)
    requires |before + page + after| <= USIZE_MAX
    requires |before| == (if query.offset.Some? then query.offset.value else 0)
      || (page == [] && after == [] && query.offset.Some? && |before| < query.offset.value)
    requires if query.limit.None? then after == [] else |page| <= query.limit.value && (after != [] ==> |page| == query.limit.value)
    ensures page == Take(Skip(before + page + after, OffsetOf(query)), LimitOf(query))
  {
    var sorted := before + page + after;
    if |before| == OffsetOf(query) {
      assert Skip(sorted, OffsetOf(query)) == page + after;
    } else {
      assert sorted == before && Skip(sorted, OffsetOf(query)) == [];
    }
  }

  /** A page that an ordering gives through its front. */
  lemma {:induction false} PageOfFront(segments: seq<seq<Run>>, keep: Run -> bool, runs: seq<Run>, query: Query, merged: seq<Run>, front: seq<Run>)
    requires KeptOf(segments, keep, runs) && |runs| <= USIZE_MAX && |merged| <= USIZE_MAX
    requires front == Take(SortBy(merged, RunOrder(query.newestFirst)), CutOf(query))
    requires OrderedFront(runs, query.newestFirst, Some(CutOf(query)), front)
    ensures IsPage(segments, keep, query, Page(merged, query))
  {
    hide *;
    var mine := SortBy(merged, RunOrder(query.newestFirst));
    SortByRuns(merged, query.newestFirst);
    SortedSize(merged, query.newestFirst, mine);
    var sorted := OrderingOf(runs, query.newestFirst, CutOf(query), front);
    SortedSize(runs, query.newestFirst, sorted);
    PageFromFront(mine, sorted, query);
    PageUnfold(merged, query);
    CutIsPage(segments, keep, runs, query, sorted);
  }

  lemma {:induction false} OrderingOf(runs: seq<Run>, newestFirst: bool, n: nat, front: seq<Run>) returns (sorted: seq<Run>)
    requires OrderedFront(runs, newestFirst, Some(n), front)
    ensures SortedRuns(runs, newestFirst, sorted) && front == Take(sorted, n)
  {
    hide SortedRuns, Take;
    sorted :| SortedRuns(runs, newestFirst, sorted) && front == Take(sorted, n);
  }

  lemma {:induction false} PageUnfold(runs: seq<Run>, query: Query)
    ensures Page(runs, query) == Take(Skip(SortBy(runs, RunOrder(query.newestFirst)), OffsetOf(query)), LimitOf(query))
  {
    hide SortBy, Take, Skip, RunOrder;
  }

  /** Two pages of the same runs have the same keys, those of the program's page. */
  lemma {:induction false} PageKeysAre(segments: seq<seq<Run>>, keep: Run -> bool, runs: seq<Run>, query: Query, page: seq<Run>)
    requires KeptOf(segments, keep, runs) && |runs| <= USIZE_MAX && IsPage(segments, keep, query, page)
    ensures Keys(page) == Keys(Page(runs, query))
  {
    CutsArePages(segments, keep, runs, query, page);
    hide IsPage, KeptOf, SortBy, RunOrder, KeyOrder, Keys, Take, Skip;
    var sorted :| SortedRuns(runs, query.newestFirst, sorted) && page == Take(Skip(sorted, OffsetOf(query)), LimitOf(query));
    SortedKeys(runs, query.newestFirst, sorted);
    KeysSkip(sorted, OffsetOf(query));
    KeysTake(Skip(sorted, OffsetOf(query)), LimitOf(query));
    PageKeys(runs, query);
  }

  lemma {:induction false} PageSizeIs(segments: seq<seq<Run>>, keep: Run -> bool, runs: seq<Run>, query: Query, page: seq<Run>)
    requires KeptOf(segments, keep, runs) && |runs| <= USIZE_MAX && IsPage(segments, keep, query, page)
    ensures |page| == |Page(runs, query)|
  {
    hide KeptOf, IsPage, Page;
    PageKeysAre(segments, keep, runs, query, page);
    assert |Keys(page)| == |Keys(Page(runs, query))|;
  }

  /** The program's page of the kept runs is their page. */
  lemma {:induction false} PageIsPage(segments: seq<seq<Run>>, keep: Run -> bool, runs: seq<Run>, query: Query)
    requires KeptOf(segments, keep, runs) && |runs| <= USIZE_MAX
    ensures IsPage(segments, keep, query, Page(runs, query))
  {
    SortByRuns(runs, query.newestFirst);
    CutsArePages(segments, keep, runs, query, Page(runs, query));
    hide IsPage, KeptOf, SortBy, RunOrder;
  }

  /** Whatever is paged, the page is in order and no longer than the limit. */
  lemma {:induction false} PageInOrder(runs: seq<Run>, query: Query)
    ensures InOrder(query.newestFirst, Page(runs, query)) && multiset(Page(runs, query)) <= multiset(runs)
    ensures query.limit.Some? ==> |Page(runs, query)| <= query.limit.value
  {
    var sorted := SortBy(runs, RunOrder(query.newestFirst));
    var o, l := OffsetOf(query), LimitOf(query);
    SortByRuns(runs, query.newestFirst);
    ThreeCuts(sorted, o, l);
    assert Page(runs, query) == Take(Skip(sorted, o), l);
    hide SortBy, RunOrder, Take, Skip, Page;
    SortedSize(runs, query.newestFirst, sorted);
    MiddleOf(query.newestFirst, Take(sorted, o), Page(runs, query), Skip(Skip(sorted, o), l));
  }

  lemma {:induction false} MiddleOf(newestFirst: bool, before: seq<Run>, page: seq<Run>, after: seq<Run>)
    requires InOrder(newestFirst, before + page + after)
    ensures InOrder(newestFirst, page) && multiset(page) <= multiset(before + page + after)
  {
    hide InPlace;
    var all := before + page + after;
    forall i, j | 0 <= i < j < |page|
      ensures InPlace(newestFirst, page[i], page[j])
    {
      assert all[|before| + i] == page[i] && all[|before| + j] == page[j];
    }
  }

  // ---- fronts ----

  /** What a database returns for `ORDER BY` key with a limit: the front of some ordering, ties broken at will. */
  ghost predicate OrderedFront(runs: seq<Run>, newestFirst: bool, limit: Option<nat>, out: seq<Run>) {
    exists sorted :: SortedRuns(runs, newestFirst, sorted) && out == if limit.Some? then Take(sorted, limit.value) else sorted
  }

  ghost predicate SortedRuns(runs: seq<Run>, newestFirst: bool, sorted: seq<Run>) {
    multiset(sorted) == multiset(runs) && Sorted(sorted, RunOrder(newestFirst))
  }

  // ---- keys are all that matters ----

  lemma {:induction false} KeysPermute(a: seq<Run>, b: seq<Run>)
    requires multiset(a) == multiset(b)
    ensures multiset(Keys(a)) == multiset(Keys(b))
  {
    hide *;
    if a == [] {
      assert |multiset(b)| == 0;
      assert a == b;
    } else {
      var i := RemoveFirst(a, b);
      KeysPermute(a[1..], b[..i] + b[i + 1..]);
      KeysAround(b, i);
      KeysAround(a, 0);
      assert a[..0] + a[1..] == a[1..];
    }
  }

  lemma {:induction false} KeysAround(runs: seq<Run>, i: nat)
    requires i < |runs|
    ensures multiset(Keys(runs)) == multiset{runs[i].key} + multiset(Keys(runs[..i] + runs[i + 1..]))
  {
    assert runs == runs[..i] + [runs[i]] + runs[i + 1..];
    assert Keys([runs[i]]) == [runs[i].key];
    hide Keys;
    KeysJoin(runs[..i] + [runs[i]], runs[i + 1..]);
    KeysJoin(runs[..i], [runs[i]]);
    KeysJoin(runs[..i], runs[i + 1..]);
  }

  lemma {:induction false} KeysJoin(a: seq<Run>, b: seq<Run>)
    ensures Keys(a + b) == Keys(a) + Keys(b)
  {
  }

  /** Every ordering of the runs has the same keys: the ordering of the keys. */
  lemma {:induction false} SortedKeys(runs: seq<Run>, newestFirst: bool, sorted: seq<Run>)
    requires SortedRuns(runs, newestFirst, sorted)
    ensures Keys(sorted) == SortBy(Keys(runs), KeyOrder(newestFirst))
  {
    var order := KeyOrder(newestFirst);
    KeyOrderTotal(newestFirst);
    KeysPermute(sorted, runs);
    SortByCorrect(Keys(runs), order);
    forall i, j | 0 <= i < j < |sorted|
      ensures order(Keys(sorted)[i], Keys(sorted)[j])
    {
      assert RunOrder(newestFirst)(sorted[i], sorted[j]);
    }
    SortedUnique(Keys(sorted), SortBy(Keys(runs), order), order);
  }

  lemma {:induction false} SortByRuns(runs: seq<Run>, newestFirst: bool)
    ensures SortedRuns(runs, newestFirst, SortBy(runs, RunOrder(newestFirst)))
  {
    RunOrderTotal(newestFirst);
    SortByCorrect(runs, RunOrder(newestFirst));
  }

  // ---- the first n of a merge ----

  /** An element no smaller than the first n leaves them alone. */
  lemma {:induction false} InsertBeyond<T(!new)>(e: T, s: seq<T>, n: nat, leq: (T, T) -> bool)
    requires TotalPreorder(leq) && Antisymmetric(leq) && Sorted(s, leq)
    requires n <= |s| && (n > 0 ==> leq(s[n - 1], e))
    ensures Take(Insert(e, s, leq), n) == Take(s, n)
  {
    hide *;
    if n == 0 {
      NoneTaken(Insert(e, s, leq), s);
    } else if leq(e, s[0]) {
      AllTheSame(e, s, n, leq);
    } else {
      var rest := s[1..];
      TailSorted(s, leq);
      assert n > 1 ==> rest[n - 2] == s[n - 1];
      InsertBeyond(e, rest, n - 1, leq);
      InsertUnfold(e, s, leq);
      TakeOneMore(s[0], Insert(e, rest, leq), n);
      TakeOneMore(s[0], rest, n);
      assert s == [s[0]] + rest;
    }
  }

  lemma {:induction false} NoneTaken<T>(a: seq<T>, b: seq<T>)
    ensures Take(a, 0) == Take(b, 0)
  {
  }

  lemma {:induction false} TailSorted<T>(s: seq<T>, leq: (T, T) -> bool)
    requires s != [] && Sorted(s, leq)
    ensures Sorted(s[1..], leq)
  {
  }

  lemma {:induction false} InsertUnfold<T>(e: T, s: seq<T>, leq: (T, T) -> bool)
    requires s != [] && !leq(e, s[0])
    ensures Insert(e, s, leq) == [s[0]] + Insert(e, s[1..], leq)
  {
  }

  lemma {:induction false} TakeOneMore<T>(first: T, rest: seq<T>, n: nat)
    requires 0 < n
    ensures Take([first] + rest, n) == [first] + Take(rest, n - 1)
  {
  }

  lemma {:induction false} AllTheSame<T(!new)>(e: T, s: seq<T>, n: nat, leq: (T, T) -> bool)
    requires TotalPreorder(leq) && Antisymmetric(leq) && Sorted(s, leq)
    requires 0 < n <= |s| && leq(s[n - 1], e) && leq(e, s[0])
    ensures Take([e] + s, n) == Take(s, n) && Insert(e, s, leq) == [e] + s
  {
    forall i | 0 <= i < n
      ensures s[i] == e
    {
      Squeezed(e, s, n, i, leq);
    }
    Repeated(e, s, n);
    hide TotalPreorder, Antisymmetric, Sorted, Take;
  }

  lemma {:induction false} Squeezed<T(!new)>(e: T, s: seq<T>, n: nat, i: nat, leq: (T, T) -> bool)
    requires TotalPreorder(leq) && Antisymmetric(leq) && Sorted(s, leq)
    requires i < n <= |s| && leq(s[n - 1], e) && leq(e, s[0])
    ensures s[i] == e
  {
    if i < n - 1 {
      assert leq(s[i], s[n - 1]);
    }
    if i > 0 {
      assert leq(s[0], s[i]);
    }
    assert leq(s[i], e) && leq(e, s[i]);
  }

  lemma {:induction false} Repeated<T>(e: T, s: seq<T>, n: nat)
    requires n <= |s| && forall i :: 0 <= i < n ==> s[i] == e
    ensures Take([e] + s, n) == Take(s, n)
  {
    assert forall i :: 0 <= i < n ==> ([e] + s)[i] == e;
  }

  lemma {:induction false} CountedBelow<T(!new)>(x: multiset<T>, s: seq<T>, n: nat, e: T, leq: (T, T) -> bool)
    requires TotalPreorder(leq) && Sorted(s, leq) && 0 < n <= |s|
    requires x <= multiset(s) && |x| >= n && forall v :: v in x ==> leq(v, e)
    ensures leq(s[n - 1], e)
  {
    if !leq(s[n - 1], e) {
      var front, back := s[..n - 1], s[n - 1..];
      assert s == front + back;
      forall i | 0 <= i < |back|
        ensures back[i] !in x
      {
        assert back[i] == s[n - 1 + i];
        assert i > 0 ==> leq(s[n - 1], back[i]);
      }
      forall v
        ensures x[v] <= multiset(front)[v]
      {
        assert v in x ==> multiset(back)[v] == 0;
      }
      assert x <= multiset(front);
      SubCount(x, multiset(front));
    }
  }

  lemma {:induction false} SubCount<T>(a: multiset<T>, b: multiset<T>)
    requires a <= b
    ensures |a| <= |b|
  {
    assert b == a + (b - a);
  }

  /** Dropping what n others precede changes nothing in the first n. */
  lemma {:induction false} DropBeyond<T(!new)>(dropped: seq<T>, x: seq<T>, others: seq<T>, n: nat, leq: (T, T) -> bool)
    requires TotalPreorder(leq) && Antisymmetric(leq)
    requires |x| >= n && forall i, j :: 0 <= i < |x| && 0 <= j < |dropped| ==> leq(x[i], dropped[j])
    ensures Take(SortBy(dropped + (x + others), leq), n) == Take(SortBy(x + others, leq), n)
  {
    if dropped == [] {
      assert dropped + (x + others) == x + others;
    } else {
      var e, rest := dropped[0], dropped[1..];
      DropBeyond(rest, x, others, n, leq);
      var all := rest + (x + others);
      assert (dropped + (x + others)) == [e] + all;
      assert (dropped + (x + others))[1..] == all;
      var s := SortBy(all, leq);
      SortByCorrect(all, leq);
      if n > 0 {
        assert multiset(all) == multiset(rest) + multiset(x) + multiset(others);
        forall v | v in multiset(x)
          ensures leq(v, e)
        {
          var i :| 0 <= i < |x| && x[i] == v;
        }
        CountedBelow(multiset(x), s, n, e, leq);
      }
      InsertBeyond(e, s, n, leq);
    }
  }

  lemma {:induction false} SplitSorted<T(!new)>(sorted: seq<T>, n: nat, leq: (T, T) -> bool)
    requires Sorted(sorted, leq)
    ensures Take(sorted, n) + Skip(sorted, n) == sorted && Sorted(Take(sorted, n), leq)
    ensures forall i, j :: 0 <= i < |Take(sorted, n)| && 0 <= j < |Skip(sorted, n)| ==> leq(Take(sorted, n)[i], Skip(sorted, n)[j])
  {
    forall i, j | 0 <= i < |Take(sorted, n)| && 0 <= j < |Skip(sorted, n)|
      ensures leq(Take(sorted, n)[i], Skip(sorted, n)[j])
    {
      assert Take(sorted, n)[i] == sorted[i] && Skip(sorted, n)[j] == sorted[n + j];
    }
  }

  /** Keeping only the first n of one part keeps the first n of the whole. */
  lemma {:induction false} MergeOne<T(!new)>(a: seq<T>, b: seq<T>, m: nat, n: nat, leq: (T, T) -> bool)
    requires TotalPreorder(leq) && Antisymmetric(leq) && n <= m
    ensures Take(SortBy(Take(SortBy(a, leq), m) + b, leq), n) == Take(SortBy(a + b, leq), n)
  {
    var s := SortBy(a, leq);
    SortByCorrect(a, leq);
    var x, y := Take(s, m), Skip(s, m);
    SplitSorted(s, m, leq);
    assert multiset(a + b) == multiset(y + (x + b));
    hide SortBy;
    SortByPermutation(a + b, y + (x + b), leq);
    if y == [] {
      assert y + (x + b) == x + b;
    } else {
      DropBeyond(y, x, b, n, leq);
    }
  }

  /** The parts cut to their first m, for every part. */
  ghost predicate CutParts<T(!new)>(parts: seq<seq<T>>, cut: seq<seq<T>>, m: nat, leq: (T, T) -> bool) {
    |cut| == |parts| && forall i :: 0 <= i < |parts| ==> cut[i] == Take(SortBy(parts[i], leq), m)
  }

  lemma {:induction false} MergeParts<T(!new)>(parts: seq<seq<T>>, cut: seq<seq<T>>, done: seq<T>, m: nat, n: nat, leq: (T, T) -> bool)
    requires TotalPreorder(leq) && Antisymmetric(leq) && n <= m && CutParts(parts, cut, m, leq)
    ensures Take(SortBy(done + Flatten(cut), leq), n) == Take(SortBy(done + Flatten(parts), leq), n)
  {
    if parts != [] {
      var p, c := parts[0], cut[0];
      MergeParts(parts[1..], cut[1..], done + c, m, n, leq);
      assert (done + c) + Flatten(cut[1..]) == done + Flatten(cut);
      var rest := done + Flatten(parts[1..]);
      assert multiset((done + c) + Flatten(parts[1..])) == multiset(c + rest);
      SortByPermutation((done + c) + Flatten(parts[1..]), c + rest, leq);
      MergeOne(p, rest, m, n, leq);
      assert multiset(p + rest) == multiset(done + Flatten(parts));
      SortByPermutation(p + rest, done + Flatten(parts), leq);
    }
  }

  // ---- pages of keys ----

  function LimitOf(query: Query): nat {
    if query.limit.Some? then query.limit.value else USIZE_MAX
  }

  /** How much of each part a page can need. */
  function CutOf(query: Query): nat {
    if query.limit.Some? then SaturatingAdd(query.limit.value, OffsetOf(query), USIZE_MAX) else USIZE_MAX
  }

  function PageOfKeys(keys: seq<Key>, query: Query): seq<Key> {
    Take(Skip(SortBy(keys, KeyOrder(query.newestFirst)), OffsetOf(query)), LimitOf(query))
  }

  lemma {:induction false} PageKeys(runs: seq<Run>, query: Query)
    ensures Keys(Page(runs, query)) == PageOfKeys(Keys(runs), query)
  {
    var sorted := SortBy(runs, RunOrder(query.newestFirst));
    hide SortBy, RunOrder, KeyOrder, Keys, Take, Skip, SortedRuns;
    SortByRuns(runs, query.newestFirst);
    SortedKeys(runs, query.newestFirst, sorted);
    KeysSkip(sorted, OffsetOf(query));
    KeysTake(Skip(sorted, OffsetOf(query)), LimitOf(query));
  }

  lemma {:induction false} KeysSkip(runs: seq<Run>, n: nat)
    ensures Keys(Skip(runs, n)) == Skip(Keys(runs), n)
  {
  }

  lemma {:induction false} KeysTake(runs: seq<Run>, n: nat)
    ensures Keys(Take(runs, n)) == Take(Keys(runs), n)
  {
  }

  /** A page depends only on the front its limit and offset reach. */
  lemma {:induction false} PageFromFront<T>(a: seq<T>, b: seq<T>, query: Query)
    requires Take(a, CutOf(query)) == Take(b, CutOf(query)) && |a| <= USIZE_MAX && |b| <= USIZE_MAX
    ensures Take(Skip(a, OffsetOf(query)), LimitOf(query)) == Take(Skip(b, OffsetOf(query)), LimitOf(query))
  {
    var o, l, c := OffsetOf(query), LimitOf(query), CutOf(query);
    if o + l <= c {
      FrontOfSkip(a, o, l, c);
      FrontOfSkip(b, o, l, c);
    } else {
      assert c == USIZE_MAX;
      assert Take(a, c) == a && Take(b, c) == b;
    }
  }

  lemma {:induction false} FrontOfSkip<T>(a: seq<T>, o: nat, l: nat, c: nat)
    requires o + l <= c
    ensures Take(Skip(a, o), l) == Take(Skip(Take(a, c), o), l)
  {
  }

  lemma {:induction false} KeysFlatten(parts: seq<seq<Run>>)
    ensures Keys(Flatten(parts)) == Flatten(AllKeys(parts))
  {
    if parts != [] {
      KeysFlatten(parts[1..]);
      KeysJoin(parts[0], Flatten(parts[1..]));
      assert AllKeys(parts)[1..] == AllKeys(parts[1..]);
    }
  }

  function AllKeys(parts: seq<seq<Run>>): seq<seq<Key>> {
    seq(|parts|, i requires 0 <= i < |parts| => Keys(parts[i]))
  }

  /** Each part's answer has the keys of the front of its ordering. */
  ghost predicate Fronts(parts: seq<seq<Run>>, outs: seq<seq<Run>>, query: Query) {
    |outs| == |parts| && forall i :: 0 <= i < |parts| ==>
      Keys(outs[i]) == Take(SortBy(Keys(parts[i]), KeyOrder(query.newestFirst)), CutOf(query))
  }

  /** Paging the merged fronts gives the keys of paging everything. */
  lemma {:induction false} MergedPage(parts: seq<seq<Run>>, outs: seq<seq<Run>>, query: Query)
    requires Fronts(parts, outs, query) && |Flatten(parts)| <= USIZE_MAX && |Flatten(outs)| <= USIZE_MAX
    ensures Keys(Page(Flatten(outs), query)) == Keys(Page(Flatten(parts), query))
  {
    var order, c := KeyOrder(query.newestFirst), CutOf(query);
    KeyOrderTotal(query.newestFirst);
    assert CutParts(AllKeys(parts), AllKeys(outs), c, order);
    MergeParts(AllKeys(parts), AllKeys(outs), [], c, c, order);
    assert [] + Flatten(AllKeys(outs)) == Flatten(AllKeys(outs)) && [] + Flatten(AllKeys(parts)) == Flatten(AllKeys(parts));
    KeysFlatten(parts);
    KeysFlatten(outs);
    PageKeys(Flatten(outs), query);
    PageKeys(Flatten(parts), query);
    var a, b := SortBy(Keys(Flatten(outs)), order), SortBy(Keys(Flatten(parts)), order);
    SortByCorrect(Keys(Flatten(outs)), order);
    SortByCorrect(Keys(Flatten(parts)), order);
    hide SortBy, Page, KeyOrder, Flatten;
    PageFromFront(a, b, query);
  }

  lemma {:induction false} FlattenShorter(parts: seq<seq<Run>>, outs: seq<seq<Run>>, query: Query)
    requires Fronts(parts, outs, query)
    ensures |Flatten(outs)| <= |Flatten(parts)|
  {
    hide KeyOrder;
    if parts != [] {
      KeyOrderTotal(query.newestFirst);
      assert Keys(outs[0]) == Take(SortBy(Keys(parts[0]), KeyOrder(query.newestFirst)), CutOf(query));
      SortByCorrect(Keys(parts[0]), KeyOrder(query.newestFirst));
      FlattenShorter(parts[1..], outs[1..], query);
    }
  }

  // ---- the two levels ----

  function Chunks<T>(xs: seq<T>, size: nat): seq<seq<T>>
    requires size > 0
    decreases |xs|
  {
    if xs == [] then [] else [Take(xs, size)] + Chunks(Skip(xs, size), size)
  }

  lemma {:induction false} ChunksFlatten<T>(xs: seq<T>, size: nat)
    requires size > 0
    ensures Flatten(Chunks(xs, size)) == xs
    decreases |xs|
  {
    if xs != [] {
      ChunksFlatten(Skip(xs, size), size);
      assert Chunks(xs, size)[1..] == Chunks(Skip(xs, size), size);
    }
  }

  /** The runs of each chunk of segments, end to end. */
  function ChunkRuns(chunks: seq<seq<seq<Run>>>): seq<seq<Run>> {
    seq(|chunks|, i requires 0 <= i < |chunks| => Flatten(chunks[i]))
  }

  lemma {:induction false} FlattenTwice(chunks: seq<seq<seq<Run>>>)
    ensures Flatten(ChunkRuns(chunks)) == Flatten(Flatten(chunks))
  {
    if chunks != [] {
      FlattenTwice(chunks[1..]);
      FlattenJoin(chunks[0], Flatten(chunks[1..]));
      assert ChunkRuns(chunks)[1..] == ChunkRuns(chunks[1..]);
    }
  }

  const SEGMENTS_PER_BATCH: nat := 8

  /** One batch's SQL: the ordered front, with any order among equal keys. */
  method ExecuteSql(batch: seq<Run>, query: Query) returns (out: seq<Run>)
    ensures OrderedFront(batch, query.newestFirst, query.limit, out)
  {
    SortByRuns(batch, query.newestFirst);
    var sorted := SortBy(batch, RunOrder(query.newestFirst));
    out := if query.limit.Some? then Take(sorted, query.limit.value) else sorted;
  }

  lemma {:induction false} FrontOfKeys(batch: seq<Run>, newestFirst: bool, n: nat, out: seq<Run>)
    requires OrderedFront(batch, newestFirst, Some(n), out)
    ensures Keys(out) == Take(SortBy(Keys(batch), KeyOrder(newestFirst)), n)
  {
    var sorted :| SortedRuns(batch, newestFirst, sorted) && out == Take(sorted, n);
    SortedKeys(batch, newestFirst, sorted);
    hide SortBy, Keys;
    KeysTake(sorted, n);
  }

  lemma {:induction false} PartShorter<T>(parts: seq<seq<T>>, i: nat)
    requires i < |parts|
    ensures |parts[i]| <= |Flatten(parts)|
  {
    if i > 0 {
      PartShorter(parts[1..], i - 1);
    }
  }

  // ---- fronts of fronts, run by run ----

  /** A front and what it leaves behind. */
  ghost predicate CutInTwo(runs: seq<Run>, newestFirst: bool, n: nat, out: seq<Run>, rest: seq<Run>) {
    && multiset(runs) == multiset(out) + multiset(rest) && Sorted(out, RunOrder(newestFirst))
    && (forall x: Run, y: Run :: x in out && y in rest ==> KeyLeq(newestFirst, x.key, y.key))
    && |out| <= n && (rest != [] ==> |out| == n)
  }

  lemma {:induction false} FrontLeaves(runs: seq<Run>, newestFirst: bool, n: nat, out: seq<Run>) returns (rest: seq<Run>)
    requires OrderedFront(runs, newestFirst, Some(n), out)
    ensures CutInTwo(runs, newestFirst, n, out, rest)
  {
    var sorted :| SortedRuns(runs, newestFirst, sorted) && out == Take(sorted, n);
    rest := Skip(sorted, n);
    var order := RunOrder(newestFirst);
    SplitSorted(sorted, n, order);
    assert multiset(out + rest) == multiset(out) + multiset(rest);
    assert |out| <= n && (rest != [] ==> |out| == n);
    hide KeyLeq, Take, Skip, Sorted;
    forall x, y | x in out && y in rest
      ensures KeyLeq(newestFirst, x.key, y.key)
    {
      var i, j :| 0 <= i < |out| && out[i] == x && 0 <= j < |rest| && rest[j] == y;
      assert order(out[i], rest[j]);
    }
  }

  lemma {:induction false} CutIsFront(runs: seq<Run>, newestFirst: bool, n: nat, out: seq<Run>, rest: seq<Run>)
    requires CutInTwo(runs, newestFirst, n, out, rest)
    ensures OrderedFront(runs, newestFirst, Some(n), out)
  {
    var order, tail := RunOrder(newestFirst), SortBy(rest, RunOrder(newestFirst));
    SortByRuns(rest, newestFirst);
    var sorted := out + tail;
    forall i, j | 0 <= i < j < |sorted|
      ensures order(sorted[i], sorted[j])
    {
      if i < |out| <= j {
        assert sorted[j] in multiset(tail);
        assert sorted[j] in multiset(rest);
      } else if j < |out| {
        assert order(out[i], out[j]);
      } else {
        assert order(tail[i - |out|], tail[j - |out|]);
      }
    }
    assert |rest| == |multiset(rest)| == |multiset(tail)| == |tail|;
    assert out == Take(sorted, n);
    assert SortedRuns(runs, newestFirst, sorted);
  }

  /** A run some part left behind, with a full front before it. */
  ghost predicate Behind(outs: seq<seq<Run>>, newestFirst: bool, n: nat, y: Run) {
    exists i :: 0 <= i < |outs| && |outs[i]| == n && forall x :: x in outs[i] ==> KeyLeq(newestFirst, x.key, y.key)
  }

  ghost predicate RunFronts(parts: seq<seq<Run>>, outs: seq<seq<Run>>, newestFirst: bool, n: nat) {
    |outs| == |parts| && forall i :: 0 <= i < |parts| ==> OrderedFront(parts[i], newestFirst, Some(n), outs[i])
  }

  lemma {:induction false} StillBehind(first: seq<Run>, outs: seq<seq<Run>>, newestFirst: bool, n: nat, y: Run)
    ensures Behind(outs, newestFirst, n, y) ==> Behind([first] + outs, newestFirst, n, y)
    ensures |first| == n && (forall x :: x in first ==> KeyLeq(newestFirst, x.key, y.key)) ==> Behind([first] + outs, newestFirst, n, y)
  {
    hide KeyLeq;
    var all := [first] + outs;
    assert all[0] == first;
    if Behind(outs, newestFirst, n, y) {
      var i :| 0 <= i < |outs| && |outs[i]| == n && forall x :: x in outs[i] ==> KeyLeq(newestFirst, x.key, y.key);
      assert all[i + 1] == outs[i];
    }
  }

  lemma {:induction false} PartsLeft<T>(first: seq<T>, others: seq<T>, a: seq<T>, b: seq<T>, here: seq<T>, there: seq<T>)
    requires multiset(first) == multiset(a) + multiset(here) && multiset(others) == multiset(b) + multiset(there)
    ensures multiset(first + others) == multiset(a + b) + multiset(here + there)
  {
  }

  /** What the parts leave behind, taken together. */
  ghost predicate LeftOver(parts: seq<seq<Run>>, outs: seq<seq<Run>>, newestFirst: bool, n: nat, rest: seq<Run>) {
    && multiset(Flatten(parts)) == multiset(Flatten(outs)) + multiset(rest)
    && forall y :: y in rest ==> Behind(outs, newestFirst, n, y)
  }

  lemma {:induction false} BehindFirst(
    out: seq<Run>, outs: seq<seq<Run>>, part: seq<Run>, newestFirst: bool, n: nat, here: seq<Run>, there: seq<Run>, y: Run)
    requires CutInTwo(part, newestFirst, n, out, here) && y in here + there
    requires forall z :: z in there ==> Behind(outs, newestFirst, n, z)
    ensures Behind([out] + outs, newestFirst, n, y)
  {
    StillBehind(out, outs, newestFirst, n, y);
    hide Behind, KeyLeq;
  }

  lemma {:induction false} LeftStep(
    part: seq<Run>, parts: seq<seq<Run>>, out: seq<Run>, outs: seq<seq<Run>>, newestFirst: bool, n: nat, here: seq<Run>, there: seq<Run>)
    requires CutInTwo(part, newestFirst, n, out, here) && LeftOver(parts, outs, newestFirst, n, there)
    ensures LeftOver([part] + parts, [out] + outs, newestFirst, n, here + there)
  {
    FlattenJoin([part], parts);
    FlattenJoin([out], outs);
    FlattenOne(part);
    FlattenOne(out);
    PartsLeft(part, Flatten(parts), out, Flatten(outs), here, there);
    hide Flatten, Behind, KeyLeq, CutInTwo;
    forall y | y in here + there
      ensures Behind([out] + outs, newestFirst, n, y)
    {
      BehindFirst(out, outs, part, newestFirst, n, here, there, y);
    }
  }

  lemma {:induction false} FirstFront(parts: seq<seq<Run>>, outs: seq<seq<Run>>, newestFirst: bool, n: nat)
    requires RunFronts(parts, outs, newestFirst, n) && parts != []
    ensures outs != [] && OrderedFront(parts[0], newestFirst, Some(n), outs[0]) && RunFronts(parts[1..], outs[1..], newestFirst, n)
    ensures parts == [parts[0]] + parts[1..] && outs == [outs[0]] + outs[1..]
  {
    hide OrderedFront;
  }

  lemma {:induction false} AllLeft(parts: seq<seq<Run>>, outs: seq<seq<Run>>, newestFirst: bool, n: nat) returns (rest: seq<Run>)
    requires RunFronts(parts, outs, newestFirst, n)
    ensures LeftOver(parts, outs, newestFirst, n, rest)
  {
    if parts == [] {
      rest := [];
    } else {
      FirstFront(parts, outs, newestFirst, n);
      hide *;
      var here := FrontLeaves(parts[0], newestFirst, n, outs[0]);
      var there := AllLeft(parts[1..], outs[1..], newestFirst, n);
      LeftStep(parts[0], parts[1..], outs[0], outs[1..], newestFirst, n, here, there);
      rest := here + there;
    }
  }

  lemma {:induction false} PartOfFlat<T>(parts: seq<seq<T>>, i: nat)
    requires i < |parts|
    ensures multiset(parts[i]) <= multiset(Flatten(parts))
  {
    if i > 0 {
      PartOfFlat(parts[1..], i - 1);
    }
  }

  lemma {:induction false} NoneBefore<T(!new)>(part: seq<T>, sorted: seq<T>, n: nat, x: T, y: T, leq: (T, T) -> bool)
    requires TotalPreorder(leq) && Sorted(sorted, leq) && multiset(part) <= multiset(sorted) && |part| == n
    requires (forall v :: v in part ==> leq(v, y)) && x in Take(sorted, n)
    ensures leq(x, y)
  {
    SubCount(multiset(part), multiset(sorted));
    CountedBelow(multiset(part), sorted, n, y, leq);
    var k :| 0 <= k < n && sorted[k] == x;
    assert k < n - 1 ==> leq(sorted[k], sorted[n - 1]);
  }

  lemma {:induction false} FullPart(outs: seq<seq<Run>>, newestFirst: bool, n: nat, y: Run) returns (part: seq<Run>)
    requires Behind(outs, newestFirst, n, y)
    ensures |part| == n && multiset(part) <= multiset(Flatten(outs)) && forall x :: x in part ==> RunOrder(newestFirst)(x, y)
  {
    var i :| 0 <= i < |outs| && |outs[i]| == n && forall z :: z in outs[i] ==> KeyLeq(newestFirst, z.key, y.key);
    part := outs[i];
    PartOfFlat(outs, i);
  }

  lemma {:induction false} FinalBefore(outs: seq<seq<Run>>, newestFirst: bool, n: nat, sorted: seq<Run>, x: Run, y: Run)
    requires SortedRuns(Flatten(outs), newestFirst, sorted) && Behind(outs, newestFirst, n, y) && x in Take(sorted, n)
    ensures RunOrder(newestFirst)(x, y)
  {
    RunOrderTotal(newestFirst);
    var part := FullPart(outs, newestFirst, n, y);
    hide RunOrder, Behind, Take;
    NoneBefore(part, sorted, n, x, y, RunOrder(newestFirst));
  }

  lemma {:induction false} FrontLength(outs: seq<seq<Run>>, newestFirst: bool, n: nat, sorted: seq<Run>, y: Run)
    requires SortedRuns(Flatten(outs), newestFirst, sorted) && Behind(outs, newestFirst, n, y)
    ensures n <= |sorted|
  {
    var part := FullPart(outs, newestFirst, n, y);
    hide RunOrder, Behind;
    SubCount(multiset(part), multiset(sorted));
  }

  /** The front of the parts' fronts is a front of the whole. */
  lemma {:induction false} FrontOfFronts(parts: seq<seq<Run>>, outs: seq<seq<Run>>, newestFirst: bool, n: nat, out: seq<Run>)
    requires RunFronts(parts, outs, newestFirst, n) && OrderedFront(Flatten(outs), newestFirst, Some(n), out)
    ensures OrderedFront(Flatten(parts), newestFirst, Some(n), out)
  {
    hide *;
    var sorted := OrderingOf(Flatten(outs), newestFirst, n, out);
    var left := AllLeft(parts, outs, newestFirst, n);
    var after := FrontLeaves(Flatten(outs), newestFirst, n, out);
    LeftBehind(parts, outs, newestFirst, n, left);
    if left != [] {
      FrontLength(outs, newestFirst, n, sorted, left[0]);
      TakenAll(sorted, n);
    }
    forall x, y | x in out && y in left
      ensures RunOrder(newestFirst)(x, y)
    {
      FinalBefore(outs, newestFirst, n, sorted, x, y);
    }
    MoreLeft(Flatten(outs), Flatten(parts), newestFirst, n, out, after, left);
    CutIsFront(Flatten(parts), newestFirst, n, out, after + left);
  }

  lemma {:induction false} LeftBehind(parts: seq<seq<Run>>, outs: seq<seq<Run>>, newestFirst: bool, n: nat, rest: seq<Run>)
    requires LeftOver(parts, outs, newestFirst, n, rest)
    ensures multiset(Flatten(parts)) == multiset(Flatten(outs)) + multiset(rest)
    ensures forall y :: y in rest ==> Behind(outs, newestFirst, n, y)
  {
    hide Flatten, Behind;
  }

  lemma {:induction false} TakenAll(sorted: seq<Run>, n: nat)
    requires n <= |sorted|
    ensures |Take(sorted, n)| == n
  {
  }

  lemma {:induction false} MoreLeft(runs: seq<Run>, all: seq<Run>, newestFirst: bool, n: nat, out: seq<Run>, rest: seq<Run>, left: seq<Run>)
    requires CutInTwo(runs, newestFirst, n, out, rest) && multiset(all) == multiset(runs) + multiset(left)
    requires (forall x, y :: x in out && y in left ==> RunOrder(newestFirst)(x, y)) && (left != [] ==> |out| == n)
    ensures CutInTwo(all, newestFirst, n, out, rest + left)
  {
    hide KeyLeq, Sorted;
    assert multiset(rest + left) == multiset(rest) + multiset(left);
  }

  /** A limit, or none, cuts a list that a `usize` can count at the same place. */
  lemma {:induction false} FrontCut(batch: seq<Run>, query: Query, out: seq<Run>)
    requires OrderedFront(batch, query.newestFirst, Widened(query).limit, out) && |batch| <= USIZE_MAX
    ensures OrderedFront(batch, query.newestFirst, Some(CutOf(query)), out)
  {
    var limit := Widened(query).limit;
    var sorted :| SortedRuns(batch, query.newestFirst, sorted) && out == if limit.Some? then Take(sorted, limit.value) else sorted;
    assert |sorted| == |multiset(sorted)| == |multiset(batch)| == |batch|;
    assert out == Take(sorted, CutOf(query));
  }

  lemma {:induction false} PageIsFront(runs: seq<Run>, query: Query)
    requires query.offset.None?
    ensures OrderedFront(runs, query.newestFirst, Some(LimitOf(query)), Page(runs, query))
  {
    SortByRuns(runs, query.newestFirst);
    var sorted := SortBy(runs, RunOrder(query.newestFirst));
    assert Skip(sorted, 0) == sorted;
    hide SortBy;
  }

  /** `query_segment_sources_with_datafusion_timed`: batches of segments, then one page. */
  method QuerySegments(segments: seq<seq<Run>>, query: Query) returns (runs: seq<Run>)
    requires |Flatten(segments)| <= USIZE_MAX
    ensures IsPage(segments, Everything, query, runs)
    ensures query.offset.None? && LimitOf(query) <= USIZE_MAX ==>
      OrderedFront(Flatten(segments), query.newestFirst, Some(LimitOf(query)), runs)
  {
    var chunks := Chunks(segments, SEGMENTS_PER_BATCH);
    ghost var parts := ChunkRuns(chunks);
    ghost var outs: seq<seq<Run>> := [];
    ChunksFlatten(segments, SEGMENTS_PER_BATCH);
    FlattenTwice(chunks);
    var merged: seq<Run> := [];
    hide Chunks, Page, SortBy, KeyOrder, OrderedFront, CutOf, Widened, LimitOf, IsPage;
    for i := 0 to |chunks|
      invariant |outs| == i && merged == Flatten(outs)
      invariant Fronts(parts[..i], outs, query)
      invariant RunFronts(parts[..i], outs, query.newestFirst, CutOf(query))
    {
      var out := ExecuteSql(Flatten(chunks[i]), Widened(query));
      PartShorter(parts, i);
      SameDirection(query);
      FrontCut(parts[i], query, out);
      FrontOfKeys(parts[i], query.newestFirst, CutOf(query), out);
      OneMoreRunFront(parts, i, outs, out, query.newestFirst, CutOf(query));
      OneMoreFront(parts, i, outs, out, query);
      FlattenJoin(outs, [out]);
      FlattenOne(out);
      outs := outs + [out];
      merged := merged + out;
    }
    assert parts[..|chunks|] == parts;
    FlattenShorter(parts, outs, query);
    runs := Page(merged, query);
    FrontsPage(segments, parts, outs, query);
    if query.offset.None? && LimitOf(query) <= USIZE_MAX {
      PageIsFront(merged, query);
      SameCut(query);
      FrontOfFronts(parts, outs, query.newestFirst, LimitOf(query), runs);
    }
  }

  /** Paging the merged fronts of the parts is paging all they hold. */
  lemma {:induction false} FrontsPage(segments: seq<seq<Run>>, parts: seq<seq<Run>>, outs: seq<seq<Run>>, query: Query)
    requires RunFronts(parts, outs, query.newestFirst, CutOf(query)) && Flatten(parts) == Flatten(segments)
    requires |Flatten(segments)| <= USIZE_MAX && |Flatten(outs)| <= USIZE_MAX
    ensures IsPage(segments, Everything, query, Page(Flatten(outs), query))
  {
    EverythingKept(segments);
    hide KeptOf;
    FrontsPageKept(segments, Everything, parts, outs, query);
  }

  lemma {:induction false} EverythingKept(segments: seq<seq<Run>>)
    ensures KeptOf(segments, Everything, Flatten(segments))
  {
    hide Flatten, Occurrences;
    forall r
      ensures multiset(Flatten(segments))[r] == Occurrences(segments, r)
    {
      OccurrencesFlat(segments, r);
    }
  }

  lemma {:induction false} FrontsPageKept(segments: seq<seq<Run>>, keep: Run -> bool, parts: seq<seq<Run>>, outs: seq<seq<Run>>, query: Query)
    requires RunFronts(parts, outs, query.newestFirst, CutOf(query)) && KeptOf(segments, keep, Flatten(parts))
    requires |Flatten(parts)| <= USIZE_MAX && |Flatten(outs)| <= USIZE_MAX
    ensures IsPage(segments, keep, query, Page(Flatten(outs), query))
  {
    var merged, order, c := Flatten(outs), RunOrder(query.newestFirst), CutOf(query);
    var front := Take(SortBy(merged, order), c);
    SortByRuns(merged, query.newestFirst);
    assert OrderedFront(merged, query.newestFirst, Some(c), front);
    hide *;
    FrontOfFronts(parts, outs, query.newestFirst, c, front);
    PageOfFront(segments, keep, Flatten(parts), query, merged, front);
  }

  lemma {:induction false} SameCut(query: Query)
    requires query.offset.None? && LimitOf(query) <= USIZE_MAX
    ensures CutOf(query) == LimitOf(query)
  {
  }

  lemma {:induction false} OneMoreRunFront(parts: seq<seq<Run>>, i: nat, outs: seq<seq<Run>>, out: seq<Run>, newestFirst: bool, n: nat)
    requires i < |parts| && RunFronts(parts[..i], outs, newestFirst, n) && OrderedFront(parts[i], newestFirst, Some(n), out)
    ensures RunFronts(parts[..i + 1], outs + [out], newestFirst, n)
  {
    hide OrderedFront;
    forall k | 0 <= k < i + 1
      ensures OrderedFront(parts[..i + 1][k], newestFirst, Some(n), (outs + [out])[k])
    {
      if k < i {
        assert parts[..i + 1][k] == parts[..i][k] && (outs + [out])[k] == outs[k];
      }
    }
  }

  lemma {:induction false} PartMember<T>(parts: seq<seq<T>>, i: nat, x: T)
    requires i < |parts| && x in parts[i]
    ensures x in Flatten(parts)
  {
    if i > 0 {
      PartMember(parts[1..], i - 1, x);
    }
  }

  lemma {:induction false} SameDirection(query: Query)
    ensures Widened(query).newestFirst == query.newestFirst
  {
  }

  lemma {:induction false} OneMoreFront(parts: seq<seq<Run>>, i: nat, outs: seq<seq<Run>>, out: seq<Run>, query: Query)
    requires i < |parts| && Fronts(parts[..i], outs, query)
    requires Keys(out) == Take(SortBy(Keys(parts[i]), KeyOrder(query.newestFirst)), CutOf(query))
    ensures Fronts(parts[..i + 1], outs + [out], query)
  {
    hide SortBy, KeyOrder, CutOf, Keys;
    forall k | 0 <= k < i + 1
      ensures Keys((outs + [out])[k]) == Take(SortBy(Keys(parts[..i + 1][k]), KeyOrder(query.newestFirst)), CutOf(query))
    {
      if k < i {
        assert parts[..i + 1][k] == parts[..i][k] && (outs + [out])[k] == outs[k];
      }
    }
  }

  /** A worker's page is the front of its own ordering. */
  lemma {:induction false} WorkerKeys(part: seq<Run>, query: Query)
    requires |part| <= USIZE_MAX
    ensures Keys(Page(part, Widened(query))) == Take(SortBy(Keys(part), KeyOrder(query.newestFirst)), CutOf(query))
  {
    PageKeys(part, Widened(query));
    KeyOrderTotal(query.newestFirst);
    var sorted := SortBy(Keys(part), KeyOrder(query.newestFirst));
    SortByCorrect(Keys(part), KeyOrder(query.newestFirst));
    hide SortBy, KeyOrder;
    assert Skip(sorted, 0) == sorted;
  }

  lemma {:induction false} FlattenPermuted<T>(a: seq<seq<T>>, b: seq<seq<T>>)
    requires multiset(a) == multiset(b)
    ensures multiset(Flatten(a)) == multiset(Flatten(b))
  {
    if a == [] {
      assert |multiset(b)| == 0;
      assert b == [];
    } else {
      var i := RemoveFirst(a, b);
      FlattenPermuted(a[1..], b[..i] + b[i + 1..]);
      hide Flatten;
      FlattenAround(b, i);
      FlattenAround(a, 0);
      assert a[..0] + a[1..] == a[1..];
    }
  }

  lemma {:induction false} FlattenAround<T>(parts: seq<seq<T>>, i: nat)
    requires i < |parts|
    ensures multiset(Flatten(parts)) == multiset(parts[i]) + multiset(Flatten(parts[..i] + parts[i + 1..]))
  {
    hide Flatten;
    assert parts == (parts[..i] + [parts[i]]) + parts[i + 1..];
    FlattenJoin(parts[..i] + [parts[i]], parts[i + 1..]);
    FlattenJoin(parts[..i], [parts[i]]);
    FlattenOne(parts[i]);
    FlattenJoin(parts[..i], parts[i + 1..]);
  }
}
