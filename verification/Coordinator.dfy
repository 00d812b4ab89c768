/**
 The coordinator of a distributed query: the workers' fronts are merged, filtered against
 the metadata and paged (src/query/distributed.rs).  Filtering after the workers have cut
 their answers can lose rows of the page; when it cannot is decided here.
 */
module Coordinator {
  import opened Wrappers
  import opened Ordering
  import opened Sequences
  import opened Paging

  function Filter(runs: seq<Run>, keep: Run -> bool): seq<Run> {
    if runs == [] then [] else (if keep(runs[0]) then [runs[0]] else []) + Filter(runs[1..], keep)
  }

  function FilterAll(parts: seq<seq<Run>>, keep: Run -> bool): seq<seq<Run>> {
    seq(|parts|, i requires 0 <= i < |parts| => Filter(parts[i], keep))
  }

  /** What the coordinator can return for partitions in the order their workers finish. */
  ghost predicate Answers(finished: seq<seq<seq<Run>>>, query: Query, keep: Run -> bool, runs: seq<Run>) {
    exists outs :: RunFronts(ChunkRuns(finished), outs, query.newestFirst, CutOf(query)) && runs == Page(Filter(Flatten(outs), keep), query)
  }

  /** The page of all runs the filter keeps. */
  ghost predicate Right(segments: seq<seq<Run>>, query: Query, keep: Run -> bool, runs: seq<Run>) {
    IsPage(segments, keep, query, runs)
  }

  /** A part of a page: kept runs, in the asked order, no more than the limit. */
  ghost predicate OrderedPart(segments: seq<seq<Run>>, query: Query, keep: Run -> bool, runs: seq<Run>) {
    && InOrder(query.newestFirst, runs) && (query.limit.Some? ==> |runs| <= query.limit.value)
    && forall r :: multiset(runs)[r] <= if keep(r) then Occurrences(segments, r) else 0
  }

  ghost predicate Split(segments: seq<seq<Run>>, partitionSize: nat, finished: seq<seq<seq<Run>>>) {
    partitionSize > 0 && |Flatten(segments)| <= USIZE_MAX && multiset(finished) == multiset(Chunks(segments, partitionSize))
  }

  ghost predicate Apart(newestFirst: bool, keep: Run -> bool) {
    forall d: Run, k: Run :: keep(k) && !keep(d) ==> !KeyLeq(newestFirst, d.key, k.key)
  }

  /** Nothing is cut (no limit, or one that with the offset reaches the counter's end), nothing is asked for, or no dropped run can take a kept one's place. */
  ghost predicate Harmless(query: Query, keep: Run -> bool) {
    || query.limit.None? || query.limit.value == 0 || query.limit.value + OffsetOf(query) >= USIZE_MAX
    || Apart(query.newestFirst, keep)
  }

  /** A worker that returns all its runs, or only runs the filter keeps. */
  ghost predicate Spared(part: seq<Run>, query: Query, keep: Run -> bool) {
    || |part| <= CutOf(query)
    || forall out :: OrderedFront(part, query.newestFirst, Some(CutOf(query)), out) ==> AllKept(out, keep)
  }

  ghost predicate AllKept(runs: seq<Run>, keep: Run -> bool) {
    forall r :: r in runs ==> keep(r)
  }

  // ---- filtering ----

  lemma {:induction false} FilterCounts(runs: seq<Run>, keep: Run -> bool)
    ensures forall r :: multiset(Filter(runs, keep))[r] == if keep(r) then multiset(runs)[r] else 0
    ensures |Filter(runs, keep)| <= |runs|
  {
    if runs != [] {
      FilterCounts(runs[1..], keep);
      assert runs == [runs[0]] + runs[1..];
    }
  }

  lemma {:induction false} FilterMembers(runs: seq<Run>, keep: Run -> bool)
    ensures forall r :: r in Filter(runs, keep) <==> r in runs && keep(r)
  {
    if runs != [] {
      FilterMembers(runs[1..], keep);
      assert runs == [runs[0]] + runs[1..];
    }
  }

  lemma {:induction false} FilterKeepsAll(runs: seq<Run>, keep: Run -> bool)
    requires AllKept(runs, keep)
    ensures Filter(runs, keep) == runs
  {
    if runs != [] {
      FilterKeepsAll(runs[1..], keep);
      assert runs == [runs[0]] + runs[1..];
    }
  }

  lemma {:induction false} FilterParts(whole: seq<Run>, a: seq<Run>, b: seq<Run>, keep: Run -> bool)
    requires multiset(whole) == multiset(a) + multiset(b)
    ensures multiset(Filter(whole, keep)) == multiset(Filter(a, keep)) + multiset(Filter(b, keep))
  {
    FilterCounts(whole, keep);
    FilterCounts(a, keep);
    FilterCounts(b, keep);
    hide Filter;
    forall r
      ensures multiset(Filter(whole, keep))[r] == (multiset(Filter(a, keep)) + multiset(Filter(b, keep)))[r]
    {
    }
  }

  lemma {:induction false} FilterSorted(runs: seq<Run>, keep: Run -> bool, leq: (Run, Run) -> bool)
    requires Sorted(runs, leq)
    ensures Sorted(Filter(runs, keep), leq)
  {
    if runs != [] {
      var tail := Filter(runs[1..], keep);
      FilterSorted(runs[1..], keep, leq);
      FilterMembers(runs[1..], keep);
      forall j | 0 <= j < |tail|
        ensures leq(runs[0], tail[j])
      {
        assert tail[j] in runs[1..];
        var i :| 0 <= i < |runs[1..]| && runs[1..][i] == tail[j];
        assert leq(runs[0], runs[i + 1]);
      }
    }
  }

  lemma {:induction false} FilterCons(first: Run, others: seq<Run>, keep: Run -> bool)
    ensures Filter([first] + others, keep) == (if keep(first) then [first] else []) + Filter(others, keep)
  {
    assert ([first] + others)[1..] == others;
  }

  lemma {:induction false} FilterJoin(a: seq<Run>, b: seq<Run>, keep: Run -> bool)
    ensures Filter(a + b, keep) == Filter(a, keep) + Filter(b, keep)
  {
    if a == [] {
      assert a + b == b && [] + Filter(b, keep) == Filter(b, keep);
    } else {
      hide *;
      var first, others := a[0], a[1..];
      FilterJoin(others, b, keep);
      FilterCons(first, others, keep);
      FilterCons(first, others + b, keep);
      assert a == [first] + others && a + b == [first] + (others + b);
      ThreeParts(if keep(first) then [first] else [], Filter(others, keep), Filter(b, keep));
    }
  }

  lemma {:induction false} FilterFlat(parts: seq<seq<Run>>, keep: Run -> bool)
    ensures Filter(Flatten(parts), keep) == Flatten(FilterAll(parts, keep))
  {
    if parts != [] {
      hide Filter;
      FilterFlat(parts[1..], keep);
      FilterJoin(parts[0], Flatten(parts[1..]), keep);
      assert FilterAll(parts, keep)[1..] == FilterAll(parts[1..], keep);
    } else {
      assert FilterAll(parts, keep) == [];
    }
  }

  // ---- when a filtered front is a front of what the filter leaves ----

  ghost predicate Spares(part: seq<Run>, out: seq<Run>, newestFirst: bool, n: nat, keep: Run -> bool) {
    |part| <= n || AllKept(out, keep) || Apart(newestFirst, keep)
  }

  lemma {:induction false} CutAllKept(part: seq<Run>, out: seq<Run>, rest: seq<Run>, newestFirst: bool, n: nat, keep: Run -> bool)
    requires CutInTwo(part, newestFirst, n, out, rest) && Spares(part, out, newestFirst, n, keep) && Filter(rest, keep) != []
    ensures AllKept(out, keep) && |out| == n
  {
    FilterMembers(rest, keep);
    var y := Filter(rest, keep)[0];
    assert y in rest && keep(y);
    assert |part| == |multiset(part)| == |out| + |rest|;
    hide KeyLeq, Filter;
    if Apart(newestFirst, keep) {
      forall x | x in out
        ensures keep(x)
      {
        assert KeyLeq(newestFirst, x.key, y.key);
      }
    }
  }

  lemma {:induction false} FilterFront(part: seq<Run>, out: seq<Run>, newestFirst: bool, n: nat, keep: Run -> bool)
    requires OrderedFront(part, newestFirst, Some(n), out) && Spares(part, out, newestFirst, n, keep)
    ensures OrderedFront(Filter(part, keep), newestFirst, Some(n), Filter(out, keep))
  {
    var rest := FrontLeaves(part, newestFirst, n, out);
    var kept, left := Filter(out, keep), Filter(rest, keep);
    FilterParts(part, out, rest, keep);
    FilterSorted(out, keep, RunOrder(newestFirst));
    FilterCounts(out, keep);
    FilterMembers(out, keep);
    FilterMembers(rest, keep);
    if left != [] {
      CutAllKept(part, out, rest, newestFirst, n, keep);
      FilterKeepsAll(out, keep);
    }
    hide Filter, KeyLeq, Sorted, OrderedFront;
    assert CutInTwo(Filter(part, keep), newestFirst, n, kept, left);
    CutIsFront(Filter(part, keep), newestFirst, n, kept, left);
  }

  ghost predicate AllSpared(parts: seq<seq<Run>>, outs: seq<seq<Run>>, newestFirst: bool, n: nat, keep: Run -> bool) {
    |outs| == |parts| && forall i :: 0 <= i < |parts| ==> Spares(parts[i], outs[i], newestFirst, n, keep)
  }

  lemma {:induction false} FilteredFronts(parts: seq<seq<Run>>, outs: seq<seq<Run>>, newestFirst: bool, n: nat, keep: Run -> bool)
    requires RunFronts(parts, outs, newestFirst, n) && AllSpared(parts, outs, newestFirst, n, keep)
    ensures RunFronts(FilterAll(parts, keep), FilterAll(outs, keep), newestFirst, n)
  {
    hide OrderedFront, Spares, Filter;
    forall i | 0 <= i < |parts|
      ensures OrderedFront(FilterAll(parts, keep)[i], newestFirst, Some(n), FilterAll(outs, keep)[i])
    {
      FilterFront(parts[i], outs[i], newestFirst, n, keep);
    }
  }

  /** The runs of the segments that are kept, wherever they were taken from. */
  lemma {:induction false} FilterKept(segments: seq<seq<Run>>, runs: seq<Run>, keep: Run -> bool)
    requires multiset(runs) == multiset(Flatten(segments))
    ensures KeptOf(segments, keep, Filter(runs, keep))
  {
    FilterCounts(runs, keep);
    hide Filter, Flatten, Occurrences;
    forall r
      ensures multiset(runs)[r] == Occurrences(segments, r)
    {
      OccurrencesFlat(segments, r);
    }
  }

  lemma {:induction false} FrontsFewer(parts: seq<seq<Run>>, outs: seq<seq<Run>>, newestFirst: bool, n: nat)
    requires RunFronts(parts, outs, newestFirst, n)
    ensures multiset(Flatten(outs)) <= multiset(Flatten(parts)) && |Flatten(outs)| <= |Flatten(parts)|
  {
    var rest := AllLeft(parts, outs, newestFirst, n);
    LeftIs(parts, outs, newestFirst, n, rest);
    hide *;
    assert |multiset(Flatten(outs))| == |Flatten(outs)| && |multiset(Flatten(parts))| == |Flatten(parts)|;
    SubCount(multiset(Flatten(outs)), multiset(Flatten(parts)));
  }

  lemma {:induction false} LeftIs(parts: seq<seq<Run>>, outs: seq<seq<Run>>, newestFirst: bool, n: nat, rest: seq<Run>)
    requires LeftOver(parts, outs, newestFirst, n, rest)
    ensures multiset(Flatten(outs)) <= multiset(Flatten(parts))
  {
    hide Flatten, Behind;
  }

  /** Filtering the fronts and paging gives the page of all that is kept. */
  lemma {:induction false} FilteredPage(segments: seq<seq<Run>>, parts: seq<seq<Run>>, outs: seq<seq<Run>>, query: Query, keep: Run -> bool)
    requires RunFronts(parts, outs, query.newestFirst, CutOf(query)) && AllSpared(parts, outs, query.newestFirst, CutOf(query), keep)
    requires multiset(Flatten(parts)) == multiset(Flatten(segments)) && |Flatten(parts)| <= USIZE_MAX
    ensures IsPage(segments, keep, query, Page(Filter(Flatten(outs), keep), query))
  {
    hide *;
    FilteredFronts(parts, outs, query.newestFirst, CutOf(query), keep);
    FilterFlat(parts, keep);
    FilterFlat(outs, keep);
    FilterCounts(Flatten(parts), keep);
    FrontsFewer(FilterAll(parts, keep), FilterAll(outs, keep), query.newestFirst, CutOf(query));
    FilterKept(segments, Flatten(parts), keep);
    FrontsPageKept(segments, keep, FilterAll(parts, keep), FilterAll(outs, keep), query);
  }

  // ---- enough for a right answer ----

  lemma {:induction false} SplitAnyhow(segments: seq<seq<Run>>, size: nat, finished: seq<seq<seq<Run>>>)
    requires Split(segments, size, finished)
    ensures multiset(Flatten(ChunkRuns(finished))) == multiset(Flatten(segments))
    ensures |Flatten(ChunkRuns(finished))| <= USIZE_MAX
  {
    ChunksFlatten(segments, size);
    FlattenPermuted(finished, Chunks(segments, size));
    FlattenPermuted(Flatten(finished), segments);
    FlattenTwice(finished);
    hide Flatten, ChunkRuns;
    var a, b := Flatten(ChunkRuns(finished)), Flatten(segments);
    assert |a| == |multiset(a)| == |multiset(b)| == |b|;
  }

  lemma {:induction false} NothingCut(parts: seq<seq<Run>>, outs: seq<seq<Run>>, query: Query, keep: Run -> bool)
    requires RunFronts(parts, outs, query.newestFirst, CutOf(query)) && |Flatten(parts)| <= USIZE_MAX
    requires Harmless(query, keep) && !(query.limit.Some? && query.limit.value == 0)
    ensures AllSpared(parts, outs, query.newestFirst, CutOf(query), keep)
  {
    hide Flatten, OrderedFront, KeyLeq;
    forall i | 0 <= i < |parts|
      ensures Spares(parts[i], outs[i], query.newestFirst, CutOf(query), keep)
    {
      PartShorter(parts, i);
    }
  }

  lemma {:induction false} PartsSpared(finished: seq<seq<seq<Run>>>, outs: seq<seq<Run>>, query: Query, keep: Run -> bool)
    requires RunFronts(ChunkRuns(finished), outs, query.newestFirst, CutOf(query))
    requires forall i :: 0 <= i < |finished| ==> Spared(Flatten(finished[i]), query, keep)
    ensures AllSpared(ChunkRuns(finished), outs, query.newestFirst, CutOf(query), keep)
  {
    hide Flatten, OrderedFront, AllKept, CutOf;
    forall i | 0 <= i < |finished|
      ensures Spares(ChunkRuns(finished)[i], outs[i], query.newestFirst, CutOf(query), keep)
    {
      assert Spared(Flatten(finished[i]), query, keep);
      assert OrderedFront(ChunkRuns(finished)[i], query.newestFirst, Some(CutOf(query)), outs[i]);
    }
  }

  lemma {:induction false} EmptyPage(runs: seq<Run>, query: Query)
    requires query.limit == Some(0)
    ensures Page(runs, query) == []
  {
    hide SortBy, Skip;
  }

  /** Any answer is right when filtering is harmless, or when every worker's front is spared. */
  lemma {:induction false} SparedIsRight(
    segments: seq<seq<Run>>, size: nat, finished: seq<seq<seq<Run>>>, query: Query, keep: Run -> bool, runs: seq<Run>)
    requires Split(segments, size, finished) && Answers(finished, query, keep, runs)
    requires Harmless(query, keep) || forall i :: 0 <= i < |finished| ==> Spared(Flatten(finished[i]), query, keep)
    ensures Right(segments, query, keep, runs)
  {
    var outs :| RunFronts(ChunkRuns(finished), outs, query.newestFirst, CutOf(query)) && runs == Page(Filter(Flatten(outs), keep), query);
    var parts := ChunkRuns(finished);
    hide Harmless, Split, Spared, Flatten, Filter, Page, ChunkRuns, CutOf, RunFronts, AllSpared, IsPage, KeptOf;
    SplitAnyhow(segments, size, finished);
    if query.limit == Some(0) {
      EmptyPage(Filter(Flatten(outs), keep), query);
      EmptyPage(Filter(Flatten(parts), keep), query);
      FilterKept(segments, Flatten(parts), keep);
      FilterCounts(Flatten(parts), keep);
      PageIsPage(segments, keep, Filter(Flatten(parts), keep), query);
    } else {
      if Harmless(query, keep) {
        NothingCut(parts, outs, query, keep);
      } else {
        PartsSpared(finished, outs, query, keep);
      }
      FilteredPage(segments, parts, outs, query, keep);
    }
  }

  // ---- and not more than enough ----

  function Copies(k: Run, n: nat): (runs: seq<Run>)
    ensures |runs| == n
  {
    seq(n, i => k)
  }

  /** One segment: a run that is dropped, then as many kept ones as a worker returns. */
  function ShortSegment(query: Query, d: Run, k: Run): seq<Run> {
    [d] + Copies(k, CutOf(query))
  }

  lemma {:induction false} FilterShort(d: Run, k: Run, n: nat, keep: Run -> bool)
    requires keep(k) && !keep(d)
    ensures Filter([d] + Copies(k, n), keep) == Copies(k, n)
  {
    FilterKeepsAll(Copies(k, n), keep);
    assert ([d] + Copies(k, n))[1..] == Copies(k, n);
    hide Copies;
  }

  lemma {:induction false} PageLength(runs: seq<Run>, query: Query)
    requires query.limit.Some?
    ensures |Page(runs, query)| ==
            var left := if OffsetOf(query) <= |runs| then |runs| - OffsetOf(query) else 0;
            if query.limit.value <= left then query.limit.value else left
  {
    SortByRuns(runs, query.newestFirst);
    var sorted := SortBy(runs, RunOrder(query.newestFirst));
    assert |sorted| == |multiset(sorted)| == |multiset(runs)| == |runs|;
    hide SortBy;
  }

  lemma {:induction false} OneChunk(segment: seq<Run>)
    ensures Chunks([segment], 1) == [[segment]]
  {
    assert Skip([segment], 1) == [] && Take([segment], 1) == [segment];
  }

  /** A query that cuts: the page has rows, and limit and offset can be counted. */
  ghost predicate Cuts(query: Query) {
    query.limit.Some? && query.limit.value > 0 && query.limit.value + OffsetOf(query) < USIZE_MAX
  }

  /** The page of the short segment is full, and one run short when its front starts with the dropped run. */
  lemma {:induction false} ShortPages(query: Query, d: Run, k: Run, keep: Run -> bool)
    requires Cuts(query) && keep(k) && !keep(d)
    ensures |Page(Filter(Flatten([ShortSegment(query, d, k)]), keep), query)| == query.limit.value
    ensures |Page(Filter(Take(ShortSegment(query, d, k), CutOf(query)), keep), query)| == query.limit.value - 1
    ensures Split([ShortSegment(query, d, k)], 1, [[ShortSegment(query, d, k)]])
  {
    var c := CutOf(query);
    assert c == query.limit.value + OffsetOf(query);
    FlattenOne(ShortSegment(query, d, k));
    OneChunk(ShortSegment(query, d, k));
    FilterShort(d, k, c, keep);
    FilterShort(d, k, c - 1, keep);
    assert Take(ShortSegment(query, d, k), c) == [d] + Copies(k, c - 1);
    hide Page, Filter, Flatten, Chunks, Copies;
    PageLength(Copies(k, c), query);
    PageLength(Copies(k, c - 1), query);
  }

  lemma {:induction false} ShortFront(query: Query, d: Run, k: Run)
    requires KeyLeq(query.newestFirst, d.key, k.key)
    ensures OrderedFront(ShortSegment(query, d, k), query.newestFirst, Some(CutOf(query)), Take(ShortSegment(query, d, k), CutOf(query)))
  {
    var segment, order := ShortSegment(query, d, k), RunOrder(query.newestFirst);
    RunOrderTotal(query.newestFirst);
    assert order(k, k);
    assert SortedRuns(segment, query.newestFirst, segment);
  }

  lemma {:induction false} ShortAnswer(query: Query, d: Run, k: Run, keep: Run -> bool) returns (runs: seq<Run>)
    requires Cuts(query) && keep(k) && !keep(d) && KeyLeq(query.newestFirst, d.key, k.key)
    ensures Split([ShortSegment(query, d, k)], 1, [[ShortSegment(query, d, k)]])
    ensures Answers([[ShortSegment(query, d, k)]], query, keep, runs)
    ensures !Right([ShortSegment(query, d, k)], query, keep, runs)
  {
    var segment := ShortSegment(query, d, k);
    var out := Take(segment, CutOf(query));
    runs := Page(Filter(out, keep), query);
    ShortPages(query, d, k, keep);
    ShortFront(query, d, k);
    FlattenOne(segment);
    FlattenOne(out);
    hide Page, Filter, Flatten, ShortSegment, Take, CutOf, OrderedFront, Split, KeyLeq;
    assert ChunkRuns([[segment]]) == [segment];
    assert RunFronts(ChunkRuns([[segment]]), [out], query.newestFirst, CutOf(query));
    assert Answers([[segment]], query, keep, runs);
    hide IsPage, KeptOf;
    FilterKept([segment], Flatten([segment]), keep);
    FilterCounts(Flatten([segment]), keep);
    SplitSize([segment], 1, [[segment]]);
    if IsPage([segment], keep, query, runs) {
      PageSizeIs([segment], keep, Filter(Flatten([segment]), keep), query, runs);
    }
  }

  lemma {:induction false} SplitSize(segments: seq<seq<Run>>, size: nat, finished: seq<seq<seq<Run>>>)
    requires Split(segments, size, finished)
    ensures |Flatten(segments)| <= USIZE_MAX
  {
  }

  /** For every list of segments, every split and every arrival order, the coordinator's answer is right. */
  ghost predicate AlwaysRight(query: Query, keep: Run -> bool) {
    forall segments, size: nat, finished, runs ::
      Split(segments, size, finished) && Answers(finished, query, keep, runs) ==> Right(segments, query, keep, runs)
  }

  /** For a given query and filter the coordinator is always right if and only if filtering is harmless. */
  lemma {:induction false} RightIffHarmless(query: Query, keep: Run -> bool)
    ensures AlwaysRight(query, keep) <==> Harmless(query, keep)
  {
    hide Split, Answers, Right, KeyLeq;
    if Harmless(query, keep) {
      forall segments, size: nat, finished, runs | Split(segments, size, finished) && Answers(finished, query, keep, runs)
        ensures Right(segments, query, keep, runs)
      {
        SparedIsRight(segments, size, finished, query, keep, runs);
      }
    } else {
      var d: Run, k: Run :| keep(k) && !keep(d) && KeyLeq(query.newestFirst, d.key, k.key);
      var runs := ShortAnswer(query, d, k, keep);
    }
  }

  // ---- the coordinator ----

  lemma {:induction false} WorkerCut(query: Query)
    ensures Widened(query).offset.None? && LimitOf(Widened(query)) == CutOf(query) <= USIZE_MAX
    ensures Widened(query).newestFirst == query.newestFirst
  {
  }

  lemma {:induction false} NowAnswers(finished: seq<seq<seq<Run>>>, outs: seq<seq<Run>>, query: Query, keep: Run -> bool)
    requires RunFronts(ChunkRuns(finished), outs, query.newestFirst, CutOf(query))
    ensures Answers(finished, query, keep, Page(Filter(Flatten(outs), keep), query))
  {
    hide RunFronts, Page, Filter, Flatten;
  }

  lemma {:induction false} AnswerOrdered(segments: seq<seq<Run>>, parts: seq<seq<Run>>, outs: seq<seq<Run>>, query: Query, keep: Run -> bool)
    requires RunFronts(parts, outs, query.newestFirst, CutOf(query)) && multiset(Flatten(parts)) == multiset(Flatten(segments))
    ensures OrderedPart(segments, query, keep, Page(Filter(Flatten(outs), keep), query))
  {
    var kept := Filter(Flatten(outs), keep);
    FrontsFewer(parts, outs, query.newestFirst, CutOf(query));
    FilterCounts(Flatten(outs), keep);
    PageInOrder(kept, query);
    hide Filter, Flatten, Page, RunFronts, Occurrences, InOrder, CutOf;
    forall r
      ensures multiset(Page(kept, query))[r] <= if keep(r) then Occurrences(segments, r) else 0
    {
      OccurrencesFlat(segments, r);
    }
  }

  /**
   Segments split into partitions of any size, each answered by a worker, the answers
   arriving in any order, filtered and paged.  The answer is in order and within the limit,
   and it is the page of all runs the filter keeps if filtering is harmless or every worker
   that cuts its answer cuts to runs the filter keeps.
   */
  method CoordinateQuery(
    segments: seq<seq<Run>>, partitionSize: nat, query: Query, finished: seq<seq<seq<Run>>>, keep: Run -> bool)
    returns (runs: seq<Run>)
    requires Split(segments, partitionSize, finished)
    ensures Answers(finished, query, keep, runs) && OrderedPart(segments, query, keep, runs)
    ensures Harmless(query, keep) || (forall i :: 0 <= i < |finished| ==> Spared(Flatten(finished[i]), query, keep)) ==>
      Right(segments, query, keep, runs)
  {
    ghost var parts := ChunkRuns(finished);
    var merged: seq<Run> := [];
    ghost var outs: seq<seq<Run>> := [];
    SplitAnyhow(segments, partitionSize, finished);
    WorkerCut(query);
    assert Flatten<Run>([]) == [];
    hide Chunks, Page, SortBy, KeyOrder, CutOf, LimitOf, Widened, Keys, Flatten, OrderedFront, Split, Harmless, Spared, Answers, Right,
         OrderedPart, IsPage;
    for i := 0 to |finished|
      invariant |outs| == i && merged == Flatten(outs)
      invariant RunFronts(parts[..i], outs, query.newestFirst, CutOf(query))
    {
      PartShorter(parts, i);
      var out := QuerySegments(finished[i], Widened(query));
      OneMoreRunFront(parts, i, outs, out, query.newestFirst, CutOf(query));
      FlattenAppend(outs, out);
      outs := outs + [out];
      merged := merged + out;
    }
    assert parts[..|finished|] == parts;
    NowAnswers(finished, outs, query, keep);
    runs := Page(Filter(merged, keep), query);
    AnswerOrdered(segments, parts, outs, query, keep);
    if Harmless(query, keep) || forall i :: 0 <= i < |finished| ==> Spared(Flatten(finished[i]), query, keep) {
      SparedIsRight(segments, partitionSize, finished, query, keep, runs);
    }
  }

  lemma {:induction false} FirstThenSame(d: Run, k: Run, n: nat, sorted: seq<Run>)
    requires multiset(sorted) == multiset([d] + Copies(k, n)) && sorted != [] && sorted[0] == d
    ensures sorted == [d] + Copies(k, n)
  {
    var tail := sorted[1..];
    assert sorted == [d] + tail;
    assert multiset([d] + tail) == multiset{d} + multiset(tail);
    assert multiset([d] + Copies(k, n)) == multiset{d} + multiset(Copies(k, n));
    Cancelled(multiset{d}, multiset(tail), multiset(Copies(k, n)));
    AllTheSameRun(k, n, tail);
  }

  lemma {:induction false} Cancelled<T>(a: multiset<T>, b: multiset<T>, c: multiset<T>)
    requires a + b == a + c
    ensures b == c
  {
    assert b == (a + b) - a && c == (a + c) - a;
  }

  lemma {:induction false} AllTheSameRun(k: Run, n: nat, runs: seq<Run>)
    requires multiset(runs) == multiset(Copies(k, n))
    ensures runs == Copies(k, n)
  {
    assert |runs| == |multiset(runs)| == |multiset(Copies(k, n))| == n;
    forall i | 0 <= i < n
      ensures runs[i] == k
    {
      assert runs[i] in multiset(Copies(k, n));
    }
  }

  lemma {:induction false} OnlyOrder(query: Query, d: Run, k: Run, sorted: seq<Run>)
    requires SortedRuns(ShortSegment(query, d, k), query.newestFirst, sorted) && !KeyLeq(query.newestFirst, k.key, d.key)
    ensures sorted == ShortSegment(query, d, k)
  {
    var segment, order := ShortSegment(query, d, k), RunOrder(query.newestFirst);
    assert segment[0] == d && forall r :: r in segment ==> r == d || r == k;
    hide ShortSegment, KeyLeq;
    assert |sorted| == |multiset(sorted)| == |multiset(segment)| == |segment|;
    assert d in multiset(segment);
    var i :| 0 <= i < |sorted| && sorted[i] == d;
    assert sorted[0] in multiset(segment);
    assert i > 0 ==> order(sorted[0], sorted[i]);
    assert sorted[0] == d;
    assert segment == [d] + Copies(k, CutOf(query)) by { ShortIs(query, d, k); }
    FirstThenSame(d, k, CutOf(query), sorted);
  }

  lemma {:induction false} ShortIs(query: Query, d: Run, k: Run)
    ensures ShortSegment(query, d, k) == [d] + Copies(k, CutOf(query))
  {
  }

  /** A page that comes up short: the dropped run sorts first and takes the place of the last one of the page. */
  method DroppingComesUpShort(query: Query, d: Run, k: Run, keep: Run -> bool) returns (runs: seq<Run>)
    requires Cuts(query) && keep(k) && !keep(d) && !KeyLeq(query.newestFirst, k.key, d.key)
    ensures |runs| == query.limit.value - 1
    ensures |Page(Filter(Flatten([ShortSegment(query, d, k)]), keep), query)| == query.limit.value
  {
    var segment := ShortSegment(query, d, k);
    ShortPages(query, d, k, keep);
    runs := CoordinateQuery([segment], 1, query, [[segment]], keep);
    ShortRuns(query, d, k, keep, runs);
  }

  lemma {:induction false} ShortRuns(query: Query, d: Run, k: Run, keep: Run -> bool, runs: seq<Run>)
    requires Cuts(query) && keep(k) && !keep(d) && !KeyLeq(query.newestFirst, k.key, d.key)
    requires Answers([[ShortSegment(query, d, k)]], query, keep, runs)
    ensures |runs| == query.limit.value - 1
  {
    var segment := ShortSegment(query, d, k);
    var finished := [[segment]];
    FlattenOne(segment);
    assert ChunkRuns(finished) == [segment];
    var outs :| RunFronts(ChunkRuns(finished), outs, query.newestFirst, CutOf(query)) && runs == Page(Filter(Flatten(outs), keep), query);
    assert OrderedFront(ChunkRuns(finished)[0], query.newestFirst, Some(CutOf(query)), outs[0]);
    assert outs == [outs[0]];
    FlattenOne(outs[0]);
    hide Page, Filter, Flatten, Chunks, ShortSegment, KeyLeq, Take, SortedRuns;
    var sorted :| SortedRuns(segment, query.newestFirst, sorted) && outs[0] == Take(sorted, CutOf(query));
    OnlyOrder(query, d, k, sorted);
    ShortPages(query, d, k, keep);
  }
}
