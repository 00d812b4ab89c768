/**
 Writing one partition's records as bounded segments while other writers commit keys of their own:
 filter what is already logged, write a segment, and on a key conflict filter again.
 */
module PersistLoop {
  import opened Wrappers
  import opened Sequences

  datatype Record = Record(key: string, payload: string)

  /** A failed attempt hands back the records that are not known to be written. */
  datatype PersistOutcome = Receipts(sizes: seq<nat>) | Unwritten(records: seq<Record>)

  datatype SegmentOutcome = Written(size: nat) | DuplicateConflict | Failed

  predicate DistinctKeys(records: seq<Record>) {
    forall i, j :: 0 <= i < j < |records| ==> records[i].key != records[j].key
  }

  function KeysOf(records: seq<Record>): set<string> {
    set i | 0 <= i < |records| :: records[i].key
  }

  /** The records whose key is not in `keys`, in order. */
  function Without(records: seq<Record>, keys: set<string>): seq<Record> {
    if records == [] then []
    else if records[0].key in keys then Without(records[1..], keys)
    else [records[0]] + Without(records[1..], keys)
  }

  lemma {:induction false} WithoutMembers(records: seq<Record>, keys: set<string>)
    ensures forall r :: r in Without(records, keys) <==> r in records && r.key !in keys
  {
    if records != [] {
      WithoutMembers(records[1..], keys);
      assert records == [records[0]] + records[1..];
    }
  }

  lemma {:induction false} WithoutDistinct(records: seq<Record>, keys: set<string>)
    requires DistinctKeys(records)
    ensures DistinctKeys(Without(records, keys))
  {
    if records != [] {
      WithoutDistinct(records[1..], keys);
      WithoutMembers(records[1..], keys);
    }
  }

  /** Filtering shortens a list exactly when it holds a filtered key. */
  lemma {:induction false} WithoutShorter(records: seq<Record>, keys: set<string>)
    ensures |Without(records, keys)| <= |records|
    ensures (exists r :: r in records && r.key in keys) ==> |Without(records, keys)| < |records|
    ensures (forall r :: r in records ==> r.key !in keys) ==> Without(records, keys) == records
  {
    if records != [] {
      WithoutShorter(records[1..], keys);
      assert records == [records[0]] + records[1..];
    }
  }

  lemma {:induction false} WithoutTwice(records: seq<Record>, some: set<string>, more: set<string>)
    ensures Without(Without(records, some), more) == Without(records, some + more)
  {
    if records != [] {
      WithoutTwice(records[1..], some, more);
      var rest := Without(records[1..], some);
      assert ([records[0]] + rest)[1..] == rest;
    }
  }

  lemma {:induction false} KeysOfCons(r: Record, rest: seq<Record>)
    ensures KeysOf([r] + rest) == {r.key} + KeysOf(rest)
  {
    var all := [r] + rest;
    forall k
      ensures k in KeysOf(all) <==> k == r.key || k in KeysOf(rest)
    {
      if k in KeysOf(rest) {
        var i :| 0 <= i < |rest| && rest[i].key == k;
        assert all[i + 1].key == k;
      }
      assert all[0] == r;
    }
  }

  /** Dropping a front segment is dropping its keys. */
  lemma {:induction false} WithoutFront(records: seq<Record>, n: nat)
    requires DistinctKeys(records) && n <= |records|
    ensures Without(records, KeysOf(records[..n])) == records[n..]
  {
    if n == 0 {
      assert KeysOf(records[..0]) == {};
      WithoutShorter(records, {});
    } else {
      var rest := records[1..];
      WithoutFront(rest, n - 1);
      assert records[..n] == [records[0]] + rest[..n - 1];
      KeysOfCons(records[0], rest[..n - 1]);
      assert forall r :: r in rest ==> r.key != records[0].key;
      WithoutTwice(rest, {records[0].key}, KeysOf(rest[..n - 1]));
      WithoutShorter(rest, {records[0].key});
    }
  }

  lemma {:induction false} WithoutCons(first: Record, others: seq<Record>, keys: set<string>)
    ensures Without([first] + others, keys) == (if first.key in keys then [] else [first]) + Without(others, keys)
  {
    assert ([first] + others)[1..] == others;
  }

  lemma {:induction false} WithoutAppend(a: seq<Record>, b: seq<Record>, keys: set<string>)
    ensures Without(a + b, keys) == Without(a, keys) + Without(b, keys)
  {
    if a == [] {
      assert a + b == b && [] + Without(b, keys) == Without(b, keys);
    } else {
      hide *;
      var first, others := a[0], a[1..];
      WithoutAppend(others, b, keys);
      WithoutCons(first, others, keys);
      WithoutCons(first, others + b, keys);
      assert a == [first] + others && a + b == [first] + (others + b);
      ThreeParts(if first.key in keys then [] else [first], Without(others, keys), Without(b, keys));
    }
  }

  lemma {:induction false} WithoutOwnKeys(records: seq<Record>, keys: set<string>)
    requires KeysOf(records) <= keys
    ensures Without(records, keys) == []
  {
    if records != [] {
      assert records == [records[0]] + records[1..];
      KeysOfCons(records[0], records[1..]);
      hide KeysOf;
      WithoutOwnKeys(records[1..], keys);
    }
  }

  /** What is left of the batch once the keys known to be logged are dropped from either. */
  ghost predicate LeftOf(records: seq<Record>, remaining: seq<Record>, gone: set<string>) {
    && Without(remaining, gone) == Without(records, gone)
    && (DistinctKeys(records) ==> remaining == Without(records, gone))
  }

  lemma {:induction false} LeftAfterFilter(records: seq<Record>, remaining: seq<Record>, gone: set<string>, seen: set<string>)
    requires LeftOf(records, remaining, gone)
    ensures LeftOf(records, Without(remaining, seen), gone + seen)
  {
    WithoutTwice(records, gone, seen);
    WithoutTwice(remaining, gone, seen);
    WithoutTwice(remaining, seen, gone + seen);
    assert seen + (gone + seen) == gone + seen;
    hide Without, DistinctKeys;
  }

  lemma {:induction false} LeftAfterSegment(records: seq<Record>, remaining: seq<Record>, gone: set<string>, n: nat)
    requires LeftOf(records, remaining, gone) && n <= |remaining|
    ensures LeftOf(records, remaining[n..], gone + KeysOf(remaining[..n]))
  {
    var keys := KeysOf(remaining[..n]);
    assert remaining == remaining[..n] + remaining[n..];
    WithoutAppend(remaining[..n], remaining[n..], gone + keys);
    WithoutOwnKeys(remaining[..n], gone + keys);
    WithoutTwice(remaining, gone, keys);
    WithoutTwice(records, gone, keys);
    if DistinctKeys(records) {
      WithoutDistinct(records, gone);
      WithoutFront(remaining, n);
    }
    hide Without, DistinctKeys, KeysOf;
  }

  /**
   The event log and object store as one ingestor sees them: only keys and its own segments
   matter here.  A quiet store has no other writers and does not fail.
   */
  class SegmentStore {
    const quiet: bool
    var keys: set<string>
    var segments: seq<seq<Record>>

    constructor (quiet: bool)
      ensures keys == {} && segments == [] && this.quiet == quiet
    {
      this.quiet := quiet;
      keys, segments := {}, [];
    }

    /** Other writers commit whatever they like between two of our steps. */
    method OthersCommit()
      modifies this`keys
      ensures old(keys) <= keys && (quiet ==> keys == old(keys))
    {
      var extra: set<string> := *;
      if !quiet {
        keys := keys + extra;
      }
    }

    /** `filter_duplicate_records`: a query that may fail. */
    method FilterDuplicates(records: seq<Record>) returns (remaining: Option<seq<Record>>)
      modifies this`keys
      ensures old(keys) <= keys
      ensures records == [] ==> remaining == Some([])
      ensures remaining.Some? ==> exists seen :: old(keys) <= seen <= keys && remaining.value == Without(records, seen)
      ensures quiet ==> keys == old(keys) && remaining == Some(Without(records, keys))
    {
      if records == [] {
        assert [] == Without(records, keys);
        return Some([]);
      }
      OthersCommit();
      var unreachable: bool := *;
      if unreachable && !quiet {
        return None;
      }
      remaining := Some(Without(records, keys));
      ghost var seen := keys;
      OthersCommit();
    }

    /** `persist_segment`: commits all keys or none; a failure may hit before or after the commit. */
    method PersistSegment(records: seq<Record>) returns (outcome: SegmentOutcome)
      modifies this
      ensures old(keys) <= keys
      ensures outcome.Written? ==>
        && outcome.size == |records| && segments == old(segments) + [records]
        && DistinctKeys(records) && KeysOf(records) <= keys && KeysOf(records) !! old(keys)
      ensures outcome.DuplicateConflict? ==>
        segments == old(segments) && ((exists r :: r in records && r.key in keys) || !DistinctKeys(records))
      ensures outcome.Failed? ==> segments == old(segments) || segments == old(segments) + [records]
      ensures quiet ==> outcome == if DistinctKeys(records) && KeysOf(records) !! old(keys) then Written(|records|) else DuplicateConflict
      ensures quiet ==> keys == if outcome.Written? then old(keys) + KeysOf(records) else old(keys)
    {
      OthersCommit();
      var refused: bool := *;
      if refused && !quiet {
        return Failed;
      }
      if !DistinctKeys(records) {
        return DuplicateConflict;
      }
      if exists i :: 0 <= i < |records| && records[i].key in keys {
        var i :| 0 <= i < |records| && records[i].key in keys;
        assert records[i] in records && records[i].key in KeysOf(records);
        return DuplicateConflict;
      }
      assert KeysOf(records) !! keys;
      keys := keys + KeysOf(records);
      segments := segments + [records];
      var acknowledged: bool := *;
      return if acknowledged || quiet then Written(|records|) else Failed;
    }

    /**
     `persist_partition_records`.  It terminates because a conflict leaves a logged key for the next
     filter to remove: segments repeat no key when the batch does not, or when they are single records.
     */
    method PersistPartitionRecords(records: seq<Record>, maxSpans: nat)
      returns (outcome: PersistOutcome, ghost gone: set<string>, ghost written: seq<seq<Record>>)
      requires DistinctKeys(records) || maxSpans <= 1
      modifies this
      ensures old(keys) <= keys && gone <= keys
      // what was written: bounded segments of the batch's records, each key once and new
      ensures old(segments) + written <= segments && |segments| <= |old(segments)| + |written| + 1
      ensures WrittenOnce(records, written, gone, old(keys), if maxSpans == 0 then 1 else maxSpans)
      // order: what was written and what is left are the batch's records in their order
      ensures outcome.Receipts? ==> KeepsOrder(Flatten(written), records)
      ensures outcome.Unwritten? ==> KeepsOrder(Flatten(written) + outcome.records, records)
      // success: every key is in the log
      ensures outcome.Receipts? ==> KeysOf(records) <= gone && segments == old(segments) + written
      ensures outcome.Receipts? ==> outcome.sizes == Sizes(written)
      // failure: the records not known to be in the log, in their order
      ensures outcome.Unwritten? ==> LeftOf(records, outcome.records, gone) && outcome.records != []
      ensures outcome.Unwritten? ==> forall r :: r in records && r.key !in keys ==> r in outcome.records
      ensures outcome.Unwritten? ==> multiset(outcome.records) <= multiset(records)
      // undisturbed: the rounds of the loop, to their end
      ensures quiet ==> outcome.Receipts? && RoundsReach(records, old(keys), if maxSpans == 0 then 1 else maxSpans, LoopState([], keys))
    {
      hide *;
      var remaining := records;
      var receipts: seq<nat> := [];
      gone, written := {}, [];
      ghost var conflict := false;
      var limit := if maxSpans == 0 then 1 else maxSpans;
      LoopStarts(records, keys, limit);
      NoRounds(records, keys, limit);
      while true
        invariant old(keys) <= keys && gone <= keys && segments == old(segments) + written && receipts == Sizes(written)
        invariant Doing(records, remaining, gone, written, old(keys), limit)
        invariant conflict ==> exists r :: r in remaining && r.key in keys
        invariant quiet ==> RoundsReach(records, old(keys), limit, LoopState(remaining, keys))
        decreases |remaining|, if conflict then 0 else 1
      {
        ghost var before, s := keys, LoopState(remaining, keys);
        var filtered := FilterDuplicates(remaining);
        if filtered.None? {
          LoopFails(records, remaining, gone, written, old(keys), limit);
          return Unwritten(remaining), gone, written;
        }
        ghost var seen := SeenBy(remaining, filtered.value, before, keys);
        LoopFiltered(records, remaining, gone, written, old(keys), limit, seen);
        remaining := filtered.value;
        gone := gone + seen;
        if remaining == [] {
          LoopDone(records, gone, written, old(keys), limit);
          if quiet {
            RoundEnds(s, limit);
            RoundsOn(records, old(keys), limit, s);
          }
          return Receipts(receipts), gone, written;
        }
        var n := if limit <= |remaining| then limit else |remaining|;
        var segment := remaining[..n];
        SegmentCut(records, remaining, gone, written, old(keys), limit, n);
        var result := PersistSegment(segment);
        if quiet {
          RoundCuts(s, limit, remaining, n);
          RoundsOn(records, old(keys), limit, s);
        }
        match result
        case Written(size) =>
          LoopWrites(records, remaining, gone, written, old(keys), limit, n);
          receipts := receipts + [size];
          written := written + [segment];
          gone := gone + KeysOf(segment);
          remaining := remaining[n..];
          conflict := false;
        case DuplicateConflict =>
          remaining := segment + remaining[n..];
          conflict := true;
        case Failed =>
          remaining := segment + remaining[n..];
          LoopFails(records, remaining, gone, written, old(keys), limit);
          return Unwritten(remaining), gone, written;
      }
    }
  }

  lemma {:induction false} WithoutKeepsOrder(records: seq<Record>, keys: set<string>)
    ensures KeepsOrder(Without(records, keys), records)
  {
    if records == [] {
      KeepsAll(records);
    } else {
      var first, others := records[0], records[1..];
      WithoutKeepsOrder(others, keys);
      WithoutCons(first, others, keys);
      assert records == [first] + others;
      hide *;
      KeepsBehind([first], Without(others, keys), others);
      KeepsWithout([first], others);
      if first.key in keys {
        assert [] + Without(others, keys) == Without(others, keys);
        KeepsTwice(Without(others, keys), others, [first] + others);
      }
    }
  }

  lemma {:induction false} OrderAfterFilter(records: seq<Record>, done: seq<Record>, remaining: seq<Record>, seen: set<string>)
    requires KeepsOrder(done + remaining, records)
    ensures KeepsOrder(done + Without(remaining, seen), records)
  {
    hide *;
    WithoutKeepsOrder(remaining, seen);
    KeepsBehind(done, Without(remaining, seen), remaining);
    KeepsTwice(done + Without(remaining, seen), done + remaining, records);
  }

  /** Nothing unlogged is missing from what is left. */
  lemma {:induction false} UnloggedLeft(records: seq<Record>, remaining: seq<Record>, gone: set<string>, keys: set<string>)
    requires LeftOf(records, remaining, gone) && gone <= keys
    ensures forall r :: r in records && r.key !in keys ==> r in remaining
  {
    WithoutMembers(records, gone);
    WithoutMembers(remaining, gone);
    hide Without;
  }

  /** Between two rounds: what is left, what was written, and that no segment will repeat a key. */
  ghost predicate Doing(records: seq<Record>, remaining: seq<Record>, gone: set<string>, written: seq<seq<Record>>, before: set<string>, limit: nat) {
    && limit > 0 && (DistinctKeys(remaining) || limit == 1)
    && LeftOf(records, remaining, gone) && multiset(remaining) <= multiset(records)
    && WrittenOnce(records, written, gone, before, limit)
    && KeepsOrder(Flatten(written) + remaining, records)
  }

  lemma {:induction false} LoopStarts(records: seq<Record>, before: set<string>, limit: nat)
    requires limit > 0 && (DistinctKeys(records) || limit == 1)
    ensures Doing(records, records, {}, [], before, limit) && Sizes([]) == []
  {
    WithoutShorter(records, {});
    assert Flatten<Record>([]) == [] && [] + records == records;
    KeepsAll(records);
  }

  lemma {:induction false} LoopFails(
    records: seq<Record>, remaining: seq<Record>, gone: set<string>, written: seq<seq<Record>>, before: set<string>, limit: nat)
    requires Doing(records, remaining, gone, written, before, limit)
    ensures LeftOf(records, remaining, gone) && multiset(remaining) <= multiset(records) && WrittenOnce(records, written, gone, before, limit)
    ensures KeepsOrder(Flatten(written) + remaining, records)
    ensures forall r :: r in records && r.key !in gone ==> r in remaining
  {
    hide LeftOf, WrittenOnce, KeepsOrder, Flatten;
    UnloggedLeft(records, remaining, gone, gone);
  }

  lemma {:induction false} LoopDone(records: seq<Record>, gone: set<string>, written: seq<seq<Record>>, before: set<string>, limit: nat)
    requires Doing(records, [], gone, written, before, limit)
    ensures KeysOf(records) <= gone && WrittenOnce(records, written, gone, before, limit)
    ensures KeepsOrder(Flatten(written), records)
  {
    AllGone(records, gone);
    assert Flatten(written) + [] == Flatten(written);
    hide WrittenOnce, KeepsOrder, Flatten;
  }

  /** A filter drops logged keys, and something if a key of what remained was logged. */
  lemma {:induction false} LoopFiltered(
    records: seq<Record>, remaining: seq<Record>, gone: set<string>, written: seq<seq<Record>>, before: set<string>, limit: nat, seen: set<string>)
    requires Doing(records, remaining, gone, written, before, limit)
    ensures Doing(records, Without(remaining, seen), gone + seen, written, before, limit)
    ensures |Without(remaining, seen)| <= |remaining|
    ensures (exists r :: r in remaining && r.key in seen) ==> |Without(remaining, seen)| < |remaining|
    ensures forall r :: r in Without(remaining, seen) ==> r.key !in seen
  {
    LeftAfterFilter(records, remaining, gone, seen);
    FilterFacts(remaining, seen);
    MoreGone(records, written, gone, gone + seen, before, limit);
    OrderAfterFilter(records, Flatten(written), remaining, seen);
    hide LeftOf, WrittenOnce, DistinctKeys, Without, KeepsOrder, Flatten;
  }

  /** The next segment repeats no key, and is what the rest follows. */
  lemma {:induction false} SegmentCut(
    records: seq<Record>, remaining: seq<Record>, gone: set<string>, written: seq<seq<Record>>, before: set<string>, limit: nat, n: nat)
    requires Doing(records, remaining, gone, written, before, limit) && n == if limit <= |remaining| then limit else |remaining|
    ensures DistinctKeys(remaining[..n]) && remaining == remaining[..n] + remaining[n..] && (remaining != [] ==> n > 0)
    ensures forall r :: r in remaining[..n] ==> r in remaining
  {
    FrontOf(remaining, n, limit);
    hide LeftOf, WrittenOnce, DistinctKeys;
  }

  lemma {:induction false} LoopWrites(
    records: seq<Record>, remaining: seq<Record>, gone: set<string>, written: seq<seq<Record>>, before: set<string>, limit: nat, n: nat)
    requires Doing(records, remaining, gone, written, before, limit) && n == if limit <= |remaining| then limit else |remaining|
    requires remaining != [] && KeysOf(remaining[..n]) !! before && forall r :: r in remaining ==> r.key !in gone
    ensures Doing(records, remaining[n..], gone + KeysOf(remaining[..n]), written + [remaining[..n]], before, limit)
    ensures Sizes(written + [remaining[..n]]) == Sizes(written) + [n]
  {
    FrontOf(remaining, n, limit);
    SubMembers(remaining, records);
    LeftAfterSegment(records, remaining, gone, n);
    SegmentWritten(records, written, gone, remaining[..n], before, limit);
    FlattenAppend(written, remaining[..n]);
    ThreeParts(Flatten(written), remaining[..n], remaining[n..]);
    hide LeftOf, WrittenOnce, DistinctKeys, KeysOf, Sizes, KeepsOrder, Flatten;
  }

  lemma {:induction false} SeenBy(remaining: seq<Record>, filtered: seq<Record>, before: set<string>, after: set<string>) returns (seen: set<string>)
    requires exists seen :: before <= seen <= after && filtered == Without(remaining, seen)
    ensures before <= seen <= after && filtered == Without(remaining, seen)
  {
    seen :| before <= seen <= after && filtered == Without(remaining, seen);
  }

  lemma {:induction false} FilterFacts(remaining: seq<Record>, seen: set<string>)
    ensures forall r :: r in Without(remaining, seen) ==> r in remaining && r.key !in seen
    ensures |Without(remaining, seen)| <= |remaining|
    ensures (exists r :: r in remaining && r.key in seen) ==> |Without(remaining, seen)| < |remaining|
    ensures DistinctKeys(remaining) ==> DistinctKeys(Without(remaining, seen))
    ensures multiset(Without(remaining, seen)) <= multiset(remaining)
  {
    WithoutMembers(remaining, seen);
    WithoutCounts(remaining, seen);
    WithoutShorter(remaining, seen);
    if DistinctKeys(remaining) {
      WithoutDistinct(remaining, seen);
    }
  }

  /** The segment cut from the front of what remains. */
  lemma {:induction false} FrontOf(remaining: seq<Record>, n: nat, limit: nat)
    requires limit > 0 && (DistinctKeys(remaining) || limit == 1) && n == if limit <= |remaining| then limit else |remaining|
    ensures DistinctKeys(remaining[..n]) && (DistinctKeys(remaining[n..]) || limit == 1)
    ensures remaining == remaining[..n] + remaining[n..]
    ensures forall r :: r in remaining[..n] || r in remaining[n..] ==> r in remaining
    ensures multiset(remaining[n..]) <= multiset(remaining)
  {
    assert remaining == remaining[..n] + remaining[n..];
  }

  lemma {:induction false} SubMembers(some: seq<Record>, all: seq<Record>)
    requires multiset(some) <= multiset(all)
    ensures forall r :: r in some ==> r in all
  {
    forall r | r in some
      ensures r in all
    {
      assert r in multiset(some) && r in multiset(all);
    }
  }

  /** What is dropped has a dropped key. */
  lemma {:induction false} WithoutCounts(records: seq<Record>, keys: set<string>)
    ensures forall r :: multiset(Without(records, keys))[r] == if r.key in keys then 0 else multiset(records)[r]
  {
    if records != [] {
      WithoutCounts(records[1..], keys);
      assert records == [records[0]] + records[1..];
    }
  }

  function Sizes(written: seq<seq<Record>>): seq<nat> {
    seq(|written|, i requires 0 <= i < |written| => |written[i]|)
  }

  /** The segments written so far: within the limit, of the batch's own records, no key twice or logged before. */
  ghost predicate WrittenOnce(records: seq<Record>, written: seq<seq<Record>>, gone: set<string>, before: set<string>, limit: nat) {
    && DistinctKeys(Flatten(written)) && KeysOf(Flatten(written)) !! before
    && KeysOf(Flatten(written)) <= gone
    && (forall r :: r in Flatten(written) ==> r in records)
    && (forall i :: 0 <= i < |written| ==> 0 < |written[i]| <= limit)
  }

  lemma {:induction false} MoreGone(records: seq<Record>, written: seq<seq<Record>>, gone: set<string>, more: set<string>, before: set<string>, limit: nat)
    requires gone <= more && WrittenOnce(records, written, gone, before, limit)
    ensures WrittenOnce(records, written, more, before, limit)
  {
  }

  lemma {:induction false} KeysJoin(a: seq<Record>, b: seq<Record>)
    ensures KeysOf(a + b) == KeysOf(a) + KeysOf(b)
  {
    forall k
      ensures k in KeysOf(a + b) <==> k in KeysOf(a) || k in KeysOf(b)
    {
      if k in KeysOf(a) {
        var i :| 0 <= i < |a| && a[i].key == k;
        assert (a + b)[i].key == k;
      }
      if k in KeysOf(b) {
        var i :| 0 <= i < |b| && b[i].key == k;
        assert (a + b)[|a| + i].key == k;
      }
    }
  }

  lemma {:induction false} DistinctJoin(a: seq<Record>, b: seq<Record>)
    requires DistinctKeys(a) && DistinctKeys(b) && KeysOf(a) !! KeysOf(b)
    ensures DistinctKeys(a + b)
  {
    forall i, j | 0 <= i < |a| && 0 <= j < |b|
      ensures a[i].key != b[j].key
    {
      assert a[i].key in KeysOf(a) && b[j].key in KeysOf(b);
    }
  }

  lemma {:induction false} SizesMore(written: seq<seq<Record>>, segment: seq<Record>)
    ensures Sizes(written + [segment]) == Sizes(written) + [|segment|]
  {
  }

  lemma {:induction false} SegmentWritten(records: seq<Record>, written: seq<seq<Record>>, gone: set<string>, segment: seq<Record>, before: set<string>, limit: nat)
    requires WrittenOnce(records, written, gone, before, limit)
    requires DistinctKeys(segment) && 0 < |segment| <= limit && KeysOf(segment) !! before
    requires forall r :: r in segment ==> r in records && r.key !in gone
    ensures Sizes(written + [segment]) == Sizes(written) + [|segment|]
    ensures WrittenOnce(records, written + [segment], gone + KeysOf(segment), before, limit)
  {
    SizesMore(written, segment);
    FlattenAppend(written, segment);
    assert KeysOf(segment) !! gone by {
      assert forall i :: 0 <= i < |segment| ==> segment[i] in segment;
    }
    hide DistinctKeys, KeysOf, Sizes, Flatten;
    KeysJoin(Flatten(written), segment);
    DistinctJoin(Flatten(written), segment);
  }

  lemma {:induction false} AllGone(records: seq<Record>, gone: set<string>)
    requires Without(records, gone) == []
    ensures KeysOf(records) <= gone
  {
    WithoutMembers(records, gone);
    forall i | 0 <= i < |records|
      ensures records[i].key in gone
    {
      assert records[i] in records;
    }
  }

  // ---- batches with a repeated key ----

  /** The loop undisturbed by failures and other writers: what remains, and the logged keys. */
  datatype LoopState = LoopState(remaining: seq<Record>, keys: set<string>)

  /** One round: filter, cut a segment, and commit it unless one of its keys stands in it twice. */
  function Round(s: LoopState, limit: nat): LoopState {
    var rest := Without(s.remaining, s.keys);
    var n := if limit <= |rest| then limit else |rest|;
    if DistinctKeys(rest[..n]) then LoopState(rest[n..], s.keys + KeysOf(rest[..n])) else LoopState(rest, s.keys)
  }

  function Rounds(s: LoopState, limit: nat, n: nat): LoopState
    decreases n
  {
    if n == 0 then s else Rounds(Round(s, limit), limit, n - 1)
  }

  /** The loop, undisturbed, comes to this state. */
  ghost predicate RoundsReach(records: seq<Record>, keys: set<string>, limit: nat, s: LoopState) {
    exists n: nat :: Rounds(LoopState(records, keys), limit, n) == s
  }

  lemma {:induction false} NoRounds(records: seq<Record>, keys: set<string>, limit: nat)
    ensures RoundsReach(records, keys, limit, LoopState(records, keys))
  {
    assert Rounds(LoopState(records, keys), limit, 0) == LoopState(records, keys);
  }

  lemma {:induction false} RoundsMore(s: LoopState, limit: nat, n: nat)
    ensures Rounds(s, limit, n + 1) == Round(Rounds(s, limit, n), limit)
    decreases n
  {
    if n > 0 {
      RoundsMore(Round(s, limit), limit, n - 1);
    }
  }

  lemma {:induction false} RoundsOn(records: seq<Record>, keys: set<string>, limit: nat, s: LoopState)
    requires RoundsReach(records, keys, limit, s)
    ensures RoundsReach(records, keys, limit, Round(s, limit))
  {
    hide Round;
    var n: nat :| Rounds(LoopState(records, keys), limit, n) == s;
    RoundsMore(LoopState(records, keys), limit, n);
  }

  lemma {:induction false} RoundEnds(s: LoopState, limit: nat)
    requires Without(s.remaining, s.keys) == []
    ensures Round(s, limit) == LoopState([], s.keys)
  {
    assert KeysOf([]) == {};
  }

  lemma {:induction false} RoundCuts(s: LoopState, limit: nat, rest: seq<Record>, n: nat)
    requires rest == Without(s.remaining, s.keys) && n == if limit <= |rest| then limit else |rest|
    ensures Round(s, limit) == if DistinctKeys(rest[..n]) then LoopState(rest[n..], s.keys + KeysOf(rest[..n])) else LoopState(rest, s.keys)
    ensures KeysOf(rest[..n]) !! s.keys
  {
    WithoutMembers(s.remaining, s.keys);
    assert forall i :: 0 <= i < n ==> rest[..n][i] in rest;
  }

  ghost predicate Finishes(records: seq<Record>, keys: set<string>, limit: nat) {
    exists n: nat :: Rounds(LoopState(records, keys), limit, n).remaining == []
  }

  lemma {:induction false} RoundShrinks(s: LoopState, limit: nat)
    requires limit > 0 && (DistinctKeys(s.remaining) || limit == 1)
    ensures s.remaining == [] ==> Round(s, limit).remaining == []
    ensures s.remaining != [] ==> |Round(s, limit).remaining| < |s.remaining|
    ensures DistinctKeys(Round(s, limit).remaining) || limit == 1
  {
    WithoutShorter(s.remaining, s.keys);
    if DistinctKeys(s.remaining) {
      WithoutDistinct(s.remaining, s.keys);
    }
    hide Without, KeysOf;
  }

  lemma {:induction false} RoundsEnd(s: LoopState, limit: nat, n: nat)
    requires limit > 0 && (DistinctKeys(s.remaining) || limit == 1) && |s.remaining| <= n
    ensures Rounds(s, limit, n).remaining == []
    decreases n
  {
    hide Round, DistinctKeys;
    if n > 0 {
      RoundShrinks(s, limit);
      RoundsEnd(Round(s, limit), limit, n - 1);
    }
  }

  /** When everything but one repeated key is logged, a round changes nothing any more. */
  lemma {:induction false} RoundStuck(s: LoopState, limit: nat)
    requires limit >= 2 && |s.remaining| >= 2 && s.remaining[0].key == s.remaining[1].key
    requires forall r :: r in s.remaining ==> r.key !in s.keys
    ensures Round(s, limit) == s
  {
    WithoutShorter(s.remaining, s.keys);
    var n := if limit <= |s.remaining| then limit else |s.remaining|;
    assert s.remaining[..n][0].key == s.remaining[..n][1].key;
  }

  lemma {:induction false} RoundsStuck(s: LoopState, limit: nat, n: nat)
    requires limit >= 2 && |s.remaining| >= 2 && s.remaining[0].key == s.remaining[1].key
    requires forall r :: r in s.remaining ==> r.key !in s.keys
    ensures Rounds(s, limit, n) == s
    decreases n
  {
    if n > 0 {
      RoundStuck(s, limit);
      RoundsStuck(s, limit, n - 1);
    }
  }

  /** The records with one key, when all others are logged. */
  lemma {:induction false} OthersLogged(records: seq<Record>, key: string, keys: set<string>)
    requires forall r :: r in records ==> (r.key in keys <==> r.key != key)
    ensures forall r :: r in Without(records, keys) ==> r.key == key && r.key !in keys
  {
    WithoutMembers(records, keys);
  }

  lemma {:induction false} AtLeastTwo(records: seq<Record>, keys: set<string>, i: nat, j: nat)
    requires i < j < |records| && records[i].key !in keys && records[j].key !in keys
    ensures |Without(records, keys)| >= 2
  {
    var rest := records[1..];
    if i == 0 {
      WithoutMembers(rest, keys);
      assert rest[j - 1] in rest;
      assert rest[j - 1] in Without(rest, keys);
    } else {
      AtLeastTwo(rest, keys, i - 1, j - 1);
    }
  }

  lemma {:induction false} RepeatedKeyLoops(records: seq<Record>, limit: nat, i: nat, j: nat) returns (keys: set<string>)
    requires i < j < |records| && records[i].key == records[j].key && limit >= 2
    ensures !Finishes(records, keys, limit)
  {
    var key := records[i].key;
    keys := set r | r in records && r.key != key :: r.key;
    var rest := Without(records, keys);
    AtLeastTwo(records, keys, i, j);
    OthersLogged(records, key, keys);
    hide Round, Without, Rounds;
    FirstRoundStuck(records, keys, limit, key);
    forall n: nat
      ensures Rounds(LoopState(records, keys), limit, n).remaining != []
    {
      if n > 0 {
        RoundsFirst(LoopState(records, keys), limit, n);
        RoundsStuck(LoopState(rest, keys), limit, n - 1);
      } else {
        NoRound(LoopState(records, keys), limit);
      }
    }
  }

  lemma {:induction false} RoundsFirst(s: LoopState, limit: nat, n: nat)
    requires n > 0
    ensures Rounds(s, limit, n) == Rounds(Round(s, limit), limit, n - 1)
  {
  }

  lemma {:induction false} NoRound(s: LoopState, limit: nat)
    ensures Rounds(s, limit, 0) == s
  {
  }

  lemma {:induction false} FirstRoundStuck(records: seq<Record>, keys: set<string>, limit: nat, key: string)
    requires limit >= 2 && |Without(records, keys)| >= 2 && forall r :: r in Without(records, keys) ==> r.key == key
    ensures Round(LoopState(records, keys), limit) == LoopState(Without(records, keys), keys)
    ensures Without(records, keys)[0].key == Without(records, keys)[1].key
  {
    var rest := Without(records, keys);
    hide Without;
    var m := if limit <= |rest| then limit else |rest|;
    assert rest[0] in rest && rest[1] in rest;
    assert rest[..m][0].key == rest[..m][1].key;
  }

  /**
   Undisturbed, the loop ends for every content of the log if and only if the batch repeats
   no key or segments hold a single record.
   */
  lemma {:induction false} EndsIffDistinct(records: seq<Record>, limit: nat)
    requires limit > 0
    ensures (forall keys :: Finishes(records, keys, limit)) <==> DistinctKeys(records) || limit == 1
  {
    if DistinctKeys(records) || limit == 1 {
      forall keys
        ensures Finishes(records, keys, limit)
      {
        RoundsEnd(LoopState(records, keys), limit, |records|);
      }
    } else {
      var i, j :| 0 <= i < j < |records| && records[i].key == records[j].key;
      var keys := RepeatedKeyLoops(records, limit, i, j);
    }
  }
}
