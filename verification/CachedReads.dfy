/**
 Reading through the cache: the search's coalesced reads go to the store behind the object
 cache, and get from it what they would get from the store itself
 (src/query/search.rs, crates/kevindb-server/src/cache.rs).
 */
module CachedReads {
  import opened Wrappers
  import opened Bytes
  import opened ObjectStore
  import opened RangeCoalescing
  import opened ObjectCache

  lemma {:induction false} NonEmptyNeverSlips(objects: map<Path, ByteString>, path: Path, ranges: seq<Range>)
    requires NonEmpty(ranges)
    ensures forall i :: 0 <= i < |ranges| ==> !Slips(objects, path, RequestFor(ranges[i]))
  {
  }

  /** `read_ranges` on the cached store: for a current object and coalesced ranges that hold bytes, nothing shows of the cache. */
  method ReadThroughCache(store: CachedObjectStore, path: Path, ranges: seq<Range>) returns (result: Result<seq<ByteString>, ReadError>)
    requires store.Valid() && path in store.objects && path !in store.stale && WellFormed(ranges)
    modifies store`cache, store`keysByPath
    ensures store.Valid()
    ensures NonEmpty(CoalescedOf(ranges)) ==> PiecesRead(store.objects[path], ranges, CoalescedOf(ranges), result)
  {
    ghost var content := store.objects[path];
    if ranges == [] {
      NoRanges(content);
      return Ok([]);
    }
    hide CoalescedOf, PiecesRead, Coalesces, CacheInv, ServedAll, Slips, RequestFor, NonEmpty;
    var coalesced, plans := CoalesceRanges(ranges);
    var answer := store.GetRanges(path, coalesced);
    if NonEmpty(coalesced) {
      NonEmptyNeverSlips(store.objects, path, coalesced);
      CoalescedSome(ranges, coalesced, plans);
    }
    result := CutPieces(content, ranges, coalesced, plans, if answer.Ok? then Some(answer.value) else None);
  }

  lemma {:induction false} CoalescedSome(ranges: seq<Range>, coalesced: seq<Range>, plans: seq<Plan>)
    requires Coalesces(ranges, coalesced, plans) && ranges != []
    ensures coalesced != []
  {
    var order := OrderOf(ranges, coalesced, plans);
    EveryIndexPlanned(ranges, coalesced, plans, order, 0);
    var k :| 0 <= k < |plans| && plans[k].originalIndex == 0;
    assert Placed(ranges, coalesced, plans[k]);
  }
}
