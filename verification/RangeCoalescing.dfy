/**
 Reading many byte ranges of one object through fewer, coalesced ranges: the ranges are sorted, merged
 while the gap and the total stay small, fetched, and cut apart again.
 */
module RangeCoalescing {
  import opened Wrappers
  import opened Bytes
  import opened Widths
  import opened ObjectStore
  import Ordering

  const GAP_BYTES: nat := 1024 * 1024
  const MAX_BYTES: nat := 16 * 1024 * 1024
  const U64_MAX: nat := 0xFFFF_FFFF_FFFF_FFFF

  datatype Plan = Plan(originalIndex: nat, coalescedIndex: nat, start: nat, end: nat)

  datatype Indexed = Indexed(index: nat, range: Range)

  function Max(a: nat, b: nat): nat {
    if a < b then b else a
  }

  ghost predicate WellFormed(ranges: seq<Range>) {
    forall i :: 0 <= i < |ranges| ==> ranges[i].start <= ranges[i].end <= U64_MAX
  }

  predicate RangeLeq(a: Indexed, b: Indexed) {
    a.range.start < b.range.start || (a.range.start == b.range.start && a.range.end <= b.range.end)
  }

  lemma {:induction false} RangeLeqIsTotal()
    ensures Ordering.TotalPreorder(RangeLeq)
  {
  }

  function WithIndex(ranges: seq<Range>): seq<Indexed> {
    seq(|ranges|, i requires 0 <= i < |ranges| => Indexed(i, ranges[i]))
  }

  /** The plan sends one original range to a place inside one coalesced range. */
  ghost predicate Placed(ranges: seq<Range>, coalesced: seq<Range>, plan: Plan) {
    && plan.originalIndex < |ranges| && plan.coalescedIndex < |coalesced|
    && plan.start == ranges[plan.originalIndex].start && plan.end == ranges[plan.originalIndex].end
    && coalesced[plan.coalescedIndex].start <= plan.start <= plan.end <= coalesced[plan.coalescedIndex].end
  }

  /** No coalesced range grows past the limit unless it is a single range that was longer already. */
  ghost predicate SmallEnough(ranges: seq<Range>, c: Range) {
    && c.start <= c.end <= U64_MAX
    && (c.end - c.start <= MAX_BYTES || c in ranges)
  }

  ghost predicate AllPlaced(ranges: seq<Range>, coalesced: seq<Range>, plans: seq<Plan>) {
    forall k :: 0 <= k < |plans| ==> Placed(ranges, coalesced, plans[k])
  }

  ghost predicate AllBounded(ranges: seq<Range>, coalesced: seq<Range>) {
    forall c :: 0 <= c < |coalesced| ==> SmallEnough(ranges, coalesced[c])
  }

  ghost predicate EndsSomewhere(plans: seq<Plan>, c: nat, end: nat) {
    exists k :: 0 <= k < |plans| && plans[k].coalescedIndex == c && plans[k].end == end
  }

  /** Coalesced ranges reach no further than the ranges they serve. */
  ghost predicate AllReached(coalesced: seq<Range>, plans: seq<Plan>) {
    forall c :: 0 <= c < |coalesced| ==> EndsSomewhere(plans, c, coalesced[c].end)
  }

  ghost predicate InOrder(plans: seq<Plan>, order: seq<Indexed>) {
    |plans| == |order| && forall k :: 0 <= k < |plans| ==> plans[k].originalIndex == order[k].index
  }

  ghost predicate PlanFor(ranges: seq<Range>, coalesced: seq<Range>, plans: seq<Plan>, order: seq<Indexed>) {
    AllPlaced(ranges, coalesced, plans) && AllBounded(ranges, coalesced) && AllReached(coalesced, plans) && InOrder(plans, order)
  }

  lemma {:induction false} EndsAfterPush(plans: seq<Plan>, plan: Plan, c: nat, end: nat)
    ensures EndsSomewhere(plans, c, end) || (c == plan.coalescedIndex && end == plan.end) ==> EndsSomewhere(plans + [plan], c, end)
  {
    var after := plans + [plan];
    assert after[|plans|] == plan;
    if EndsSomewhere(plans, c, end) {
      var k :| 0 <= k < |plans| && plans[k].coalescedIndex == c && plans[k].end == end;
      assert after[k] == plans[k];
    }
  }

  /** Placing one more range after the coalesced list has only grown. */
  lemma {:induction false} PlaceOneMore(ranges: seq<Range>, before: seq<Range>, after: seq<Range>, plans: seq<Plan>, plan: Plan)
    requires AllPlaced(ranges, before, plans) && Placed(ranges, after, plan)
    requires |before| <= |after|
    requires forall c :: 0 <= c < |before| ==> after[c].start == before[c].start && before[c].end <= after[c].end
    ensures AllPlaced(ranges, after, plans + [plan])
  {
    forall k | 0 <= k < |plans|
      ensures Placed(ranges, after, plans[k])
    {
      assert Placed(ranges, before, plans[k]);
    }
  }

  lemma {:induction false} ReachOneMore(before: seq<Range>, after: seq<Range>, plans: seq<Plan>, plan: Plan)
    requires AllReached(before, plans)
    requires forall c :: 0 <= c < |after| ==>
      (c < |before| && after[c].end == before[c].end) || (c == plan.coalescedIndex && after[c].end == plan.end)
    ensures AllReached(after, plans + [plan])
  {
    forall c | 0 <= c < |after|
      ensures EndsSomewhere(plans + [plan], c, after[c].end)
    {
      if c < |before| {
        assert EndsSomewhere(plans, c, before[c].end);
      }
      EndsAfterPush(plans, plan, c, after[c].end);
    }
  }

  lemma {:induction false} NothingPlanned(ranges: seq<Range>, sorted: seq<Indexed>)
    ensures PlanFor(ranges, [], [], sorted[..0]) && Merged(sorted[..0]) == ([], [])
  {
  }

  lemma {:induction false} SortedItem(ranges: seq<Range>, sorted: seq<Indexed>, i: nat)
    requires multiset(sorted) == multiset(WithIndex(ranges)) && Ordering.Sorted(sorted, RangeLeq) && i < |sorted|
    ensures sorted[i].index < |ranges| && sorted[i].range == ranges[sorted[i].index]
    ensures i > 0 ==> sorted[i - 1].range.start <= sorted[i].range.start
  {
    assert sorted[i] in multiset(WithIndex(ranges));
    assert i > 0 ==> RangeLeq(sorted[i - 1], sorted[i]);
  }

  /** The merge test: a small gap after the last coalesced range and a small total. */
  predicate Joins(coalesced: seq<Range>, range: Range) {
    && coalesced != []
    && range.start <= SaturatingAdd(coalesced[|coalesced| - 1].end, GAP_BYTES, U64_MAX)
    && SaturatingSub(range.end, coalesced[|coalesced| - 1].start) <= MAX_BYTES
  }

  function Widened(coalesced: seq<Range>, range: Range): seq<Range>
    requires coalesced != []
  {
    var last := coalesced[|coalesced| - 1];
    coalesced[..|coalesced| - 1] + [Range(last.start, Max(last.end, range.end))]
  }

  /** The merging loop, range by range. */
  function Merged(sorted: seq<Indexed>): (seq<Range>, seq<Plan>) {
    if sorted == [] then ([], [])
    else
      var n := |sorted| - 1;
      var (coalesced, plans) := Merged(sorted[..n]);
      var range := sorted[n].range;
      var after := if Joins(coalesced, range) then Widened(coalesced, range) else coalesced + [range];
      (after, plans + [Plan(sorted[n].index, |after| - 1, range.start, range.end)])
  }

  function Sorted(ranges: seq<Range>): seq<Indexed> {
    Ordering.SortBy(WithIndex(ranges), RangeLeq)
  }

  /** The coalesced ranges of a list of ranges. */
  function CoalescedOf(ranges: seq<Range>): seq<Range> {
    Merged(Sorted(ranges)).0
  }

  lemma {:induction false} MergedMore(front: seq<Indexed>, item: Indexed)
    ensures var (coalesced, plans) := Merged(front);
            var after := if Joins(coalesced, item.range) then Widened(coalesced, item.range) else coalesced + [item.range];
            && (Joins(coalesced, item.range) ==> coalesced != []) && after != []
            && Merged(front + [item]) == (after, plans + [Plan(item.index, |after| - 1, item.range.start, item.range.end)])
  {
    assert (front + [item])[..|front|] == front;
  }

  /** One more range, no earlier in order than the last coalesced one. */
  lemma {:induction false} MergedStep(ranges: seq<Range>, front: seq<Indexed>, item: Indexed)
    requires WellFormed(ranges) && item.index < |ranges| && item.range == ranges[item.index]
    requires PlanFor(ranges, Merged(front).0, Merged(front).1, front) && LastStarts(Merged(front).0, item.range.start)
    ensures PlanFor(ranges, Merged(front + [item]).0, Merged(front + [item]).1, front + [item])
    ensures LastStarts(Merged(front + [item]).0, item.range.start)
  {
    hide WellFormed, PlanFor, Merged, Joins, Widened;
    MergedMore(front, item);
    RangeStep(ranges, Merged(front).0, Merged(front).1, front, item.index);
  }

  predicate LastStarts(coalesced: seq<Range>, bound: nat) {
    coalesced != [] ==> coalesced[|coalesced| - 1].start <= bound
  }

  /** The ranges with their indexes, in order. */
  ghost predicate Ordered(ranges: seq<Range>, sorted: seq<Indexed>) {
    multiset(sorted) == multiset(WithIndex(ranges)) && Ordering.Sorted(sorted, RangeLeq)
  }

  lemma {:induction false} OrderedItem(ranges: seq<Range>, sorted: seq<Indexed>, i: nat)
    requires Ordered(ranges, sorted) && i < |sorted|
    ensures sorted[i].index < |ranges| && sorted[i].range == ranges[sorted[i].index]
    ensures i > 0 ==> sorted[i - 1].range.start <= sorted[i].range.start
    ensures sorted[..i + 1] == sorted[..i] + [sorted[i]]
  {
    SortedItem(ranges, sorted, i);
  }

  lemma {:induction false} LaterStart(coalesced: seq<Range>, bound: nat, later: nat)
    requires LastStarts(coalesced, bound) && bound <= later
    ensures LastStarts(coalesced, later)
  {
  }

  function StartBefore(sorted: seq<Indexed>, i: nat): nat
    requires i <= |sorted|
  {
    if i > 0 then sorted[i - 1].range.start else 0
  }

  /** What the loop has planned so far. */
  lemma {:induction false} MergedPlan(ranges: seq<Range>, sorted: seq<Indexed>, i: nat)
    requires WellFormed(ranges) && Ordered(ranges, sorted) && i <= |sorted|
    ensures PlanFor(ranges, Merged(sorted[..i]).0, Merged(sorted[..i]).1, sorted[..i])
    ensures LastStarts(Merged(sorted[..i]).0, StartBefore(sorted, i))
  {
    if i == 0 {
      NothingPlanned(ranges, sorted);
    } else {
      OrderedItem(ranges, sorted, i - 1);
      assert StartBefore(sorted, i - 1) <= sorted[i - 1].range.start == StartBefore(sorted, i);
      hide *;
      MergedPlan(ranges, sorted, i - 1);
      LaterStart(Merged(sorted[..i - 1]).0, StartBefore(sorted, i - 1), sorted[i - 1].range.start);
      MergedStep(ranges, sorted[..i - 1], sorted[i - 1]);
    }
  }

  /** `coalesce_ranges`. */
  method CoalesceRanges(ranges: seq<Range>) returns (coalesced: seq<Range>, plans: seq<Plan>)
    requires WellFormed(ranges)
    ensures Coalesces(ranges, coalesced, plans) && coalesced == CoalescedOf(ranges) && WellMerged(ranges, coalesced)
  {
    hide *;
    CoalescedWell(ranges);
    var sorted := Ordering.SortBy(WithIndex(ranges), RangeLeq);
    SortedIs(ranges);
    coalesced, plans := [], [];
    NothingPlanned(ranges, sorted);
    for i := 0 to |sorted|
      invariant (coalesced, plans) == Merged(sorted[..i])
    {
      MergedMore(sorted[..i], sorted[i]);
      assert sorted[..i + 1] == sorted[..i] + [sorted[i]];
      var Indexed(originalIndex, range) := sorted[i];
      coalesced := if Joins(coalesced, range) then Widened(coalesced, range) else coalesced + [range];
      plans := plans + [Plan(originalIndex, |coalesced| - 1, range.start, range.end)];
    }
    assert sorted[..|sorted|] == sorted;
    SortedOrdered(ranges);
    MergedPlan(ranges, sorted, |sorted|);
    NowCoalesced(ranges, coalesced, plans, sorted);
  }

  lemma {:induction false} PlanOf(ranges: seq<Range>) returns (plans: seq<Plan>)
    requires WellFormed(ranges)
    ensures PlanFor(ranges, CoalescedOf(ranges), plans, Sorted(ranges))
  {
    hide *;
    SortedIs(ranges);
    SortedOrdered(ranges);
    plans := Merged(Sorted(ranges)).1;
    assert Sorted(ranges)[..|Sorted(ranges)|] == Sorted(ranges);
    MergedPlan(ranges, Sorted(ranges), |Sorted(ranges)|);
  }

  lemma {:induction false} SortedOrdered(ranges: seq<Range>)
    ensures Ordered(ranges, Sorted(ranges)) && multiset(Sorted(ranges)) == multiset(WithIndex(ranges))
  {
    RangeLeqIsTotal();
    Ordering.SortByCorrect(WithIndex(ranges), RangeLeq);
  }

  lemma {:induction false} SortedIs(ranges: seq<Range>)
    ensures Sorted(ranges) == Ordering.SortBy(WithIndex(ranges), RangeLeq) && CoalescedOf(ranges) == Merged(Sorted(ranges)).0
  {
  }

  /** Every range is planned once, placed inside a coalesced range, and every coalesced range is bounded. */
  ghost predicate Coalesces(ranges: seq<Range>, coalesced: seq<Range>, plans: seq<Plan>) {
    exists order :: multiset(order) == multiset(WithIndex(ranges)) && PlanFor(ranges, coalesced, plans, order)
  }

  lemma {:induction false} NowCoalesced(ranges: seq<Range>, coalesced: seq<Range>, plans: seq<Plan>, order: seq<Indexed>)
    requires multiset(order) == multiset(WithIndex(ranges)) && PlanFor(ranges, coalesced, plans, order)
    ensures Coalesces(ranges, coalesced, plans)
  {
  }

  lemma {:induction false} OrderOf(ranges: seq<Range>, coalesced: seq<Range>, plans: seq<Plan>) returns (order: seq<Indexed>)
    requires Coalesces(ranges, coalesced, plans)
    ensures multiset(order) == multiset(WithIndex(ranges)) && PlanFor(ranges, coalesced, plans, order)
  {
    order :| multiset(order) == multiset(WithIndex(ranges)) && PlanFor(ranges, coalesced, plans, order);
  }

  lemma {:induction false} RangeStep(ranges: seq<Range>, coalesced: seq<Range>, plans: seq<Plan>, order: seq<Indexed>, index: nat)
    requires WellFormed(ranges) && PlanFor(ranges, coalesced, plans, order) && index < |ranges|
    requires coalesced != [] ==> coalesced[|coalesced| - 1].start <= ranges[index].start
    ensures var range := ranges[index];
      var after := if Joins(coalesced, range) then Widened(coalesced, range) else coalesced + [range];
      && (Joins(coalesced, range) ==> coalesced != [])
      && |after| > 0 && after[|after| - 1].start <= range.start
      && PlanFor(ranges, after, plans + [Plan(index, |after| - 1, range.start, range.end)], order + [Indexed(index, range)])
  {
    hide PlanFor;
    if Joins(coalesced, ranges[index]) {
      ExtendLast(ranges, coalesced, plans, order, index);
    } else {
      StartNew(ranges, coalesced, plans, order, index);
    }
  }

  lemma {:induction false} ExtendLast(ranges: seq<Range>, coalesced: seq<Range>, plans: seq<Plan>, order: seq<Indexed>, index: nat)
    requires WellFormed(ranges) && PlanFor(ranges, coalesced, plans, order) && index < |ranges| && coalesced != []
    requires coalesced[|coalesced| - 1].start <= ranges[index].start
    requires SaturatingSub(ranges[index].end, coalesced[|coalesced| - 1].start) <= MAX_BYTES
    ensures var n := |coalesced| - 1;
      var range := ranges[index];
      PlanFor(ranges, Widened(coalesced, range), plans + [Plan(index, n, range.start, range.end)], order + [Indexed(index, range)])
  {
    hide AllPlaced, AllReached, EndsSomewhere;
    var n := |coalesced| - 1;
    var range := ranges[index];
    var plan := Plan(index, n, range.start, range.end);
    var after := Widened(coalesced, range);
    assert SmallEnough(ranges, coalesced[n]);
    PlaceOneMore(ranges, coalesced, after, plans, plan);
    ReachOneMore(coalesced, after, plans, plan);
  }

  lemma {:induction false} StartNew(ranges: seq<Range>, coalesced: seq<Range>, plans: seq<Plan>, order: seq<Indexed>, index: nat)
    requires WellFormed(ranges) && PlanFor(ranges, coalesced, plans, order) && index < |ranges|
    ensures var range := ranges[index];
      PlanFor(ranges, coalesced + [range], plans + [Plan(index, |coalesced|, range.start, range.end)], order + [Indexed(index, range)])
  {
    hide AllPlaced, AllReached, EndsSomewhere;
    var range := ranges[index];
    var plan := Plan(index, |coalesced|, range.start, range.end);
    PlaceOneMore(ranges, coalesced, coalesced + [range], plans, plan);
    ReachOneMore(coalesced, coalesced + [range], plans, plan);
  }

  ghost predicate InObject(ranges: seq<Range>, blob: seq<Byte>) {
    forall i :: 0 <= i < |ranges| ==> ranges[i].start <= ranges[i].end <= |blob|
  }

  /** The bytes of ranges inside the object. */
  function BytesOf(blob: seq<Byte>, ranges: seq<Range>): seq<seq<Byte>>
    requires InObject(ranges, blob)
  {
    seq(|ranges|, i requires 0 <= i < |ranges| => blob[ranges[i].start..ranges[i].end])
  }

  /** Ranges the store serves whole: inside the object and not empty. */
  ghost predicate AllServed(blob: seq<Byte>, ranges: seq<Range>) {
    forall i :: 0 <= i < |ranges| ==> ranges[i].start < ranges[i].end <= |blob|
  }

  lemma {:induction false} ServedWhole(blob: seq<Byte>, ranges: seq<Range>)
    requires AllServed(blob, ranges)
    ensures InObject(ranges, blob) && ServedAll(blob, ranges) == Some(BytesOf(blob, ranges))
  {
    ServedEach(blob, ranges);
    hide ServedAll;
    forall i | 0 <= i < |ranges|
      ensures ServedBytes(blob, ranges[i]) == Some(BytesOf(blob, ranges)[i])
    {
    }
    assert ServedAll(blob, ranges).value == BytesOf(blob, ranges);
  }

  lemma {:induction false} ServedHaveStart(blob: seq<Byte>, ranges: seq<Range>, c: nat)
    requires ServedAll(blob, ranges).Some? && c < |ranges|
    ensures |ServedAll(blob, ranges).value| == |ranges| && ranges[c].start < ranges[c].end && ranges[c].start < |blob|
    ensures |ServedAll(blob, ranges).value[c]| == (if ranges[c].end <= |blob| then ranges[c].end else |blob|) - ranges[c].start
  {
    ServedEach(blob, ranges);
    hide ServedAll;
    assert ServedBytes(blob, ranges[c]).Some?;
  }

  /** Ranges that are served whole once coalesced lie in the object themselves. */
  lemma {:induction false} OriginalsInObject(ranges: seq<Range>, coalesced: seq<Range>, plans: seq<Plan>, order: seq<Indexed>, blob: seq<Byte>)
    requires multiset(order) == multiset(WithIndex(ranges)) && PlanFor(ranges, coalesced, plans, order) && AllServed(blob, coalesced)
    ensures InObject(ranges, blob)
  {
    hide WithIndex;
    forall i | 0 <= i < |ranges|
      ensures ranges[i].start <= ranges[i].end <= |blob|
    {
      EveryIndexPlanned(ranges, coalesced, plans, order, i);
      var k :| 0 <= k < |plans| && plans[k].originalIndex == i;
      assert Placed(ranges, coalesced, plans[k]);
    }
  }

  ghost predicate NonEmpty(ranges: seq<Range>) {
    forall i :: 0 <= i < |ranges| ==> ranges[i].start < ranges[i].end
  }

  /** Non-empty ranges coalesce to non-empty ones. */
  lemma {:induction false} MergedNonEmpty(sorted: seq<Indexed>)
    requires forall i :: 0 <= i < |sorted| ==> sorted[i].range.start < sorted[i].range.end
    ensures NonEmpty(Merged(sorted).0)
  {
    if sorted != [] {
      MergedNonEmpty(sorted[..|sorted| - 1]);
    }
  }

  lemma {:induction false} SortedMembers(ranges: seq<Range>, i: nat)
    requires i < |Sorted(ranges)|
    ensures Sorted(ranges)[i].range in ranges
  {
    SortedOrdered(ranges);
    SortedItem(ranges, Sorted(ranges), i);
  }

  /** Ranges in the object are read if none of them is empty. */
  lemma {:induction false} NonEmptyServed(ranges: seq<Range>, coalesced: seq<Range>, plans: seq<Plan>, order: seq<Indexed>, blob: seq<Byte>)
    requires PlanFor(ranges, coalesced, plans, order) && coalesced == CoalescedOf(ranges)
    requires InObject(ranges, blob) && NonEmpty(ranges)
    ensures AllServed(blob, coalesced)
  {
    CoalescedInObject(ranges, coalesced, plans, order, blob);
    forall i | 0 <= i < |Sorted(ranges)|
      ensures Sorted(ranges)[i].range.start < Sorted(ranges)[i].range.end
    {
      SortedMembers(ranges, i);
    }
    MergedNonEmpty(Sorted(ranges));
  }

  lemma {:induction false} NonEmptyRead(ranges: seq<Range>, blob: seq<Byte>)
    requires WellFormed(ranges) && InObject(ranges, blob) && NonEmpty(ranges)
    ensures AllServed(blob, CoalescedOf(ranges))
  {
    var plans := PlanOf(ranges);
    hide *;
    NonEmptyServed(ranges, CoalescedOf(ranges), plans, Sorted(ranges), blob);
  }

  lemma {:induction false} CoalescedInObject(ranges: seq<Range>, coalesced: seq<Range>, plans: seq<Plan>, order: seq<Indexed>, blob: seq<Byte>)
    requires PlanFor(ranges, coalesced, plans, order) && InObject(ranges, blob)
    ensures InObject(coalesced, blob)
  {
    forall c | 0 <= c < |coalesced|
      ensures coalesced[c].start <= coalesced[c].end <= |blob|
    {
      assert SmallEnough(ranges, coalesced[c]);
      assert EndsSomewhere(plans, c, coalesced[c].end);
      var k :| 0 <= k < |plans| && plans[k].coalescedIndex == c && plans[k].end == coalesced[c].end;
      assert Placed(ranges, coalesced, plans[k]);
    }
  }

  /** The piece of a fetched parent that a plan asks for; missing parents and overlong slices are errors. */
  function CutPiece(parents: seq<seq<Byte>>, coalesced: seq<Range>, plan: Plan): Option<seq<Byte>> {
    if plan.coalescedIndex < |parents| && plan.coalescedIndex < |coalesced| then
      var start := SaturatingSub(plan.start, coalesced[plan.coalescedIndex].start);
      var end := start + SaturatingSub(plan.end, plan.start);
      if end <= |parents[plan.coalescedIndex]| then Some(parents[plan.coalescedIndex][start..end]) else None
    else None
  }

  /** Cutting a plan's piece out of its fetched parent yields the original bytes. */
  lemma {:induction false} PieceIsOriginal(ranges: seq<Range>, coalesced: seq<Range>, plans: seq<Plan>, order: seq<Indexed>, blob: seq<Byte>, k: nat)
    requires PlanFor(ranges, coalesced, plans, order) && k < |plans|
    requires InObject(ranges, blob) && InObject(coalesced, blob)
    ensures plans[k].originalIndex < |ranges|
    ensures CutPiece(BytesOf(blob, coalesced), coalesced, plans[k]) == Some(BytesOf(blob, ranges)[plans[k].originalIndex])
  {
    hide AllReached, AllBounded;
    var plan := plans[k];
    assert Placed(ranges, coalesced, plan);
    var base := coalesced[plan.coalescedIndex];
    SliceOfSlice(blob, base.start, base.end, plan.start, plan.end);
  }

  lemma {:induction false} SliceOfSlice(blob: seq<Byte>, lo: nat, hi: nat, start: nat, end: nat)
    requires lo <= start <= end <= hi <= |blob|
    ensures blob[lo..hi][start - lo..end - lo] == blob[start..end]
  {
    var a, b := blob[lo..hi][start - lo..end - lo], blob[start..end];
    assert |a| == |b| && forall i :: 0 <= i < |b| ==> a[i] == b[i];
  }

  lemma {:induction false} EveryIndexPlanned(ranges: seq<Range>, coalesced: seq<Range>, plans: seq<Plan>, order: seq<Indexed>, i: nat)
    requires multiset(order) == multiset(WithIndex(ranges)) && i < |ranges|
    requires PlanFor(ranges, coalesced, plans, order)
    ensures exists k :: 0 <= k < |plans| && plans[k].originalIndex == i
  {
    assert WithIndex(ranges)[i] in multiset(WithIndex(ranges));
    assert Indexed(i, ranges[i]) in multiset(order);
    var k :| 0 <= k < |order| && order[k] == Indexed(i, ranges[i]);
    assert plans[k].originalIndex == i;
  }

  function Blank(n: nat): (chunks: seq<seq<Byte>>)
    ensures |chunks| == n
  {
    seq(n, i => [])
  }

  /** A store's refusal, or a slice beyond the bytes it cut off. */
  datatype ReadError = Refused | SliceOutOfRange

  /** If every piece can be cut, every coalesced range was served whole. */
  lemma {:induction false} AllCut(ranges: seq<Range>, coalesced: seq<Range>, plans: seq<Plan>, order: seq<Indexed>, blob: seq<Byte>)
    requires PlanFor(ranges, coalesced, plans, order) && ServedAll(blob, coalesced).Some?
    requires forall k :: 0 <= k < |plans| ==> CutPiece(ServedAll(blob, coalesced).value, coalesced, plans[k]).Some?
    ensures AllServed(blob, coalesced)
  {
    hide ServedAll, AllBounded;
    forall c | 0 <= c < |coalesced|
      ensures coalesced[c].start < coalesced[c].end <= |blob|
    {
      ServedHaveStart(blob, coalesced, c);
      assert EndsSomewhere(plans, c, coalesced[c].end);
      var k :| 0 <= k < |plans| && plans[k].coalescedIndex == c && plans[k].end == coalesced[c].end;
      assert Placed(ranges, coalesced, plans[k]);
    }
  }

  lemma {:induction false} NoRanges(blob: seq<Byte>)
    ensures CoalescedOf([]) == [] && ServedAll(blob, []) == Some([]) && BytesOf(blob, []) == []
  {
    assert Sorted([]) == [];
  }

  /**
   `read_ranges`.  It succeeds exactly when no coalesced range is empty or leaves the object,
   and then each original range comes back with exactly its own bytes.
   */
  method ReadRanges(blob: seq<Byte>, ranges: seq<Range>) returns (result: Result<seq<seq<Byte>>, ReadError>)
    requires WellFormed(ranges)
    ensures PiecesRead(blob, ranges, CoalescedOf(ranges), result)
  {
    if ranges == [] {
      NoRanges(blob);
      return Ok([]);
    }
    var coalesced, plans := CoalesceRanges(ranges);
    var parents := ServedAll(blob, coalesced);
    result := CutPieces(blob, ranges, coalesced, plans, parents);
  }

  /** What cutting the store's answer gives. */
  ghost predicate PiecesRead(blob: seq<Byte>, ranges: seq<Range>, coalesced: seq<Range>, result: Result<seq<seq<Byte>>, ReadError>) {
    && (result.Ok? <==> AllServed(blob, coalesced))
    && (result.Ok? ==> InObject(ranges, blob) && result.value == BytesOf(blob, ranges))
    && (result == Err(Refused) <==> ServedAll(blob, coalesced) == None)
  }

  /** The pieces of an answer; if it is the store's, they are the original ranges' bytes. */
  method CutPieces(ghost blob: seq<Byte>, ranges: seq<Range>, coalesced: seq<Range>, plans: seq<Plan>, parents: Option<seq<seq<Byte>>>)
    returns (result: Result<seq<seq<Byte>>, ReadError>)
    requires Coalesces(ranges, coalesced, plans)
    ensures parents == ServedAll(blob, coalesced) ==> PiecesRead(blob, ranges, coalesced, result)
  {
    hide *;
    ghost var order := OrderOf(ranges, coalesced, plans);
    ghost var wanted: seq<seq<Byte>> := Blank(|ranges|);
    ghost var whole := parents == ServedAll(blob, coalesced) && AllServed(blob, coalesced);
    if whole {
      ServedWhole(blob, coalesced);
      OriginalsInObject(ranges, coalesced, plans, order, blob);
      wanted := BytesOf(blob, ranges);
      BytesLength(blob, ranges);
    }
    if parents.None? {
      NothingRead(blob, ranges, coalesced);
      return Err(Refused);
    }
    var chunks := Blank(|ranges|);
    NothingDelivered(chunks, wanted, plans);
    for k := 0 to |plans|
      invariant |chunks| == |ranges| == |wanted|
      invariant forall j :: 0 <= j < k ==> CutPiece(parents.value, coalesced, plans[j]).Some?
      invariant whole ==> Delivered(chunks, wanted, plans[..k])
    {
      PlannedIndex(ranges, coalesced, plans, order, k);
      if whole {
        PieceIsOriginal(ranges, coalesced, plans, order, blob, k);
        DeliverOne(chunks, wanted, plans, k);
      }
      var piece := CutPiece(parents.value, coalesced, plans[k]);
      if piece.None? {
        NotWhole(blob, ranges, coalesced);
        return Err(SliceOutOfRange);
      }
      chunks := chunks[plans[k].originalIndex := piece.value];
    }
    assert plans[..|plans|] == plans;
    if parents == ServedAll(blob, coalesced) {
      AllCut(ranges, coalesced, plans, order, blob);
      AllDelivered(blob, ranges, coalesced, plans, order, chunks);
      AllRead(blob, ranges, coalesced);
    }
    result := Ok(chunks);
  }

  lemma {:induction false} NothingRead(blob: seq<Byte>, ranges: seq<Range>, coalesced: seq<Range>)
    ensures ServedAll(blob, coalesced) == None ==> PiecesRead(blob, ranges, coalesced, Err(Refused))
  {
    if AllServed(blob, coalesced) {
      ServedWhole(blob, coalesced);
    }
  }

  lemma {:induction false} NotWhole(blob: seq<Byte>, ranges: seq<Range>, coalesced: seq<Range>)
    ensures ServedAll(blob, coalesced).Some? && !AllServed(blob, coalesced) ==> PiecesRead(blob, ranges, coalesced, Err(SliceOutOfRange))
  {
  }

  lemma {:induction false} AllRead(blob: seq<Byte>, ranges: seq<Range>, coalesced: seq<Range>)
    ensures ServedAll(blob, coalesced).Some? && AllServed(blob, coalesced) && InObject(ranges, blob) ==>
      PiecesRead(blob, ranges, coalesced, Ok(BytesOf(blob, ranges)))
  {
  }

  lemma {:induction false} BytesLength(blob: seq<Byte>, ranges: seq<Range>)
    requires InObject(ranges, blob)
    ensures |BytesOf(blob, ranges)| == |ranges|
  {
  }

  lemma {:induction false} PlannedIndex(ranges: seq<Range>, coalesced: seq<Range>, plans: seq<Plan>, order: seq<Indexed>, k: nat)
    requires PlanFor(ranges, coalesced, plans, order) && k < |plans|
    ensures plans[k].originalIndex < |ranges|
  {
    assert Placed(ranges, coalesced, plans[k]);
  }

  lemma {:induction false} NothingDelivered(chunks: seq<seq<Byte>>, wanted: seq<seq<Byte>>, plans: seq<Plan>)
    requires |chunks| == |wanted|
    ensures Delivered(chunks, wanted, plans[..0])
  {
  }

  ghost predicate Delivered(chunks: seq<seq<Byte>>, wanted: seq<seq<Byte>>, plans: seq<Plan>)
    requires |chunks| == |wanted|
  {
    forall j :: 0 <= j < |plans| && plans[j].originalIndex < |wanted| ==>
      chunks[plans[j].originalIndex] == wanted[plans[j].originalIndex]
  }

  lemma {:induction false} DeliverOne(chunks: seq<seq<Byte>>, wanted: seq<seq<Byte>>, plans: seq<Plan>, k: nat)
    requires |chunks| == |wanted| && k < |plans| && plans[k].originalIndex < |wanted|
    requires Delivered(chunks, wanted, plans[..k])
    ensures Delivered(chunks[plans[k].originalIndex := wanted[plans[k].originalIndex]], wanted, plans[..k + 1])
  {
  }

  lemma {:induction false} AllDelivered(
    blob: seq<Byte>, ranges: seq<Range>, coalesced: seq<Range>, plans: seq<Plan>, order: seq<Indexed>, chunks: seq<seq<Byte>>)
    requires multiset(order) == multiset(WithIndex(ranges)) && PlanFor(ranges, coalesced, plans, order)
    requires InObject(ranges, blob) && |chunks| == |ranges|
    requires Delivered(chunks, BytesOf(blob, ranges), plans)
    ensures chunks == BytesOf(blob, ranges)
  {
    hide PlanFor, WithIndex;
    forall i | 0 <= i < |ranges|
      ensures chunks[i] == BytesOf(blob, ranges)[i]
    {
      EveryIndexPlanned(ranges, coalesced, plans, order, i);
    }
  }

  // ---- which ranges are merged ----

  /** An original that starts a coalesced range and could not be joined to the one before: too far behind, or too long together. */
  ghost predicate StartedBy(ranges: seq<Range>, coalesced: seq<Range>, k: nat, r: Range)
    requires k < |coalesced|
  {
    && r in ranges && r.start == coalesced[k].start && r.end <= coalesced[k].end
    && (k > 0 ==> r.start > coalesced[k - 1].end + 1_048_576 || r.end > coalesced[k - 1].start + 16_777_216)
  }

  ghost predicate Started(ranges: seq<Range>, coalesced: seq<Range>, k: nat)
    requires k < |coalesced|
  {
    exists r :: StartedBy(ranges, coalesced, k, r)
  }

  /** An original of the coalesced range that covers the place, or ends at most a mebibyte before it. */
  ghost predicate Near(ranges: seq<Range>, c: Range, x: nat) {
    exists r :: r in ranges && c.start <= r.start <= x && r.end <= c.end && x < r.end + 1_048_576
  }

  ghost predicate AllNear(ranges: seq<Range>, c: Range) {
    forall x: nat :: c.start <= x < c.end ==> Near(ranges, c, x)
  }

  ghost predicate EndsWithOne(ranges: seq<Range>, c: Range) {
    exists r :: r in ranges && r.end == c.end && c.start <= r.start
  }

  /** Coalesced ranges ascend, each is started by an original that could not join, and none reads far beyond its originals. */
  ghost predicate WellMerged(ranges: seq<Range>, coalesced: seq<Range>) {
    && (forall k: nat :: k < |coalesced| ==> Started(ranges, coalesced, k))
    && (forall k :: 0 <= k < |coalesced| ==> AllNear(ranges, coalesced[k]) && EndsWithOne(ranges, coalesced[k]))
    && (forall k, l :: 0 <= k < l < |coalesced| ==> coalesced[k].start <= coalesced[l].start)
  }

  lemma {:induction false} NearWider(ranges: seq<Range>, c: Range, r: Range)
    requires WellFormed(ranges) && AllNear(ranges, c) && EndsWithOne(ranges, c)
    requires r in ranges && c.start <= r.start <= c.end + 1_048_576 && r.start <= r.end
    ensures var wide := Range(c.start, Max(c.end, r.end)); AllNear(ranges, wide) && EndsWithOne(ranges, wide)
  {
    var wide := Range(c.start, Max(c.end, r.end));
    var last :| last in ranges && last.end == c.end && c.start <= last.start;
    forall x: nat | wide.start <= x < wide.end
      ensures Near(ranges, wide, x)
    {
      if x < c.end {
        assert Near(ranges, c, x);
      }
    }
  }

  lemma {:induction false} MergeJoins(ranges: seq<Range>, coalesced: seq<Range>, r: Range)
    requires WellFormed(ranges) && WellMerged(ranges, coalesced) && Joins(coalesced, r) && r in ranges
    requires coalesced[|coalesced| - 1].start <= r.start
    ensures WellMerged(ranges, Widened(coalesced, r))
  {
    var n := |coalesced| - 1;
    var after := Widened(coalesced, r);
    assert r.start <= r.end;
    NearWider(ranges, coalesced[n], r);
    hide AllNear, EndsWithOne;
    forall k: nat | k < |after|
      ensures Started(ranges, after, k)
    {
      assert Started(ranges, coalesced, k);
      var s :| StartedBy(ranges, coalesced, k, s);
      assert StartedBy(ranges, after, k, s);
    }
  }

  lemma {:induction false} OneRange(ranges: seq<Range>, r: Range)
    requires r in ranges && r.start <= r.end
    ensures AllNear(ranges, r) && EndsWithOne(ranges, r)
  {
    forall x: nat | r.start <= x < r.end
      ensures Near(ranges, r, x)
    {
    }
  }

  lemma {:induction false} MergeStarts(ranges: seq<Range>, coalesced: seq<Range>, r: Range)
    requires WellFormed(ranges) && WellMerged(ranges, coalesced) && !Joins(coalesced, r) && r in ranges
    requires coalesced != [] ==> coalesced[|coalesced| - 1].start <= r.start
    ensures WellMerged(ranges, coalesced + [r])
  {
    var n := |coalesced|;
    var after := coalesced + [r];
    assert r.start <= r.end <= U64_MAX;
    OneRange(ranges, r);
    hide AllNear, EndsWithOne;
    forall k: nat | k < |after|
      ensures Started(ranges, after, k)
    {
      if k < n {
        assert Started(ranges, coalesced, k);
        var s :| StartedBy(ranges, coalesced, k, s);
        assert StartedBy(ranges, after, k, s);
      } else {
        assert StartedBy(ranges, after, n, r);
      }
    }
    forall k, l | 0 <= k < l < |after|
      ensures after[k].start <= after[l].start
    {
      assert l == n && k < n - 1 ==> coalesced[k].start <= coalesced[n - 1].start;
    }
  }

  lemma {:induction false} FrontMerged(ranges: seq<Range>, sorted: seq<Indexed>, n: nat)
    requires WellFormed(ranges) && Ordered(ranges, sorted) && n <= |sorted|
    ensures WellMerged(ranges, Merged(sorted[..n]).0) && LastStarts(Merged(sorted[..n]).0, StartBefore(sorted, n))
  {
    if n > 0 {
      FrontMerged(ranges, sorted, n - 1);
      assert sorted[..n] == sorted[..n - 1] + [sorted[n - 1]];
      MergedMore(sorted[..n - 1], sorted[n - 1]);
      SortedItem(ranges, sorted, n - 1);
      var coalesced, item := Merged(sorted[..n - 1]).0, sorted[n - 1];
      assert item.range in ranges;
      hide Merged, WellMerged, Joins, Ordered, WellFormed;
      if Joins(coalesced, item.range) {
        MergeJoins(ranges, coalesced, item.range);
      } else {
        MergeStarts(ranges, coalesced, item.range);
      }
    }
  }

  /** The coalesced ranges are merged as far as the gap and the size allow, and no further. */
  lemma {:induction false} CoalescedWell(ranges: seq<Range>)
    requires WellFormed(ranges)
    ensures WellMerged(ranges, CoalescedOf(ranges))
  {
    var sorted := Sorted(ranges);
    SortedOrdered(ranges);
    FrontMerged(ranges, sorted, |sorted|);
    assert sorted[..|sorted|] == sorted;
  }
}
