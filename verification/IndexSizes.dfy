/**
 How large an index can become: every encoded length is bounded by the terms, rows and
 positions of the entries, so that a bound on the entries is enough for the widths of all
 stored integers (src/search/mod.rs, src/search/codec.rs).
 */
module IndexSizes {
  import opened Wrappers
  import opened Bytes
  import opened BitPacking
  import opened ListCodec
  import opened PositionCodec
  import opened Sequences
  import opened SearchIndexData
  import opened TermEntries
  import RG = RowGroups
  import opened IndexFormat

  // ---- lists ----

  /** A u32 takes at most five bytes. */
  lemma {:induction false} VintShort(v: nat)
    requires v <= U32_MAX
    ensures |VintBytes(v)| <= 5
  {
    hide VintBytes;
    VintUnfold(v);
    VintUnfold(v / 128);
    VintUnfold(v / 128 / 128);
    VintUnfold(v / 128 / 128 / 128);
    VintUnfold(v / 128 / 128 / 128 / 128);
  }

  lemma {:induction false} TailShort(deltas: seq<nat>)
    requires AllU32(deltas)
    ensures |TailBytes(deltas)| <= 5 * |deltas|
  {
    hide VintBytes;
    if deltas != [] {
      VintShort(deltas[0]);
      TailShort(deltas[1..]);
    }
  }

  lemma {:induction false} BlockShort(block: seq<nat>)
    requires AllU32(block) && |block| == BLOCK_LEN
    ensures |BlockBytes(block)| <= 5 * BLOCK_LEN
  {
    hide BitWidth, MaxOf, LeBytes;
    BitWidthOfU32(MaxOf(block));
    var width := BitWidth(MaxOf(block));
    assert |Packed(block, width)| == (BLOCK_LEN * width + 7) / 8;
    assert BLOCK_LEN * width <= BLOCK_LEN * 32;
  }

  lemma {:induction false} DeltasShort(deltas: seq<nat>)
    requires AllU32(deltas)
    ensures |DeltaBytes(deltas)| <= 5 * |deltas|
    decreases |deltas|
  {
    hide TailBytes, BlockBytes;
    if |deltas| < BLOCK_LEN {
      TailShort(deltas);
    } else {
      BlockShort(deltas[..BLOCK_LEN]);
      DeltasShort(deltas[BLOCK_LEN..]);
    }
  }

  lemma {:induction false} ListShort(values: seq<nat>)
    requires AllU32(values)
    ensures |EncodedList(values)| <= 5 * |values|
  {
    DeltasSmall(values, 0);
    DeltasShort(Deltas(values, 0));
    hide DeltaBytes, Deltas;
  }

  lemma {:induction false} PositionsShort(rows: seq<nat>, positions: map<nat, seq<nat>>)
    requires Encodable(rows, positions)
    ensures |EncodedPositions(rows, positions)| <= 5 * |rows| + 5 * PositionCount(rows, positions)
  {
    hide EncodedList, VintBytes;
    if rows != [] {
      var list := PositionsAt(positions, rows[0]);
      VintShort(|list|);
      ListShort(list);
      PositionsShort(rows[1..], positions);
    }
  }

  // ---- entries ----

  lemma {:induction false} EntryShort(e: Entry, positioned: bool)
    requires RG.Fits(e)
    ensures RG.EncodedSize(e, positioned) <= 10 * EntryCost(e)
  {
    ListShort(e.rows);
    PositionsShort(e.rows, e.positions);
    hide EncodedList, EncodedPositions, PositionCount, AllU32, Ascending, Encodable, AllAscending;
  }

  lemma {:induction false} EntriesCostJoin(a: seq<Entry>, b: seq<Entry>)
    ensures EntriesCost(a + b) == EntriesCost(a) + EntriesCost(b)
  {
    hide EntryCost;
    if b == [] {
      assert a + b == a;
    } else {
      EntriesCostJoin(a, b[..|b| - 1]);
      assert (a + b)[..|a + b| - 1] == a + b[..|b| - 1];
    }
  }

  lemma {:induction false} MemberCost(entries: seq<Entry>, i: nat)
    requires i < |entries|
    ensures EntryCost(entries[i]) <= EntriesCost(entries)
  {
    hide EntryCost;
    if i < |entries| - 1 {
      MemberCost(entries[..|entries| - 1], i);
    }
  }

  /** Entries of bounded cost are narrow enough to be encoded. */
  lemma {:induction false} EntriesNarrow(entries: seq<Entry>, positioned: bool)
    requires RG.AllFit(entries) && 10 * EntriesCost(entries) <= U32_MAX
    ensures RG.Small(entries, positioned)
  {
    hide EntriesCost, RG.Fits, RG.PostingsOf, RG.PositionsOf;
    forall i | 0 <= i < |entries|
      ensures RG.Narrow(entries[i], positioned)
    {
      MemberCost(entries, i);
      EntryShort(entries[i], positioned);
    }
  }

  lemma {:induction false} TotalShort(entries: seq<Entry>, positioned: bool)
    requires RG.AllFit(entries)
    ensures RG.TotalSize(entries, positioned) <= 10 * EntriesCost(entries) && |entries| <= EntriesCost(entries)
  {
    if entries != [] {
      hide RG.Fits, RG.EncodedSize;
      TotalShort(entries[..|entries| - 1], positioned);
      EntryShort(entries[|entries| - 1], positioned);
    }
  }

  // ---- dictionaries ----

  function TermsSize(terms: seq<ByteString>): nat {
    if terms == [] then 0 else TermsSize(terms[..|terms| - 1]) + |terms[|terms| - 1]| + 1
  }

  /** A written dictionary takes at most 4 GiB for every byte of its terms. */
  ghost predicate Compact(codec: FstCodec) {
    forall terms :: StrictlyIncreasing(terms) && terms != [] ==> |codec.write(terms)| <= U32_MAX * TermsSize(terms)
  }

  lemma {:induction false} TermsCost(entries: seq<Entry>)
    ensures TermsSize(RG.Terms(entries)) <= EntriesCost(entries)
  {
    if entries != [] {
      TermsCost(entries[..|entries| - 1]);
      assert RG.Terms(entries)[..|entries| - 1] == RG.Terms(entries[..|entries| - 1]);
    }
  }

  // ---- groups ----

  lemma {:induction false} GroupShort(codec: FstCodec, chunk: seq<Entry>, positioned: bool, g: RowGroup)
    requires RG.GroupFor(chunk, positioned, g) && StrictlyIncreasing(g.terms) && Compact(codec)
    ensures |g.infos| <= EntriesCost(chunk)
    ensures 76 + |g.minTerm| + |g.maxTerm| <= 78 * EntriesCost(chunk)
    ensures BodyLen(codec, g) <= (U32_MAX + 30) * EntriesCost(chunk)
  {
    ReadInfosBack(g.infos);
    TotalShort(chunk, positioned);
    TermsCost(chunk);
    MemberCost(chunk, 0);
    MemberCost(chunk, |chunk| - 1);
    assert g.terms != [];
    hide RG.TotalSize, EntriesCost, TermsSize, InfosBytes, StrictlyIncreasing, ReadInfos, PositionCount;
  }

  /** What a list of groups takes when its entries cost `cost`. */
  ghost predicate Cheap(codec: FstCodec, groups: seq<RowGroup>, cost: nat) {
    && (forall i :: 0 <= i < |groups| ==> |groups[i].infos| <= cost)
    && GroupsDirectoryLen(groups) <= 78 * cost
    && BodiesLen(codec, groups) <= (U32_MAX + 30) * cost
  }

  lemma {:induction false} CheapMore(codec: FstCodec, groups: seq<RowGroup>, first: nat, others: nat)
    requires groups != [] && |groups[0].infos| <= first && 76 + |groups[0].minTerm| + |groups[0].maxTerm| <= 78 * first
    requires BodyLen(codec, groups[0]) <= (U32_MAX + 30) * first && Cheap(codec, groups[1..], others)
    ensures Cheap(codec, groups, first + others)
  {
    hide BodyLen;
    forall i | 0 <= i < |groups|
      ensures |groups[i].infos| <= first + others
    {
      assert i > 0 ==> groups[i] == groups[1..][i - 1];
    }
  }

  lemma {:induction false} FirstGroup(chunks: seq<seq<Entry>>, positioned: bool, groups: seq<RowGroup>)
    requires RG.GroupsFor(chunks, positioned, groups) && GroupsSorted(groups) && chunks != []
    ensures |groups| == |chunks| && RG.GroupFor(chunks[0], positioned, groups[0]) && StrictlyIncreasing(groups[0].terms)
    ensures RG.GroupsFor(chunks[1..], positioned, groups[1..]) && GroupsSorted(groups[1..])
  {
    hide RG.GroupFor, RG.Bounded, StrictlyIncreasing;
  }

  lemma {:induction false} CostUnfold(chunks: seq<seq<Entry>>)
    requires chunks != []
    ensures EntriesCost(Flatten(chunks)) == EntriesCost(chunks[0]) + EntriesCost(Flatten(chunks[1..]))
  {
    EntriesCostJoin(chunks[0], Flatten(chunks[1..]));
    hide EntriesCost;
  }

  lemma {:induction false} NothingCheap(codec: FstCodec, cost: nat)
    ensures Cheap(codec, [], cost)
  {
  }

  lemma {:induction false} GroupsShort(codec: FstCodec, chunks: seq<seq<Entry>>, positioned: bool, groups: seq<RowGroup>)
    requires RG.GroupsFor(chunks, positioned, groups) && GroupsSorted(groups) && Compact(codec)
    ensures Cheap(codec, groups, EntriesCost(Flatten(chunks)))
  {
    hide *;
    if chunks == [] {
      NoGroups(chunks, positioned, groups);
      NothingCheap(codec, EntriesCost(Flatten(chunks)));
    } else {
      FirstGroup(chunks, positioned, groups);
      CostUnfold(chunks);
      GroupsShort(codec, chunks[1..], positioned, groups[1..]);
      FirstCheap(codec, chunks[0], positioned, groups, EntriesCost(Flatten(chunks[1..])));
    }
  }

  lemma {:induction false} NoGroups(chunks: seq<seq<Entry>>, positioned: bool, groups: seq<RowGroup>)
    requires RG.GroupsFor(chunks, positioned, groups) && chunks == []
    ensures groups == []
  {
  }

  lemma {:induction false} FirstCheap(codec: FstCodec, chunk: seq<Entry>, positioned: bool, groups: seq<RowGroup>, others: nat)
    requires groups != [] && RG.GroupFor(chunk, positioned, groups[0]) && StrictlyIncreasing(groups[0].terms) && Compact(codec)
    requires Cheap(codec, groups[1..], others)
    ensures Cheap(codec, groups, EntriesCost(chunk) + others)
  {
    hide *;
    GroupShort(codec, chunk, positioned, groups[0]);
    CheapMore(codec, groups, EntriesCost(chunk), others);
  }

  /** An index whose entries cost little enough can be stored. */
  lemma {:induction false} CheapIsStorable(codec: FstCodec, index: SearchIndex, keyChunks: seq<seq<Entry>>, valueChunks: seq<seq<Entry>>)
    requires RG.GroupsFor(keyChunks, false, index.keyGroups) && RG.GroupsFor(valueChunks, true, index.valueGroups)
    requires GroupsSorted(index.keyGroups) && GroupsSorted(index.valueGroups) && Compact(codec)
    requires 78 * (EntriesCost(Flatten(keyChunks)) + EntriesCost(Flatten(valueChunks))) <= U32_MAX
    ensures Storable(codec, index)
  {
    hide RG.GroupsFor, GroupsSorted, Compact, EntriesCost, BodiesLen, GroupsDirectoryLen, Flatten;
    GroupsShort(codec, keyChunks, false, index.keyGroups);
    GroupsShort(codec, valueChunks, true, index.valueGroups);
  }

  // ---- the whole object ----

  lemma {:induction false} BodiesThenLength(codec: FstCodec, gs: seq<RowGroup>, rest: ByteString)
    ensures |BodiesThen(codec, gs, rest)| == BodiesLen(codec, gs) + |rest|
  {
    hide InfosBytes;
    if gs != [] {
      BodiesThenLength(codec, gs[1..], rest);
    }
  }

  /** An encoded index fits the offsets of an object store. */
  lemma {:induction false} EncodedLength(codec: FstCodec, index: SearchIndex)
    requires Storable(codec, index)
    ensures Encoded(codec, index).Ok? && |Encoded(codec, index).value| < U64_LIMIT
  {
    var bytes := Encoded(codec, index).value;
    BodiesThenLength(codec, index.valueGroups, []);
    BodiesThenLength(codec, index.keyGroups, BodiesThen(codec, index.valueGroups, []));
    assert |BodyPart(codec, index)| + HEADER_LEN + DirectoryBytesOf(index) < U64_LIMIT;
    hide Encoded, BodyPart, DirectoryPart, BodiesThen, DecodeHeader, DirectoryBytesOf, Storable;
    assert Encoded(codec, index) == Ok(bytes) by { EncodedOk(codec, index); }
    Sections(codec, index, bytes);
    assert |bytes| == HEADER_LEN + DirectoryBytesOf(index) + |bytes[HEADER_LEN + DirectoryBytesOf(index)..]|;
  }

  lemma {:induction false} EncodedOk(codec: FstCodec, index: SearchIndex)
    requires Storable(codec, index)
    ensures Encoded(codec, index).Ok?
  {
    hide Storable, HeaderThen, DirectoriesThen, BodiesThen;
  }
}
