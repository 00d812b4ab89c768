/** Cutting dictionary entries into row groups and encoding each group (src/search/mod.rs). */
module RowGroups {
  import opened Wrappers
  import opened Bytes
  import opened Sequences
  import opened ListCodec
  import opened PositionCodec
  import opened SearchIndexData
  import opened TermEntries
  import opened SearchEvaluation
  import opened TermSlices

  const POSTINGS_LIMIT: nat := 32 * 1024 * 1024
  const RAW_TERM_LIMIT: nat := 64 * 1024 * 1024

  datatype BuildError = TooLarge | OutOfOrder

  /** Rows and positions are u32s in order, and a row's positions can be counted. */
  predicate Fits(e: Entry) {
    AllU32(e.rows) && Ascending(e.rows) && Encodable(e.rows, e.positions) && AllAscending(e.rows, e.positions)
  }

  function PostingsOf(e: Entry): ByteString
    requires Fits(e)
  {
    EncodedList(e.rows)
  }

  function PositionsOf(e: Entry, positioned: bool): ByteString
    requires Fits(e)
  {
    if positioned then EncodedPositions(e.rows, e.positions) else []
  }

  /** `estimated_term_bytes`. */
  function EncodedSize(e: Entry, positioned: bool): nat
    requires Fits(e)
  {
    |PostingsOf(e)| + |PositionsOf(e, positioned)|
  }

  function TotalSize(entries: seq<Entry>, positioned: bool): nat
    requires forall i :: 0 <= i < |entries| ==> Fits(entries[i])
  {
    if entries == [] then 0 else TotalSize(entries[..|entries| - 1], positioned) + EncodedSize(entries[|entries| - 1], positioned)
  }

  ghost predicate AllFit(entries: seq<Entry>) {
    forall i :: 0 <= i < |entries| ==> Fits(entries[i])
  }

  /** The entry's lists have lengths that fit the info's u32 fields. */
  ghost predicate Narrow(e: Entry, positioned: bool) {
    Fits(e) && |PostingsOf(e)| <= U32_MAX && |PositionsOf(e, positioned)| <= U32_MAX && |e.rows| <= U32_MAX
  }

  ghost predicate Small(entries: seq<Entry>, positioned: bool) {
    forall i :: 0 <= i < |entries| ==> Narrow(entries[i], positioned)
  }

  /** The info finds the entry's lists in the group's buffers. */
  ghost predicate InfoFor(e: Entry, positioned: bool, info: TermInfo, postings: ByteString, positions: ByteString) {
    && Fits(e) && info.docCount == |e.rows|
    && Cut(postings, info.postingsOffset, info.postingsLen) == Some(PostingsOf(e))
    && Cut(positions, info.positionsOffset, info.positionsLen) == Some(PositionsOf(e, positioned))
  }

  ghost predicate InfosFor(entries: seq<Entry>, positioned: bool, infos: seq<TermInfo>, postings: ByteString, positions: ByteString) {
    |infos| == |entries| && forall o :: 0 <= o < |entries| ==> InfoFor(entries[o], positioned, infos[o], postings, positions)
  }

  /** The term slices tile the buffers in order. */
  ghost predicate Tiled(infos: seq<TermInfo>, postings: nat, positions: nat) {
    && (forall o :: 0 <= o < |infos| ==>
          infos[o].postingsOffset + infos[o].postingsLen <= postings && infos[o].positionsOffset + infos[o].positionsLen <= positions)
    && (forall o, o' :: 0 <= o < o' < |infos| ==>
          && infos[o].postingsOffset + infos[o].postingsLen <= infos[o'].postingsOffset
          && infos[o].positionsOffset + infos[o].positionsLen <= infos[o'].positionsOffset)
  }

  function Terms(entries: seq<Entry>): seq<ByteString> {
    seq(|entries|, i requires 0 <= i < |entries| => entries[i].term)
  }

  ghost predicate GroupFor(entries: seq<Entry>, positioned: bool, g: RowGroup) {
    && entries != [] && g.terms == Terms(entries)
    && g.minTerm == entries[0].term && g.maxTerm == entries[|entries| - 1].term
    && InfosFor(entries, positioned, g.infos, g.postings, g.positions)
    && AllFit(entries) && |g.postings| + |g.positions| == TotalSize(entries, positioned)
    && SlicesInOrder(g)
  }

  lemma {:induction false} OneMoreInfo(
    entries: seq<Entry>, k: nat, positioned: bool, infos: seq<TermInfo>, postings: ByteString, positions: ByteString, info: TermInfo)
    requires k < |entries| && InfosFor(entries[..k], positioned, infos, postings, positions) && Tiled(infos, |postings|, |positions|)
    requires Fits(entries[k]) && info.docCount == |entries[k].rows|
    requires info.postingsOffset == |postings| && info.postingsLen == |PostingsOf(entries[k])|
    requires info.positionsOffset == |positions| && info.positionsLen == |PositionsOf(entries[k], positioned)|
    ensures var a, b := PostingsOf(entries[k]), PositionsOf(entries[k], positioned);
            && InfosFor(entries[..k + 1], positioned, infos + [info], postings + a, positions + b)
            && Tiled(infos + [info], |postings + a|, |positions + b|)
  {
    var e := entries[k];
    var a, b := PostingsOf(e), PositionsOf(e, positioned);
    hide PostingsOf, PositionsOf, Fits, Cut;
    CutLast(postings, a);
    CutLast(positions, b);
    var after := infos + [info];
    forall o | 0 <= o < k + 1
      ensures InfoFor(entries[..k + 1][o], positioned, after[o], postings + a, positions + b)
    {
      if o < k {
        assert entries[..k + 1][o] == entries[..k][o] && after[o] == infos[o];
        assert InfoFor(entries[..k][o], positioned, infos[o], postings, positions);
        CutAppend(postings, a, infos[o].postingsOffset, infos[o].postingsLen);
        CutAppend(positions, b, infos[o].positionsOffset, infos[o].positionsLen);
      }
    }
  }

  lemma {:induction false} SizeOfPrefix(entries: seq<Entry>, positioned: bool, k: nat)
    requires forall i :: 0 <= i < |entries| ==> Fits(entries[i])
    requires k < |entries|
    ensures TotalSize(entries[..k], positioned) + EncodedSize(entries[k], positioned) == TotalSize(entries[..k + 1], positioned)
    ensures TotalSize(entries[..k + 1], positioned) <= TotalSize(entries, positioned)
    decreases |entries| - k
  {
    hide EncodedSize, Fits;
    assert entries[..k + 1][..k] == entries[..k] && entries[..k + 1][k] == entries[k];
    if k + 1 < |entries| {
      SizeOfPrefix(entries, positioned, k + 1);
    } else {
      assert entries[..k + 1] == entries;
    }
  }

  /** The first `k` entries are encoded. */
  ghost predicate Progress(
    entries: seq<Entry>, k: nat, positioned: bool, terms: seq<ByteString>, infos: seq<TermInfo>, postings: ByteString, positions: ByteString)
  {
    && k <= |entries| && AllFit(entries) && terms == Terms(entries[..k])
    && InfosFor(entries[..k], positioned, infos, postings, positions) && Tiled(infos, |postings|, |positions|)
    && |postings| + |positions| == TotalSize(entries[..k], positioned)
  }

  lemma {:induction false} NoProgress(entries: seq<Entry>, positioned: bool)
    requires AllFit(entries)
    ensures Progress(entries, 0, positioned, [], [], [], [])
  {
  }

  lemma {:induction false} NextEntry(
    entries: seq<Entry>, k: nat, positioned: bool, terms: seq<ByteString>, infos: seq<TermInfo>, postings: ByteString, positions: ByteString)
    requires Progress(entries, k, positioned, terms, infos, postings, positions) && k < |entries| && EntryOrder(entries)
    ensures Fits(entries[k]) && |terms| == k && (k > 0 ==> BytesLess(terms[k - 1], entries[k].term))
    ensures |postings| + |PostingsOf(entries[k])| + |positions| + |PositionsOf(entries[k], positioned)| <= TotalSize(entries, positioned)
  {
    hide BytesLeq, PostingsOf, PositionsOf, Tiled, InfosFor, TotalSize;
    assert Fits(entries[k]);
    SizeOfPrefix(entries, positioned, k);
  }

  lemma {:induction false} ProgressStep(
    entries: seq<Entry>, k: nat, positioned: bool, terms: seq<ByteString>, infos: seq<TermInfo>, postings: ByteString, positions: ByteString, info: TermInfo)
    requires Progress(entries, k, positioned, terms, infos, postings, positions) && k < |entries| && Fits(entries[k])
    requires info.docCount == |entries[k].rows|
    requires info.postingsOffset == |postings| && info.postingsLen == |PostingsOf(entries[k])|
    requires info.positionsOffset == |positions| && info.positionsLen == |PositionsOf(entries[k], positioned)|
    ensures Progress(entries, k + 1, positioned, terms + [entries[k].term], infos + [info],
                     postings + PostingsOf(entries[k]), positions + PositionsOf(entries[k], positioned))
  {
    hide Fits, PostingsOf, PositionsOf, Tiled, InfosFor, TotalSize, Terms;
    OneMoreInfo(entries, k, positioned, infos, postings, positions, info);
    SizeOfPrefix(entries, positioned, k);
    TermsAppend(entries, k);
  }

  lemma {:induction false} TermsAppend(entries: seq<Entry>, k: nat)
    requires k < |entries|
    ensures Terms(entries[..k + 1]) == Terms(entries[..k]) + [entries[k].term]
  {
  }

  lemma {:induction false} Finished(
    entries: seq<Entry>, positioned: bool, terms: seq<ByteString>, infos: seq<TermInfo>, postings: ByteString, positions: ByteString)
    requires Progress(entries, |entries|, positioned, terms, infos, postings, positions) && entries != []
    ensures GroupFor(entries, positioned, RowGroup(entries[0].term, entries[|entries| - 1].term, terms, infos, postings, positions))
  {
    assert entries[..|entries|] == entries;
    TiledInOrder(RowGroup(entries[0].term, entries[|entries| - 1].term, terms, infos, postings, positions));
    hide Fits, Tiled, InfosFor, TotalSize, SlicesInOrder;
  }

  /** Nothing overflows in a group of one narrow entry, or of several that fit together. */
  lemma {:induction false} NextNarrow(
    entries: seq<Entry>, k: nat, positioned: bool, terms: seq<ByteString>, infos: seq<TermInfo>, postings: ByteString, positions: ByteString)
    requires Progress(entries, k, positioned, terms, infos, postings, positions) && k < |entries|
    requires Small(entries, positioned) && (|entries| == 1 || TotalSize(entries, positioned) <= U32_MAX)
    ensures Fits(entries[k]) && |postings| <= U32_MAX && |PostingsOf(entries[k])| <= U32_MAX
    ensures |positions| <= U32_MAX && |PositionsOf(entries[k], positioned)| <= U32_MAX && |entries[k].rows| <= U32_MAX
  {
    hide Fits, PostingsOf, PositionsOf, Tiled, InfosFor;
    assert Narrow(entries[k], positioned);
    if |entries| > 1 {
      SizeOfPrefix(entries, positioned, k);
    }
  }

  /** An encoded entry is narrow. */
  lemma {:induction false} EncodedIsSmall(entries: seq<Entry>, positioned: bool, g: RowGroup)
    requires GroupFor(entries, positioned, g)
    ensures Small(entries, positioned)
  {
    hide SlicesInOrder, TotalSize, PostingsOf, PositionsOf, Fits;
    forall i | 0 <= i < |entries|
      ensures Narrow(entries[i], positioned)
    {
      assert InfoFor(entries[i], positioned, g.infos[i], g.postings, g.positions);
    }
  }

  /** `encode_row_group`: with entries in order, the FST never sees a term out of order. */
  method EncodeRowGroup(entries: seq<Entry>, positioned: bool) returns (result: Result<RowGroup, BuildError>)
    requires AllFit(entries) && entries != [] && EntryOrder(entries)
    ensures result.Ok? ==> GroupFor(entries, positioned, result.value)
    ensures result.Err? ==> result.error == TooLarge
    ensures Small(entries, positioned) && (|entries| == 1 || TotalSize(entries, positioned) <= U32_MAX) ==> result.Ok?
  {
    var terms: seq<ByteString>, infos: seq<TermInfo> := [], [];
    var postings: ByteString, positions: ByteString := [], [];
    NoProgress(entries, positioned);
    hide *;
    for k := 0 to |entries|
      invariant Progress(entries, k, positioned, terms, infos, postings, positions)
    {
      NextEntry(entries, k, positioned, terms, infos, postings, positions);
      var e := entries[k];
      if k > 0 && !BytesLess(terms[k - 1], e.term) {
        return Err(OutOfOrder);
      }
      var a := PostingsOf(e);
      var b := PositionsOf(e, positioned);
      if |postings| > U32_MAX || |a| > U32_MAX || |positions| > U32_MAX || |b| > U32_MAX || |e.rows| > U32_MAX {
        if Small(entries, positioned) && (|entries| == 1 || TotalSize(entries, positioned) <= U32_MAX) {
          NextNarrow(entries, k, positioned, terms, infos, postings, positions);
        }
        return Err(TooLarge);
      }
      var info := TermInfo(|e.rows|, |postings|, |a|, |positions|, |b|);
      ProgressStep(entries, k, positioned, terms, infos, postings, positions, info);
      terms := terms + [e.term];
      infos := infos + [info];
      postings := postings + a;
      positions := positions + b;
    }
    Finished(entries, positioned, terms, infos, postings, positions);
    result := Ok(RowGroup(entries[0].term, entries[|entries| - 1].term, terms, infos, postings, positions));
  }

  lemma {:induction false} TiledInOrder(g: RowGroup)
    requires Tiled(g.infos, |g.postings|, |g.positions|)
    ensures SlicesInOrder(g)
  {
  }

  lemma {:induction false} RowsTakeBytes(rows: seq<nat>)
    requires AllU32(rows) && rows != []
    ensures EncodedList(rows) != []
  {
    DeltasSmall(rows, 0);
    var deltas := Deltas(rows, 0);
    if |deltas| < BLOCK_LEN {
      VintUnfold(deltas[0]);
    }
  }

  /** The builder's groups are laid out as the loader wants them: every term has a row, so no slice of postings is empty. */
  lemma {:induction false} GroupLaidOut(entries: seq<Entry>, positioned: bool, g: RowGroup)
    requires GroupFor(entries, positioned, g) && forall i :: 0 <= i < |entries| ==> entries[i].rows != []
    ensures LaidOut(g)
  {
    hide SlicesInOrder, EncodedList, EncodedPositions, TotalSize;
    forall o | 0 <= o < |g.infos|
      ensures g.infos[o].postingsLen > 0
    {
      assert InfoFor(entries[o], positioned, g.infos[o], g.postings, g.positions);
      RowsTakeBytes(entries[o].rows);
      CutLen(g.postings, g.infos[o].postingsOffset, g.infos[o].postingsLen);
    }
  }

  // ---- what a group holds ----

  function DecodedEntry(e: Entry, includePositions: bool): DecodedTerm {
    DecodedTerm(TermPath(e.term), Elements(e.rows),
                if includePositions then map row | row in e.rows :: Elements(PositionsAt(e.positions, row)) else map[])
  }

  /** Every entry of a group decodes to its rows and positions. */
  lemma {:induction false} EntryDecodes(entries: seq<Entry>, positioned: bool, g: RowGroup, o: nat, includePositions: bool)
    requires GroupFor(entries, positioned, g) && o < |entries| && (includePositions ==> positioned)
    ensures TermAt(g, o, includePositions) == Some(DecodedEntry(entries[o], includePositions))
  {
    var e := entries[o];
    hide TotalSize, RawTermBytes, Elements, PositionsAt, DecodedList, SlicesInOrder, EncodedList, EncodedPositions, ReadList, ReadPositions, TermPath;
    assert InfoFor(e, positioned, g.infos[o], g.postings, g.positions);
    RowsComeBack(e.rows);
    if includePositions {
      PositionsRoundTrip(e.rows, e.positions);
      EmptyStream(e);
    }
  }

  lemma {:induction false} RowsComeBack(rows: seq<nat>)
    requires AllU32(rows) && Ascending(rows)
    ensures DecodedList(EncodedList(rows), |rows|) == Some(rows)
  {
    hide ReadList, EncodedList;
    ListRoundTrip(rows, []);
    assert EncodedList(rows) + [] == EncodedList(rows);
  }

  lemma {:induction false} EmptyStream(e: Entry)
    requires Fits(e)
    ensures |EncodedPositions(e.rows, e.positions)| == 0 <==> e.rows == []
    ensures e.rows == [] ==> (map row | row in e.rows :: Elements(PositionsAt(e.positions, row))) == map[]
  {
  }

  // ---- cutting into groups ----

  function RawTermBytes(entries: seq<Entry>): nat {
    if entries == [] then 0 else RawTermBytes(entries[..|entries| - 1]) + |entries[|entries| - 1].term|
  }

  /** A group is a single entry, or stays within both limits. */
  ghost predicate Bounded(chunk: seq<Entry>, positioned: bool) {
    && AllFit(chunk) && chunk != []
    && (|chunk| == 1 || (TotalSize(chunk, positioned) <= POSTINGS_LIMIT && RawTermBytes(chunk) <= RAW_TERM_LIMIT))
  }

  ghost predicate GroupsFor(chunks: seq<seq<Entry>>, positioned: bool, groups: seq<RowGroup>) {
    |groups| == |chunks| && forall i :: 0 <= i < |chunks| ==> GroupFor(chunks[i], positioned, groups[i]) && Bounded(chunks[i], positioned)
  }

  lemma {:induction false} ChunkAppend(chunk: seq<Entry>, e: Entry, positioned: bool)
    requires AllFit(chunk) && Fits(e)
    ensures AllFit(chunk + [e])
    ensures TotalSize(chunk + [e], positioned) == TotalSize(chunk, positioned) + EncodedSize(e, positioned)
    ensures RawTermBytes(chunk + [e]) == RawTermBytes(chunk) + |e.term|
  {
    assert (chunk + [e])[..|chunk|] == chunk;
    hide Fits, EncodedSize;
  }

  lemma {:induction false} ChunkOrdered(entries: seq<Entry>, done: seq<Entry>, chunk: seq<Entry>, rest: seq<Entry>)
    requires EntryOrder(entries) && entries == done + chunk + rest
    ensures EntryOrder(chunk)
  {
    forall i, j | 0 <= i < j < |chunk|
      ensures BytesLess(chunk[i].term, chunk[j].term)
    {
      assert chunk[i] == entries[|done| + i] && chunk[j] == entries[|done| + j];
    }
  }

  lemma {:induction false} SmallChunk(entries: seq<Entry>, done: seq<Entry>, chunk: seq<Entry>, rest: seq<Entry>, positioned: bool)
    requires Small(entries, positioned) && entries == done + chunk + rest
    ensures Small(chunk, positioned)
  {
    hide Narrow;
    assert forall i :: 0 <= i < |chunk| ==> chunk[i] == entries[|done| + i];
  }

  lemma {:induction false} SmallJoin(a: seq<Entry>, b: seq<Entry>, positioned: bool)
    requires Small(a, positioned) && Small(b, positioned)
    ensures Small(a + b, positioned)
  {
    hide Narrow;
  }

  lemma {:induction false} FirstGroupFor(chunks: seq<seq<Entry>>, positioned: bool, groups: seq<RowGroup>)
    requires GroupsFor(chunks, positioned, groups) && chunks != []
    ensures groups != [] && GroupFor(chunks[0], positioned, groups[0]) && GroupsFor(chunks[1..], positioned, groups[1..])
  {
    hide GroupFor, Bounded;
  }

  lemma {:induction false} SmallGroups(chunks: seq<seq<Entry>>, positioned: bool, groups: seq<RowGroup>)
    requires GroupsFor(chunks, positioned, groups)
    ensures Small(Flatten(chunks), positioned)
  {
    if chunks != [] {
      hide *;
      FirstGroupFor(chunks, positioned, groups);
      EncodedIsSmall(chunks[0], positioned, groups[0]);
      SmallGroups(chunks[1..], positioned, groups[1..]);
      SmallJoin(chunks[0], Flatten(chunks[1..]), positioned);
      FlattenUnfold(chunks);
    }
  }

  /** The first `i` entries are in finished groups or in the current one. */
  ghost predicate Cutting(
    entries: seq<Entry>, i: nat, positioned: bool, chunks: seq<seq<Entry>>, groups: seq<RowGroup>, current: seq<Entry>, size: nat, raw: nat)
  {
    && i <= |entries| && AllFit(entries) && entries[..i] == Flatten(chunks) + current
    && AllFit(current) && (current == [] || Bounded(current, positioned))
    && size == TotalSize(current, positioned) && raw == RawTermBytes(current)
    && GroupsFor(chunks, positioned, groups)
  }

  lemma {:induction false} CuttingStarts(entries: seq<Entry>, positioned: bool)
    requires AllFit(entries)
    ensures Cutting(entries, 0, positioned, [], [], [], 0, 0)
  {
    EmptySizes(positioned);
    assert Flatten<Entry>([]) + [] == [];
  }

  lemma {:induction false} EntryJoins(
    entries: seq<Entry>, i: nat, positioned: bool, chunks: seq<seq<Entry>>, groups: seq<RowGroup>, current: seq<Entry>, size: nat, raw: nat)
    requires Cutting(entries, i, positioned, chunks, groups, current, size, raw) && i < |entries| && Fits(entries[i])
    requires current != [] ==>
      size + EncodedSize(entries[i], positioned) <= POSTINGS_LIMIT && raw + |entries[i].term| <= RAW_TERM_LIMIT
    ensures Cutting(entries, i + 1, positioned, chunks, groups, current + [entries[i]],
                    size + EncodedSize(entries[i], positioned), raw + |entries[i].term|)
  {
    hide Fits, EncodedSize, TotalSize, RawTermBytes, Flatten, GroupsFor;
    ChunkAppend(current, entries[i], positioned);
    assert entries[..i + 1] == entries[..i] + [entries[i]];
    assert (Flatten(chunks) + current) + [entries[i]] == Flatten(chunks) + (current + [entries[i]]);
  }

  lemma {:induction false} GroupCloses(
    entries: seq<Entry>, i: nat, positioned: bool, chunks: seq<seq<Entry>>, groups: seq<RowGroup>, current: seq<Entry>, size: nat, raw: nat, g: RowGroup)
    requires Cutting(entries, i, positioned, chunks, groups, current, size, raw) && current != [] && GroupFor(current, positioned, g)
    ensures Cutting(entries, i, positioned, chunks + [current], groups + [g], [], 0, 0)
  {
    hide Fits, TotalSize, RawTermBytes, Flatten, GroupFor, Bounded;
    assert Bounded(current, positioned);
    FlattenAppend(chunks, current);
    EmptySizes(positioned);
    assert Flatten(chunks + [current]) + [] == Flatten(chunks + [current]);
  }

  lemma {:induction false} CurrentEncodes(
    entries: seq<Entry>, i: nat, positioned: bool, chunks: seq<seq<Entry>>, groups: seq<RowGroup>, current: seq<Entry>, size: nat, raw: nat)
    requires Cutting(entries, i, positioned, chunks, groups, current, size, raw) && current != [] && EntryOrder(entries)
    ensures AllFit(current) && EntryOrder(current)
    ensures |current| == 1 || TotalSize(current, positioned) <= U32_MAX
    ensures Small(entries, positioned) ==> Small(current, positioned)
  {
    hide Fits, TotalSize, RawTermBytes, Flatten, GroupsFor, Small, EntryOrder;
    assert entries == Flatten(chunks) + current + entries[i..];
    ChunkOrdered(entries, Flatten(chunks), current, entries[i..]);
    if Small(entries, positioned) {
      SmallChunk(entries, Flatten(chunks), current, entries[i..], positioned);
    }
  }

  /**
   `build_row_groups`: the groups hold the entries in order and nothing else, each within
   the limits or a single entry; it fails exactly when some entry's lists are too long
   for a u32.
   */
  method BuildRowGroups(entries: seq<Entry>, positioned: bool)
    returns (result: Result<seq<RowGroup>, BuildError>, ghost chunks: seq<seq<Entry>>)
    requires AllFit(entries) && EntryOrder(entries)
    ensures result.Ok? ==> Flatten(chunks) == entries && GroupsFor(chunks, positioned, result.value)
    ensures result.Ok? ==> WellCut(result.value)
    ensures result.Err? ==> result.error == TooLarge
    ensures result.Ok? <==> Small(entries, positioned)
  {
    var groups: seq<RowGroup>, current: seq<Entry>, size: nat, raw: nat := [], [], 0, 0;
    chunks := [];
    LoopStarts(entries, positioned);
    hide *;
    for i := 0 to |entries|
      invariant Grouping(entries, i, positioned, chunks, groups, current, size, raw)
    {
      var ok: bool;
      ok, chunks, groups, current, size, raw := PlaceEntry(entries, i, positioned, chunks, groups, current, size, raw);
      if !ok {
        return Err(TooLarge), chunks;
      }
    }
    GroupingIs(entries, |entries|, positioned, chunks, groups, current, size, raw);
    if current != [] {
      var g := CloseGroup(entries, |entries|, positioned, chunks, groups, current, size, raw);
      if g.Err? {
        return Err(g.error), chunks;
      }
      LastLate(chunks, current, positioned);
      groups, chunks := groups + [g.value], chunks + [current];
      current, size, raw := [], 0, 0;
    }
    CuttingEnds(entries, positioned, chunks, groups, size, raw);
    SmallGroups(chunks, positioned, groups);
    GroupsWellCut(chunks, positioned, groups);
    result := Ok(groups);
  }

  /** One turn of the loop: the current group is closed if the entry would take it over a limit, and the entry joins. */
  method PlaceEntry(
    entries: seq<Entry>, i: nat, positioned: bool, ghost chunks: seq<seq<Entry>>, groups: seq<RowGroup>, current: seq<Entry>, size: nat, raw: nat)
    returns (ok: bool, ghost newChunks: seq<seq<Entry>>, newGroups: seq<RowGroup>, newCurrent: seq<Entry>, newSize: nat, newRaw: nat)
    requires i < |entries| && AllFit(entries) && EntryOrder(entries)
    requires Grouping(entries, i, positioned, chunks, groups, current, size, raw)
    ensures ok ==> Grouping(entries, i + 1, positioned, newChunks, newGroups, newCurrent, newSize, newRaw)
    ensures !ok ==> !Small(entries, positioned)
  {
    hide *;
    ok, newChunks, newGroups, newCurrent, newSize, newRaw := true, chunks, groups, current, size, raw;
    var e := entries[i];
    NextFits(entries, i);
    GroupingReady(entries, i, positioned, chunks, groups, current, size, raw);
    if current != [] && (size + EncodedSize(e, positioned) > POSTINGS_LIMIT || raw + |e.term| > RAW_TERM_LIMIT) {
      var g := CloseGroup(entries, i, positioned, chunks, groups, current, size, raw);
      if g.Err? {
        ok := false;
        return;
      }
      CloseFull(entries, i, positioned, chunks, groups, current, size, raw, g.value);
      newGroups, newChunks := groups + [g.value], chunks + [current];
      newCurrent, newSize, newRaw := [], 0, 0;
    }
    JoinReady(entries, i, positioned, newChunks, newGroups, newCurrent, newSize, newRaw);
    newSize, newRaw := newSize + EncodedSize(e, positioned), newRaw + |e.term|;
    newCurrent := newCurrent + [e];
  }

  // ---- cut no earlier than the limits ask ----

  /** The entry would take the chunk over one of the limits. */
  ghost predicate NoRoom(chunk: seq<Entry>, e: Entry, positioned: bool) {
    AllFit(chunk) && Fits(e)
    && (TotalSize(chunk, positioned) + EncodedSize(e, positioned) > POSTINGS_LIMIT || RawTermBytes(chunk) + |e.term| > RAW_TERM_LIMIT)
  }

  /** Every chunk but the first starts with an entry for which the one before had no room; so does the current one, if it has started. */
  ghost predicate CutLate(chunks: seq<seq<Entry>>, current: seq<Entry>, positioned: bool) {
    && (forall k :: 0 < k < |chunks| ==> chunks[k] != [] && NoRoom(chunks[k - 1], chunks[k][0], positioned))
    && (chunks != [] && current != [] ==> NoRoom(chunks[|chunks| - 1], current[0], positioned))
  }

  /** A finished chunk had no room for the entry that comes next. */
  ghost predicate NextHasNoRoom(chunks: seq<seq<Entry>>, e: Entry, positioned: bool) {
    chunks != [] ==> NoRoom(chunks[|chunks| - 1], e, positioned)
  }

  /** The loop so far: entries cut into chunks, none too early. */
  ghost predicate Grouping(
    entries: seq<Entry>, i: nat, positioned: bool, chunks: seq<seq<Entry>>, groups: seq<RowGroup>, current: seq<Entry>, size: nat, raw: nat)
  {
    && Cutting(entries, i, positioned, chunks, groups, current, size, raw)
    && CutLate(chunks, current, positioned) && (current == [] ==> chunks == [])
  }

  /** The same, with the next entry about to join. */
  ghost predicate Ready(
    entries: seq<Entry>, i: nat, positioned: bool, chunks: seq<seq<Entry>>, groups: seq<RowGroup>, current: seq<Entry>, size: nat, raw: nat)
    requires i < |entries|
  {
    && Cutting(entries, i, positioned, chunks, groups, current, size, raw)
    && CutLate(chunks, current, positioned) && (current == [] ==> NextHasNoRoom(chunks, entries[i], positioned))
  }

  lemma {:induction false} LoopStarts(entries: seq<Entry>, positioned: bool)
    requires AllFit(entries)
    ensures Grouping(entries, 0, positioned, [], [], [], 0, 0)
  {
    CuttingStarts(entries, positioned);
    hide Cutting;
  }

  lemma {:induction false} GroupingIs(
    entries: seq<Entry>, i: nat, positioned: bool, chunks: seq<seq<Entry>>, groups: seq<RowGroup>, current: seq<Entry>, size: nat, raw: nat)
    requires Grouping(entries, i, positioned, chunks, groups, current, size, raw)
    ensures Cutting(entries, i, positioned, chunks, groups, current, size, raw) && CutLate(chunks, current, positioned)
  {
    hide Cutting, CutLate;
  }

  lemma {:induction false} GroupingReady(
    entries: seq<Entry>, i: nat, positioned: bool, chunks: seq<seq<Entry>>, groups: seq<RowGroup>, current: seq<Entry>, size: nat, raw: nat)
    requires Grouping(entries, i, positioned, chunks, groups, current, size, raw) && i < |entries|
    ensures Ready(entries, i, positioned, chunks, groups, current, size, raw)
    ensures Cutting(entries, i, positioned, chunks, groups, current, size, raw)
  {
    hide Cutting, CutLate, NoRoom;
  }

  lemma {:induction false} CloseFull(
    entries: seq<Entry>, i: nat, positioned: bool, chunks: seq<seq<Entry>>, groups: seq<RowGroup>, current: seq<Entry>, size: nat, raw: nat, g: RowGroup)
    requires i < |entries| && Ready(entries, i, positioned, chunks, groups, current, size, raw) && current != [] && Fits(entries[i])
    requires size + EncodedSize(entries[i], positioned) > POSTINGS_LIMIT || raw + |entries[i].term| > RAW_TERM_LIMIT
    requires Cutting(entries, i, positioned, chunks + [current], groups + [g], [], 0, 0)
    ensures Ready(entries, i, positioned, chunks + [current], groups + [g], [], 0, 0)
  {
    NoMoreRoom(entries, i, positioned, chunks, groups, current, size, raw);
    hide Cutting, CutLate, NextHasNoRoom, EncodedSize, Fits;
  }

  lemma {:induction false} JoinReady(
    entries: seq<Entry>, i: nat, positioned: bool, chunks: seq<seq<Entry>>, groups: seq<RowGroup>, current: seq<Entry>, size: nat, raw: nat)
    requires i < |entries| && Ready(entries, i, positioned, chunks, groups, current, size, raw) && Fits(entries[i])
    requires current != [] ==>
      size + EncodedSize(entries[i], positioned) <= POSTINGS_LIMIT && raw + |entries[i].term| <= RAW_TERM_LIMIT
    ensures Grouping(entries, i + 1, positioned, chunks, groups, current + [entries[i]],
                     size + EncodedSize(entries[i], positioned), raw + |entries[i].term|)
  {
    EntryJoins(entries, i, positioned, chunks, groups, current, size, raw);
    StillLate(chunks, current, entries[i], positioned);
    hide Cutting, CutLate, EncodedSize, Fits;
  }

  lemma {:induction false} NoMoreRoom(
    entries: seq<Entry>, i: nat, positioned: bool, chunks: seq<seq<Entry>>, groups: seq<RowGroup>, current: seq<Entry>, size: nat, raw: nat)
    requires Cutting(entries, i, positioned, chunks, groups, current, size, raw) && CutLate(chunks, current, positioned)
    requires current != [] && i < |entries| && Fits(entries[i])
    requires size + EncodedSize(entries[i], positioned) > POSTINGS_LIMIT || raw + |entries[i].term| > RAW_TERM_LIMIT
    ensures CutLate(chunks + [current], [], positioned) && NextHasNoRoom(chunks + [current], entries[i], positioned)
  {
    hide Fits, TotalSize, RawTermBytes, EncodedSize, GroupsFor, Flatten;
    LastLate(chunks, current, positioned);
  }

  lemma {:induction false} LastLate(chunks: seq<seq<Entry>>, current: seq<Entry>, positioned: bool)
    requires CutLate(chunks, current, positioned) && current != []
    ensures CutLate(chunks + [current], [], positioned)
  {
    hide NoRoom;
  }

  lemma {:induction false} StillLate(chunks: seq<seq<Entry>>, current: seq<Entry>, e: Entry, positioned: bool)
    requires CutLate(chunks, current, positioned) && (current == [] ==> NextHasNoRoom(chunks, e, positioned))
    ensures CutLate(chunks, current + [e], positioned)
  {
    hide NoRoom;
  }

  function TermBytes(terms: seq<ByteString>): nat {
    if terms == [] then 0 else TermBytes(terms[..|terms| - 1]) + |terms[|terms| - 1]|
  }

  /** At most 32 MiB of lists and 64 MiB of terms in a group of several, and no group that had room for the first term of the next. */
  ghost predicate WellCut(groups: seq<RowGroup>) {
    && (forall k :: 0 <= k < |groups| && |groups[k].terms| > 1 ==>
          |groups[k].postings| + |groups[k].positions| <= 33_554_432 && TermBytes(groups[k].terms) <= 67_108_864)
    && (forall k :: 0 < k < |groups| ==> FullFor(groups[k - 1], groups[k]))
  }

  ghost predicate FullFor(g: RowGroup, next: RowGroup) {
    && next.infos != [] && next.terms != []
    && (|g.postings| + |g.positions| + next.infos[0].postingsLen + next.infos[0].positionsLen > 33_554_432
        || TermBytes(g.terms) + |next.terms[0]| > 67_108_864)
  }

  lemma {:induction false} TermBytesAre(entries: seq<Entry>)
    ensures TermBytes(Terms(entries)) == RawTermBytes(entries)
  {
    if entries != [] {
      var n := |entries| - 1;
      TermBytesAre(entries[..n]);
      assert Terms(entries)[..n] == Terms(entries[..n]);
    }
  }

  /** A group's sizes are those of its entries. */
  lemma {:induction false} GroupSizes(chunk: seq<Entry>, positioned: bool, g: RowGroup)
    requires GroupFor(chunk, positioned, g)
    ensures |g.terms| == |chunk| && chunk != [] && TermBytes(g.terms) == RawTermBytes(chunk)
    ensures AllFit(chunk) && |g.postings| + |g.positions| == TotalSize(chunk, positioned)
    ensures g.infos != [] && g.terms != [] && g.terms[0] == chunk[0].term
    ensures g.infos[0].postingsLen + g.infos[0].positionsLen == EncodedSize(chunk[0], positioned)
  {
    TermBytesAre(chunk);
    hide TermBytes, RawTermBytes, TotalSize, SlicesInOrder;
    assert InfoFor(chunk[0], positioned, g.infos[0], g.postings, g.positions);
    CutLength(g.postings, g.infos[0].postingsOffset, g.infos[0].postingsLen);
    CutLength(g.positions, g.infos[0].positionsOffset, g.infos[0].positionsLen);
  }

  lemma {:induction false} CutLength(bytes: ByteString, offset: nat, len: nat)
    ensures Cut(bytes, offset, len).Some? ==> |Cut(bytes, offset, len).value| == len
  {
  }

  lemma {:induction false} GroupsWellCut(chunks: seq<seq<Entry>>, positioned: bool, groups: seq<RowGroup>)
    requires GroupsFor(chunks, positioned, groups) && CutLate(chunks, [], positioned)
    ensures WellCut(groups)
  {
    hide GroupFor, TermBytes, RawTermBytes, TotalSize, EncodedSize, Fits;
    forall k | 0 <= k < |groups|
      ensures |groups[k].terms| > 1 ==>
        |groups[k].postings| + |groups[k].positions| <= 33_554_432 && TermBytes(groups[k].terms) <= 67_108_864
      ensures k > 0 ==> FullFor(groups[k - 1], groups[k])
    {
      assert GroupFor(chunks[k], positioned, groups[k]) && Bounded(chunks[k], positioned);
      GroupSizes(chunks[k], positioned, groups[k]);
      if k > 0 {
        assert GroupFor(chunks[k - 1], positioned, groups[k - 1]);
        GroupSizes(chunks[k - 1], positioned, groups[k - 1]);
        assert NoRoom(chunks[k - 1], chunks[k][0], positioned);
      }
    }
  }

  method CloseGroup(
    ghost entries: seq<Entry>, ghost i: nat, positioned: bool, ghost chunks: seq<seq<Entry>>, ghost groups: seq<RowGroup>,
    current: seq<Entry>, ghost size: nat, ghost raw: nat)
    returns (g: Result<RowGroup, BuildError>)
    requires Cutting(entries, i, positioned, chunks, groups, current, size, raw) && current != [] && EntryOrder(entries)
    ensures g.Ok? ==> Cutting(entries, i, positioned, chunks + [current], groups + [g.value], [], 0, 0)
    ensures g.Err? ==> g.error == TooLarge && !Small(entries, positioned)
  {
    hide *;
    CurrentEncodes(entries, i, positioned, chunks, groups, current, size, raw);
    g := EncodeRowGroup(current, positioned);
    if g.Ok? {
      GroupCloses(entries, i, positioned, chunks, groups, current, size, raw, g.value);
    }
  }

  lemma {:induction false} NextFits(entries: seq<Entry>, i: nat)
    requires AllFit(entries) && i < |entries|
    ensures Fits(entries[i])
  {
  }

  lemma {:induction false} CuttingEnds(entries: seq<Entry>, positioned: bool, chunks: seq<seq<Entry>>, groups: seq<RowGroup>, size: nat, raw: nat)
    requires Cutting(entries, |entries|, positioned, chunks, groups, [], size, raw)
    ensures Flatten(chunks) == entries && GroupsFor(chunks, positioned, groups)
  {
    assert entries[..|entries|] == entries;
    assert Flatten(chunks) + [] == Flatten(chunks);
  }

  lemma {:induction false} EmptySizes(positioned: bool)
    ensures TotalSize([], positioned) == 0 && RawTermBytes([]) == 0
  {
  }
}
