/** What lookups find in groups that were built from entries, and so from occurrences (src/search/mod.rs). */
module BuiltIndex {
  import opened Wrappers
  import opened Bytes
  import opened Sequences
  import opened PositionCodec
  import opened SearchIndexData
  import opened SearchPredicates
  import opened SearchEvaluation
  import opened TermEntries
  import opened RowGroups

  ghost predicate Built(entries: seq<Entry>, positioned: bool, chunks: seq<seq<Entry>>, groups: seq<RowGroup>) {
    EntryOrder(entries) && Flatten(chunks) == entries && GroupsFor(chunks, positioned, groups)
  }

  // ---- entries and their places ----

  ghost predicate PlacedAt(chunks: seq<seq<Entry>>, i: nat, o: nat, e: Entry) {
    i < |chunks| && o < |chunks[i]| && chunks[i][o] == e
  }

  lemma {:induction false} EntryPlaced(chunks: seq<seq<Entry>>, e: Entry)
    ensures e in Flatten(chunks) <==> exists i: nat, o: nat :: PlacedAt(chunks, i, o, e)
  {
    if chunks != [] {
      var n := |chunks| - 1;
      EntryPlaced(chunks[..n], e);
      FlattenLast(chunks);
      assert e in Flatten(chunks) <==> e in Flatten(chunks[..n]) || e in chunks[n];
      assert forall i: nat, o: nat :: PlacedAt(chunks[..n], i, o, e) ==> PlacedAt(chunks, i, o, e);
      assert forall i: nat, o: nat :: PlacedAt(chunks, i, o, e) ==> PlacedAt(chunks[..n], i, o, e) || e in chunks[n];
      if e in chunks[n] {
        var o :| 0 <= o < |chunks[n]| && chunks[n][o] == e;
        assert PlacedAt(chunks, n, o, e);
      }
    }
  }

  /** Where chunk `i` starts in the flat sequence. */
  ghost function StartOf(chunks: seq<seq<Entry>>, i: nat): nat
    requires i <= |chunks|
  {
    |Flatten(chunks[..i])|
  }

  lemma {:induction false} PlaceInOrder(chunks: seq<seq<Entry>>, i: nat, o: nat)
    requires i < |chunks| && o < |chunks[i]|
    ensures StartOf(chunks, i) + o < |Flatten(chunks)| && Flatten(chunks)[StartOf(chunks, i) + o] == chunks[i][o]
    ensures StartOf(chunks, i) + |chunks[i]| == StartOf(chunks, i + 1)
  {
    var n := |chunks| - 1;
    var front := chunks[..n];
    FlattenLast(chunks);
    if i < n {
      PlaceInOrder(front, i, o);
      assert front[..i] == chunks[..i] && front[..i + 1] == chunks[..i + 1];
    } else {
      assert chunks[..i] == front && chunks[..i + 1] == chunks;
    }
  }

  lemma {:induction false} StartsAscend(chunks: seq<seq<Entry>>, i: nat, j: nat)
    requires i <= j <= |chunks|
    ensures StartOf(chunks, i) <= StartOf(chunks, j)
  {
    if i < j {
      StartsAscend(chunks, i, j - 1);
      FlattenLast(chunks[..j]);
      assert chunks[..j][..j - 1] == chunks[..j - 1];
    }
  }

  /** Groups follow one another: everything in an earlier group sorts before everything in a later one. */
  lemma {:induction false} GroupsDisjoint(entries: seq<Entry>, positioned: bool, chunks: seq<seq<Entry>>, groups: seq<RowGroup>, i: nat, j: nat)
    requires Built(entries, positioned, chunks, groups) && i < j < |groups|
    ensures BytesLess(groups[i].maxTerm, groups[j].minTerm)
  {
    assert GroupFor(chunks[i], positioned, groups[i]) && GroupFor(chunks[j], positioned, groups[j]);
    PlaceInOrder(chunks, i, |chunks[i]| - 1);
    PlaceInOrder(chunks, j, 0);
    StartsAscend(chunks, i + 1, j);
  }

  lemma {:induction false} ChunkInOrder(entries: seq<Entry>, chunks: seq<seq<Entry>>, i: nat, a: nat, b: nat)
    requires EntryOrder(entries) && Flatten(chunks) == entries && i < |chunks| && a <= b < |chunks[i]|
    ensures BytesLeq(chunks[i][a].term, chunks[i][b].term)
  {
    hide Flatten, BytesLeq;
    PlaceInOrder(chunks, i, a);
    PlaceInOrder(chunks, i, b);
    BytesLeqTotal(chunks[i][a].term, chunks[i][b].term);
    if a < b {
      var start := StartOf(chunks, i);
      assert BytesLess(entries[start + a].term, entries[start + b].term);
    }
  }

  lemma {:induction false} BuiltParts(entries: seq<Entry>, positioned: bool, chunks: seq<seq<Entry>>, groups: seq<RowGroup>, i: nat)
    requires Built(entries, positioned, chunks, groups) && i < |groups|
    ensures EntryOrder(entries) && Flatten(chunks) == entries && |chunks| == |groups| && GroupFor(chunks[i], positioned, groups[i])
  {
    hide Flatten, EntryOrder, GroupFor;
  }

  /** A group's first and last terms bound the rest. */
  lemma {:induction false} WithinSpan(entries: seq<Entry>, positioned: bool, chunks: seq<seq<Entry>>, groups: seq<RowGroup>, i: nat, o: nat)
    requires Built(entries, positioned, chunks, groups) && i < |groups| && o < |chunks[i]|
    ensures BytesLeq(groups[i].minTerm, chunks[i][o].term) && BytesLeq(chunks[i][o].term, groups[i].maxTerm)
    ensures |groups[i].terms| == |chunks[i]| && groups[i].terms[o] == chunks[i][o].term
  {
    BuiltParts(entries, positioned, chunks, groups, i);
    hide *;
    GroupSpan(chunks[i], positioned, groups[i], o);
    ChunkInOrder(entries, chunks, i, 0, o);
    ChunkInOrder(entries, chunks, i, o, |chunks[i]| - 1);
  }

  lemma {:induction false} GroupSpan(chunk: seq<Entry>, positioned: bool, g: RowGroup, o: nat)
    requires GroupFor(chunk, positioned, g) && o < |chunk|
    ensures g.minTerm == chunk[0].term && g.maxTerm == chunk[|chunk| - 1].term
    ensures |g.terms| == |chunk| && g.terms[o] == chunk[o].term
  {
    hide InfosFor;
  }

  /** FST keys of every group are strictly increasing. */
  lemma {:induction false} GroupTermsIncrease(entries: seq<Entry>, positioned: bool, chunks: seq<seq<Entry>>, groups: seq<RowGroup>, i: nat)
    requires Built(entries, positioned, chunks, groups) && i < |groups|
    ensures StrictlyIncreasing(groups[i].terms)
  {
    assert GroupFor(chunks[i], positioned, groups[i]);
    forall o, o' | 0 <= o < o' < |chunks[i]|
      ensures BytesLess(chunks[i][o].term, chunks[i][o'].term)
    {
      PlaceInOrder(chunks, i, o);
      PlaceInOrder(chunks, i, o');
    }
  }

  // ---- pruning never hides an entry ----

  lemma {:induction false} ValuePruningSound(minTerm: ByteString, maxTerm: ByteString, field: SearchField, token: ByteString, term: ByteString)
    requires BytesLeq(minTerm, term) && BytesLeq(term, maxTerm) && LooksForValue(term, field, token)
    ensures ValueGroupMayHit(minTerm, maxTerm, field, token)
  {
    if !field.ExactPath? {
      PruningKeepsPrefix(minTerm, maxTerm, ValuePrefix(token), term);
    }
  }

  lemma {:induction false} KeyPruningSound(minTerm: ByteString, maxTerm: ByteString, pattern: ByteString, term: ByteString)
    requires BytesLeq(minTerm, term) && BytesLeq(term, maxTerm) && LooksForKey(term, pattern)
    ensures KeyGroupMayHit(minTerm, maxTerm, pattern)
  {
    var normal := NormalizePattern(pattern);
    hide NormalizePattern, PathMatchesPattern, OverlapsPrefix;
    if STAR in normal && TrailingWildcardPrefix(normal).Some? {
      PruningKeepsPrefix(minTerm, maxTerm, TrailingWildcardPrefix(normal).value, term);
    }
  }

  // ---- lookups over entries ----

  ghost predicate EntryHasToken(entries: seq<Entry>, field: SearchField, token: ByteString, row: nat) {
    exists e :: e in entries && LooksForValue(e.term, field, token) && row in e.rows
  }

  ghost predicate SpotIn(e: Entry, spot: Spot) {
    TermPath(e.term) == spot.path && spot.row in e.rows && spot.position in PositionsAt(e.positions, spot.row)
  }

  ghost predicate EntryHasSpot(entries: seq<Entry>, field: SearchField, token: ByteString, spot: Spot) {
    exists e :: e in entries && LooksForValue(e.term, field, token) && SpotIn(e, spot)
  }

  ghost predicate EntryHasKey(entries: seq<Entry>, pattern: ByteString, row: nat) {
    exists e :: e in entries && LooksForKey(e.term, pattern) && row in e.rows
  }

  /** The term at a place is the entry there. */
  lemma {:induction false} TermAtPlace(entries: seq<Entry>, positioned: bool, chunks: seq<seq<Entry>>, groups: seq<RowGroup>, i: nat, o: nat, includePositions: bool)
    requires Built(entries, positioned, chunks, groups) && i < |groups| && o < |groups[i].terms| && (includePositions ==> positioned)
    ensures o < |chunks[i]| && chunks[i][o] in entries && groups[i].terms[o] == chunks[i][o].term
    ensures TermAt(groups[i], o, includePositions) == Some(DecodedEntry(chunks[i][o], includePositions))
  {
    assert GroupFor(chunks[i], positioned, groups[i]);
    EntryDecodes(chunks[i], positioned, groups[i], o, includePositions);
    assert PlacedAt(chunks, i, o, chunks[i][o]);
    EntryPlaced(chunks, chunks[i][o]);
    hide GroupFor, Flatten, TermAt, DecodedEntry;
  }

  lemma {:induction false} TokenRowsBuilt(entries: seq<Entry>, positioned: bool, chunks: seq<seq<Entry>>, groups: seq<RowGroup>, field: SearchField, token: ByteString, row: nat)
    requires Built(entries, positioned, chunks, groups)
    ensures TokenInRow(groups, field, token, row) <==> EntryHasToken(entries, field, token, row)
  {
    hide TermAt, LooksForValue, ValueGroupMayHit, GroupFor, EntryOrder, TermPath, Flatten;
    if TokenInRow(groups, field, token, row) {
      var i: nat, o: nat :| i < |groups| && ReadsValue(groups[i], o, field, token) && HasRow(TermAt(groups[i], o, false), row);
      TermAtPlace(entries, positioned, chunks, groups, i, o, false);
      assert row in chunks[i][o].rows;
    }
    if EntryHasToken(entries, field, token, row) {
      var e :| e in entries && LooksForValue(e.term, field, token) && row in e.rows;
      EntryPlaced(chunks, e);
      var i: nat, o: nat :| PlacedAt(chunks, i, o, e);
      WithinSpan(entries, positioned, chunks, groups, i, o);
      ValuePruningSound(groups[i].minTerm, groups[i].maxTerm, field, token, e.term);
      TermAtPlace(entries, positioned, chunks, groups, i, o, false);
      assert ReadsValue(groups[i], o, field, token) && HasRow(TermAt(groups[i], o, false), row);
    }
  }

  lemma {:induction false} SpotsBuilt(entries: seq<Entry>, chunks: seq<seq<Entry>>, groups: seq<RowGroup>, field: SearchField, token: ByteString, spot: Spot)
    requires Built(entries, true, chunks, groups)
    ensures TokenAtSpot(groups, field, token, spot) <==> EntryHasSpot(entries, field, token, spot)
  {
    hide TermAt, LooksForValue, ValueGroupMayHit, GroupFor, EntryOrder, TermPath, Flatten, PositionsAt;
    if TokenAtSpot(groups, field, token, spot) {
      var i: nat, o: nat :| i < |groups| && ReadsValue(groups[i], o, field, token) && HasSpot(TermAt(groups[i], o, true), spot);
      TermAtPlace(entries, true, chunks, groups, i, o, true);
      assert SpotIn(chunks[i][o], spot);
    }
    if EntryHasSpot(entries, field, token, spot) {
      var e :| e in entries && LooksForValue(e.term, field, token) && SpotIn(e, spot);
      EntryPlaced(chunks, e);
      var i: nat, o: nat :| PlacedAt(chunks, i, o, e);
      WithinSpan(entries, true, chunks, groups, i, o);
      ValuePruningSound(groups[i].minTerm, groups[i].maxTerm, field, token, e.term);
      TermAtPlace(entries, true, chunks, groups, i, o, true);
      assert ReadsValue(groups[i], o, field, token) && HasSpot(TermAt(groups[i], o, true), spot);
    }
  }

  lemma {:induction false} KeyRowsBuilt(entries: seq<Entry>, positioned: bool, chunks: seq<seq<Entry>>, groups: seq<RowGroup>, pattern: ByteString, row: nat)
    requires Built(entries, positioned, chunks, groups)
    ensures KeyInRow(groups, pattern, row) <==> EntryHasKey(entries, pattern, row)
  {
    hide TermAt, LooksForKey, KeyGroupMayHit, GroupFor, EntryOrder, TermPath, Flatten;
    if KeyInRow(groups, pattern, row) {
      var i: nat, o: nat :| i < |groups| && ReadsKey(groups[i], o, pattern) && HasRow(TermAt(groups[i], o, false), row);
      TermAtPlace(entries, positioned, chunks, groups, i, o, false);
      assert row in chunks[i][o].rows;
    }
    if EntryHasKey(entries, pattern, row) {
      var e :| e in entries && LooksForKey(e.term, pattern) && row in e.rows;
      EntryPlaced(chunks, e);
      var i: nat, o: nat :| PlacedAt(chunks, i, o, e);
      WithinSpan(entries, positioned, chunks, groups, i, o);
      KeyPruningSound(groups[i].minTerm, groups[i].maxTerm, pattern, e.term);
      TermAtPlace(entries, positioned, chunks, groups, i, o, false);
      assert ReadsKey(groups[i], o, pattern) && HasRow(TermAt(groups[i], o, false), row);
    }
  }
}
