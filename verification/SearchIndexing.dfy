/**
 From records to a search index that answers like a scan of the records
 (src/search/indexer.rs, src/search/mod.rs).
 */
module SearchIndexing {
  import opened Wrappers
  import opened Bytes
  import opened Sequences
  import opened ListCodec
  import opened PositionCodec
  import opened SearchIndexData
  import opened SearchPredicates
  import opened SearchEvaluation
  import opened TermEntries
  import opened RowGroups
  import opened BuiltIndex
  import opened TokenStreams
  import opened SearchScan
  import opened Indexer
  import opened RecordMeaning
  import opened IndexSizes
  import TermSlices
  import IndexFormat
  import SearchLoading

  // ---- entries can be encoded ----

  lemma {:induction false} AscendingBelow(xs: seq<nat>, limit: nat)
    requires StrictlyAscending(xs) && forall x :: x in xs ==> x < limit
    ensures |xs| <= limit
    decreases |xs|
  {
    if xs != [] {
      var last := xs[|xs| - 1];
      assert last in xs;
      AscendingBelow(xs[..|xs| - 1], last);
    }
  }

  ghost predicate OccurrencesBelow(occs: seq<Occurrence>, positioned: bool, limit: nat) {
    forall o :: o in occs ==> o.row < limit && (positioned ==> o.position < limit)
  }

  lemma {:induction false} ListFits(xs: seq<nat>, limit: nat)
    requires StrictlyAscending(xs) && limit <= U32_MAX && forall x :: x in xs ==> x < limit
    ensures AllU32(xs) && Ascending(xs) && |xs| <= U32_MAX
  {
    AscendingBelow(xs, limit);
    assert forall i :: 0 <= i < |xs| ==> xs[i] in xs;
  }

  lemma {:induction false} EntryFits(terms: seq<ByteString>, occs: seq<Occurrence>, e: Entry, positioned: bool, limit: nat)
    requires Describes(terms, occs, e, positioned) && OccurrencesBelow(occs, positioned, limit) && limit <= U32_MAX
    ensures Fits(e)
  {
    forall row | row in e.rows
      ensures row < limit
    {
      assert row in Members(e.rows);
    }
    ListFits(e.rows, limit);
    forall i | 0 <= i < |e.rows|
      ensures var list := PositionsAt(e.positions, e.rows[i]); AllU32(list) && Ascending(list) && |list| <= U32_MAX
    {
      var row := e.rows[i];
      var list := PositionsAt(e.positions, row);
      if row in e.positions {
        forall x | x in list
          ensures x < limit
        {
          assert x in Members(list);
        }
        ListFits(list, limit);
      }
    }
  }

  lemma {:induction false} EntriesFit(terms: seq<ByteString>, occs: seq<Occurrence>, entries: seq<Entry>, positioned: bool, limit: nat)
    requires EntriesFor(terms, occs, entries, positioned) && OccurrencesBelow(occs, positioned, limit) && limit <= U32_MAX
    ensures AllFit(entries)
  {
    hide Describes, Fits;
    forall i | 0 <= i < |entries|
      ensures Fits(entries[i])
    {
      EntryFits(terms, occs, entries[i], positioned, limit);
    }
  }

  // ---- rows of a content ----

  lemma {:induction false} PieceRows(c: Content, row: nat, piece: Piece)
    requires RowsInside(c, row + 1)
    ensures RowsInside(WithPiece(c, row, piece), row + 1)
  {
    var place := Place(row, piece.path);
    match piece
    case PathPiece(_) => SameStreams(c, WithPath(c, place));
    case TextPiece(_, text, exact, gap) =>
      var a := WithExact(c, place, exact);
      SameStreams(c, a);
      var b := WithPath(a, place);
      SameStreams(a, b);
      hide Says;
      AppendedRows(b, place, Somes(TokensOf(text)));
      AppendedRows(WithText(a, place, text), place, [None]);
  }

  lemma {:induction false} AppendedRows(c: Content, place: Place, more: Stream)
    requires RowsInside(c, place.row + 1)
    ensures RowsInside(Appended(c, place, more), place.row + 1)
  {
    hide Says;
    forall other: Place, k: nat, token | Says(Appended(c, place, more), other, k, token)
      ensures other.row < place.row + 1
    {
      SaysMore(c, place, more, other, k, token);
    }
  }

  lemma {:induction false} PiecesRows(c: Content, row: nat, pieces: seq<Piece>)
    requires RowsInside(c, row + 1)
    ensures RowsInside(WithPieces(c, row, pieces), row + 1)
  {
    if pieces != [] {
      PiecesRows(c, row, pieces[..|pieces| - 1]);
      PieceRows(WithPieces(c, row, pieces[..|pieces| - 1]), row, pieces[|pieces| - 1]);
    }
  }

  lemma {:induction false} RecordsRows(records: seq<Record>)
    ensures RowsInside(ContentOf(records), |records|)
  {
    hide Says;
    if records == [] {
      NothingSaid();
    } else {
      var n := |records| - 1;
      RecordsRows(records[..n]);
      MoreRows(ContentOf(records[..n]), n);
      PiecesRows(ContentOf(records[..n]), n, Pieces(records[n]));
    }
  }

  lemma {:induction false} NothingSaid()
    ensures RowsInside(EMPTY, 0)
  {
  }

  lemma {:induction false} MoreRows(c: Content, n: nat)
    requires RowsInside(c, n)
    ensures RowsInside(c, n + 1)
  {
  }

  lemma {:induction false} RecordsCounted(records: seq<Record>)
    ensures |records| <= RecordsLoad(records)
  {
    if records != [] {
      RecordsCounted(records[..|records| - 1]);
      RecordCounted(records[|records| - 1]);
    }
  }

  lemma {:induction false} RecordCounted(r: Record)
    ensures PiecesLoad(Pieces(r)) >= 1
  {
    LoadOfPrefix(Pieces(r), 0);
  }

  /** Occurrences are numbered by rows and by positions in streams. */
  lemma {:induction false} ValuesBelow(c: Content, terms: seq<ByteString>, occs: seq<Occurrence>, rowCount: nat, load: nat)
    requires ValuesOf(c, terms, occs) && RowsInside(c, rowCount) && StreamsShort(c, load) && rowCount <= load
    ensures OccurrencesBelow(occs, true, load)
  {
    forall o | o in occs
      ensures o.row < load && o.position < load
    {
      if FromStream(c, TermOf(terms, o), o.row, o.position) {
        var path, token :| TermOf(terms, o) == ValueKey(token, path) && Says(c, Place(o.row, path), o.position, token);
      } else {
        var path, value :| (Place(o.row, path), value) in c.exacts && TermOf(terms, o) == ValueKey(ExactValueToken(value), path) && o.position == 0;
      }
    }
  }

  lemma {:induction false} KeysBelow(c: Content, terms: seq<ByteString>, occs: seq<Occurrence>, rowCount: nat)
    requires KeysOf(c, terms, occs) && RowsInside(c, rowCount)
    ensures OccurrencesBelow(occs, false, rowCount)
  {
    hide Says;
  }

  // ---- the index ----

  /** The index says of every row, for every predicate, what a scan of the records says. */
  ghost predicate AnswersLikeScan(records: seq<Record>, index: SearchIndex) {
    forall p, row: nat :: QueriesValid(p) ==> (RowMatches(index, p, row) <==> Scanned(ContentOf(records), |records|, row, p))
  }

  /** It says of every row, for every predicate, whether the row's record matches. */
  ghost predicate AnswersForRecords(records: seq<Record>, index: SearchIndex) {
    forall p, row: nat :: QueriesValid(p) ==> (RowMatches(index, p, row) <==> row < |records| && Matches(records[row], p))
  }

  lemma {:induction false} ScanAnswers(records: seq<Record>, index: SearchIndex)
    requires AnswersLikeScan(records, index)
    ensures AnswersForRecords(records, index)
  {
    hide QueriesValid, RowMatches, ContentOf, Matches;
    forall p, row: nat | QueriesValid(p)
      ensures RowMatches(index, p, row) <==> row < |records| && Matches(records[row], p)
    {
      assert RowMatches(index, p, row) <==> Scanned(ContentOf(records), |records|, row, p);
      if row < |records| {
        ScanMeans(records, row, p);
      }
    }
  }

  ghost predicate GroupsReady(gs: seq<RowGroup>) {
    forall i :: 0 <= i < |gs| ==> StrictlyIncreasing(gs[i].terms) && TermSlices.LaidOut(gs[i])
  }

  ghost predicate RowsFilled(entries: seq<Entry>) {
    forall i :: 0 <= i < |entries| ==> entries[i].rows != []
  }

  lemma {:induction false} BuiltGroupsReady(entries: seq<Entry>, positioned: bool, chunks: seq<seq<Entry>>, groups: seq<RowGroup>)
    requires Built(entries, positioned, chunks, groups) && RowsFilled(entries)
    ensures GroupsReady(groups)
  {
    forall i | 0 <= i < |groups|
      ensures StrictlyIncreasing(groups[i].terms) && TermSlices.LaidOut(groups[i])
    {
      GroupTermsIncrease(entries, positioned, chunks, groups, i);
      assert GroupFor(chunks[i], positioned, groups[i]);
      forall o | 0 <= o < |chunks[i]|
        ensures chunks[i][o].rows != []
      {
        PlaceInOrder(chunks, i, o);
      }
      GroupLaidOut(chunks[i], positioned, groups[i]);
    }
  }

  lemma {:induction false} StreamsFit(c: Content, load: nat)
    requires StreamsShort(c, load) && load <= U32_MAX
    ensures PositionsFit(c)
  {
    forall place | place in c.streams
      ensures |c.streams[place]| <= U32_MAX
    {
      assert |StreamAt(c, place)| <= load;
    }
  }

  lemma {:induction false} StateParts(
    c: Content, load: nat, keyTerms: seq<ByteString>, keyOccs: seq<Occurrence>, valueTerms: seq<ByteString>, valueOccs: seq<Occurrence>, next: map<Place, nat>)
    requires State(c, load, keyTerms, keyOccs, valueTerms, valueOccs, next)
    ensures KeysOf(c, keyTerms, keyOccs) && ValuesOf(c, valueTerms, valueOccs) && AllTokens(c) && StreamsShort(c, load) && load <= U32_MAX
    ensures Numbered(keyTerms, keyOccs) && Numbered(valueTerms, valueOccs)
  {
  }

  lemma {:induction false} RecordsOfPrefix(records: seq<Record>, k: nat)
    requires k < |records|
    ensures ContentOf(records[..k + 1]) == WithPieces(ContentOf(records[..k]), k, Pieces(records[k]))
    ensures RecordsLoad(records[..k + 1]) == RecordsLoad(records[..k]) + PiecesLoad(Pieces(records[k]))
    ensures RecordsLoad(records[..k + 1]) <= RecordsLoad(records)
    ensures RecordsVolume(records[..k + 1]) == RecordsVolume(records[..k]) + PiecesVolume(Pieces(records[k]))
    decreases |records| - k
  {
    hide Pieces, PiecesLoad, PiecesVolume, WithPieces;
    assert records[..k + 1][..k] == records[..k] && records[..k + 1][k] == records[k];
    if k + 1 < |records| {
      RecordsOfPrefix(records, k + 1);
    } else {
      assert records[..k + 1] == records;
    }
  }

  /** `build_search_index`'s loop over the records. */
  method IndexRecords(records: seq<Record>) returns (builder: SearchIndexBuilder)
    requires RecordsLoad(records) <= U32_MAX
    ensures fresh(builder) && fresh(builder.keys) && fresh(builder.values)
    ensures builder.Valid() && builder.content == ContentOf(records) && builder.load <= RecordsLoad(records)
    ensures builder.volume == RecordsVolume(records)
  {
    builder := new SearchIndexBuilder();
    EmptyRecords(records);
    hide *;
    for row := 0 to |records|
      invariant fresh(builder) && fresh(builder.keys) && fresh(builder.values)
      invariant builder.Valid() && builder.content == ContentOf(records[..row]) && builder.load <= RecordsLoad(records[..row])
      invariant builder.volume == RecordsVolume(records[..row])
    {
      RecordsOfPrefix(records, row);
      builder.AddPieces(row, Pieces(records[row]));
    }
    assert records[..|records|] == records;
  }

  lemma {:induction false} EmptyRecords(records: seq<Record>)
    ensures ContentOf(records[..0]) == EMPTY && RecordsLoad(records[..0]) == 0 && RecordsVolume(records[..0]) == 0
  {
  }

  /** Grouping and cutting one kind of occurrence. */
  method FinishGroups(terms: seq<ByteString>, occs: seq<Occurrence>, positioned: bool, ghost limit: nat)
    returns (result: Result<seq<RowGroup>, BuildError>, ghost entries: seq<Entry>, ghost chunks: seq<seq<Entry>>)
    requires Distinct(terms) && Numbered(terms, occs) && OccurrencesBelow(occs, positioned, limit) && limit <= U32_MAX
    ensures EntriesFor(terms, occs, entries, positioned) && RowsFilled(entries) && EntriesCost(entries) <= Volume(terms, occs)
    ensures result.Ok? ==> Built(entries, positioned, chunks, result.value)
    ensures result.Err? ==> result.error == TooLarge
    ensures result.Ok? <==> Small(entries, positioned)
    ensures 10 * Volume(terms, occs) <= U32_MAX ==> result.Ok?
  {
    hide *;
    var list := BuildEntries(terms, occs, positioned);
    entries := list;
    EntriesFit(terms, occs, entries, positioned, limit);
    if 10 * Volume(terms, occs) <= U32_MAX {
      EntriesNarrow(entries, positioned);
    }
    InOrder(terms, occs, entries, positioned);
    result, chunks := BuildRowGroups(list, positioned);
    if result.Ok? {
      NowBuilt(entries, positioned, chunks, result.value);
    }
  }

  lemma {:induction false} InOrder(terms: seq<ByteString>, occs: seq<Occurrence>, entries: seq<Entry>, positioned: bool)
    requires EntriesFor(terms, occs, entries, positioned)
    ensures EntryOrder(entries) && RowsFilled(entries)
  {
    hide Describes;
  }

  lemma {:induction false} NowBuilt(entries: seq<Entry>, positioned: bool, chunks: seq<seq<Entry>>, groups: seq<RowGroup>)
    requires EntryOrder(entries) && Flatten(chunks) == entries && GroupsFor(chunks, positioned, groups)
    ensures Built(entries, positioned, chunks, groups)
  {
  }

  /** Rows, terms and positions of the records can be numbered by u32s. */
  predicate Numberable(records: seq<Record>) {
    RecordsLoad(records) <= U32_MAX
  }

  /** The rows are those of the records that match. */
  ghost predicate FoundInRecords(records: seq<Record>, p: SearchPredicate, rows: set<nat>) {
    forall row: nat :: row in rows <==> row < |records| && Matches(records[row], p)
  }

  /** The index can be written with any dictionary format that is not wasteful beyond measure. */
  ghost predicate FitsStore(index: SearchIndex) {
    forall codec :: Compact(codec) ==> IndexFormat.Storable(codec, index)
  }

  /**
   A bound a caller can check before indexing: the bytes of all terms the records add, and
   three for each, are at most a 78th of the largest u32 (55 million).
   */
  predicate Modest(records: seq<Record>) {
    78 * RecordsVolume(records) <= U32_MAX
  }

  lemma {:induction false} ModestFits(
    records: seq<Record>, index: SearchIndex,
    keyEntries: seq<Entry>, keyChunks: seq<seq<Entry>>, valueEntries: seq<Entry>, valueChunks: seq<seq<Entry>>)
    requires Built(keyEntries, false, keyChunks, index.keyGroups) && Built(valueEntries, true, valueChunks, index.valueGroups)
    requires GroupsReady(index.keyGroups) && GroupsReady(index.valueGroups)
    requires EntriesCost(keyEntries) + EntriesCost(valueEntries) <= RecordsVolume(records) && Modest(records)
    ensures FitsStore(index)
  {
    ReadyForStore(index);
    hide GroupsFor, GroupsReady, EntriesCost, RecordsVolume, EntryOrder, Flatten, Compact, IndexFormat.Storable, IndexFormat.GroupsSorted;
    forall codec | Compact(codec)
      ensures IndexFormat.Storable(codec, index)
    {
      CheapIsStorable(codec, index, keyChunks, valueChunks);
    }
  }

  /** Modest records are within what u32 numbers can number. */
  lemma {:induction false} ModestLoad(records: seq<Record>)
    requires Modest(records)
    ensures Numberable(records)
  {
    RecordsVolumeLoad(records);
    hide RecordsLoad, RecordsVolume;
  }

  lemma {:induction false} ModestParts(records: seq<Record>, keys: nat, values: nat)
    requires keys + values == RecordsVolume(records) && Modest(records)
    ensures 10 * keys <= U32_MAX && 10 * values <= U32_MAX
  {
  }

  /**
   `build_search_index`: the index of any records that u32 numbers can number finds, for
   every predicate, the rows whose records match; its dictionaries are in order and its
   slices laid out as the loader wants them.  Modest records are never refused, and their
   index can be stored.
   */
  method BuildSearchIndex(records: seq<Record>) returns (result: Result<SearchIndex, BuildError>)
    requires Numberable(records)
    ensures result.Ok? ==> result.value.rowCount == |records| && AnswersForRecords(records, result.value)
    ensures result.Ok? ==> GroupsReady(result.value.keyGroups) && GroupsReady(result.value.valueGroups)
    ensures result.Err? ==> result.error == TooLarge
    ensures Modest(records) ==> result.Ok? && FitsStore(result.value)
  {
    var builder := IndexRecords(records);
    assert State(builder.content, builder.load, builder.keys.Contents(), builder.keyOccs, builder.values.Contents(), builder.valueOccs, builder.nextPositions);
    InternedDistinct(builder.keys);
    InternedDistinct(builder.values);
    var keyTerms, valueTerms := builder.keys.Contents(), builder.values.Contents();
    var keyOccs, valueOccs := builder.keyOccs, builder.valueOccs;
    ghost var c, load := builder.content, builder.load;
    assert Volume(keyTerms, keyOccs) + Volume(valueTerms, valueOccs) == RecordsVolume(records);
    RecordsCounted(records);
    RecordsRows(records);
    hide *;
    if Modest(records) {
      ModestParts(records, Volume(keyTerms, keyOccs), Volume(valueTerms, valueOccs));
    }
    StateParts(c, load, keyTerms, keyOccs, valueTerms, valueOccs, builder.nextPositions);
    KeysBelow(c, keyTerms, keyOccs, |records|);
    LongerLimit(c, load, RecordsLoad(records));
    ValuesBelow(c, valueTerms, valueOccs, |records|, RecordsLoad(records));
    var keys, keyEntries, keyChunks := FinishGroups(keyTerms, keyOccs, false, |records|);
    var values, valueEntries, valueChunks := FinishGroups(valueTerms, valueOccs, true, RecordsLoad(records));
    if keys.Err? {
      return Err(keys.error);
    }
    if values.Err? {
      return Err(values.error);
    }
    var index := SearchIndex(|records|, keys.value, values.value);
    StreamsFit(c, load);
    NowIndexed(c, index, keyTerms, keyOccs, keyEntries, keyChunks, valueTerms, valueOccs, valueEntries, valueChunks);
    Answers(records, c, index, keyTerms, keyOccs, keyEntries, keyChunks, valueTerms, valueOccs, valueEntries, valueChunks);
    ScanAnswers(records, index);
    BuiltGroupsReady(keyEntries, false, keyChunks, index.keyGroups);
    BuiltGroupsReady(valueEntries, true, valueChunks, index.valueGroups);
    if Modest(records) {
      ModestFits(records, index, keyEntries, keyChunks, valueEntries, valueChunks);
    }
    return Ok(index);
  }

  lemma {:induction false} LongerLimit(c: Content, load: nat, more: nat)
    requires StreamsShort(c, load) && load <= more
    ensures StreamsShort(c, more)
  {
    forall place
      ensures |StreamAt(c, place)| <= more
    {
      assert |StreamAt(c, place)| <= load;
    }
  }

  lemma {:induction false} NowIndexed(
    c: Content, index: SearchIndex,
    keyTerms: seq<ByteString>, keyOccs: seq<Occurrence>, keyEntries: seq<Entry>, keyChunks: seq<seq<Entry>>,
    valueTerms: seq<ByteString>, valueOccs: seq<Occurrence>, valueEntries: seq<Entry>, valueChunks: seq<seq<Entry>>)
    requires KeysOf(c, keyTerms, keyOccs) && EntriesFor(keyTerms, keyOccs, keyEntries, false) && Built(keyEntries, false, keyChunks, index.keyGroups)
    requires AllTokens(c) && ValuesOf(c, valueTerms, valueOccs) && EntriesFor(valueTerms, valueOccs, valueEntries, true)
    requires Built(valueEntries, true, valueChunks, index.valueGroups) && PositionsFit(c)
    ensures IndexOf(c, index, keyTerms, keyOccs, keyEntries, keyChunks, valueTerms, valueOccs, valueEntries, valueChunks)
  {
    hide KeysOf, EntriesFor, Built, AllTokens, ValuesOf, PositionsFit;
  }

  lemma {:induction false} Answers(
    records: seq<Record>, c: Content, index: SearchIndex,
    keyTerms: seq<ByteString>, keyOccs: seq<Occurrence>, keyEntries: seq<Entry>, keyChunks: seq<seq<Entry>>,
    valueTerms: seq<ByteString>, valueOccs: seq<Occurrence>, valueEntries: seq<Entry>, valueChunks: seq<seq<Entry>>)
    requires IndexOf(c, index, keyTerms, keyOccs, keyEntries, keyChunks, valueTerms, valueOccs, valueEntries, valueChunks)
    requires c == ContentOf(records) && index.rowCount == |records| && RowsInside(c, |records|)
    ensures AnswersLikeScan(records, index)
  {
    hide IndexOf, RowsInside, RowMatches, Scanned, QueriesValid, ContentOf;
    forall p, row: nat | QueriesValid(p)
      ensures RowMatches(index, p, row) <==> Scanned(ContentOf(records), |records|, row, p)
    {
      IndexScans(c, index, keyTerms, keyOccs, keyEntries, keyChunks, valueTerms, valueOccs, valueEntries, valueChunks, p, row);
    }
  }

  // ---- end to end ----

  lemma {:induction false} ReadyForStore(index: SearchIndex)
    requires GroupsReady(index.keyGroups) && GroupsReady(index.valueGroups)
    ensures IndexFormat.GroupsSorted(index.keyGroups) && IndexFormat.GroupsSorted(index.valueGroups)
    ensures SearchLoading.IndexLaidOut(index)
  {
  }

  lemma {:induction false} StoredLength(codec: IndexFormat.FstCodec, index: SearchIndex)
    requires IndexFormat.Encoded(codec, index).Ok?
    ensures |IndexFormat.Encoded(codec, index).value| <= SearchLoading.RC.U64_MAX
  {
    EncodedLength(codec, index);
    hide IndexFormat.Encoded;
  }

  lemma {:induction false} StoredWhenModest(codec: IndexFormat.FstCodec, index: SearchIndex)
    requires Compact(codec) && FitsStore(index)
    ensures IndexFormat.Storable(codec, index)
  {
    hide Compact, IndexFormat.Storable;
  }

  /**
   Build, store, load the needed parts, search.  Whatever is returned is the rows of the
   records that match, and modest records always get an answer.
   */
  method IndexStoreAndSearch(records: seq<Record>, codec: IndexFormat.FstCodec, p: SearchPredicate) returns (result: Option<set<nat>>)
    requires Numberable(records) && IndexFormat.Faithful(codec) && QueriesValid(p)
    ensures result.Some? ==> FoundInRecords(records, p, result.value)
    ensures Modest(records) && Compact(codec) ==> result.Some?
  {
    hide *;
    var built := BuildSearchIndex(records);
    if built.Err? {
      return None;
    }
    var index := built.value;
    ReadyForStore(index);
    IndexFormat.IndexRoundTrip(codec, index);
    var stored := IndexFormat.EncodeSearchIndex(codec, index);
    if Modest(records) && Compact(codec) {
      StoredWhenModest(codec, index);
    }
    if stored.Err? {
      return None;
    }
    StoredLength(codec, index);
    IndexFormat.FaithfulRefuses(codec);
    var found := SearchLoading.SearchObject(codec, stored.value, p, index);
    MatchingIsFound(records, index, p);
    return Some(found.value);
  }

  lemma {:induction false} MatchingIsFound(records: seq<Record>, index: SearchIndex, p: SearchPredicate)
    requires AnswersForRecords(records, index) && QueriesValid(p)
    ensures FoundInRecords(records, p, MatchingRows(index, p))
  {
    hide AnswersForRecords, QueriesValid, Matches, RowMatches, MatchingRows;
    forall row: nat
      ensures row in MatchingRows(index, p) <==> row < |records| && Matches(records[row], p)
    {
      MatchingRowsExact(index, p, row);
      AnswerOf(records, index, p, row);
    }
  }

  lemma {:induction false} AnswerOf(records: seq<Record>, index: SearchIndex, p: SearchPredicate, row: nat)
    requires AnswersForRecords(records, index) && QueriesValid(p)
    ensures RowMatches(index, p, row) <==> row < |records| && Matches(records[row], p)
  {
    hide Matches, RowMatches;
  }
}
