# KevinDB verification

KevinDB stores traces: payload segments and per-segment search indexes live in object
storage, and Postgres tables are a materialised view of an event log. This project models
the parts of it where correctness spans many functions or many concurrent steps, and
proves what they promise.

| area | modules |
|---|---|
| binary codec of the search index | `BitArithmetic`, `BitPacking`, `ListCodec`, `PositionCodec`, `IndexFormat` |
| building the index | `TokenStreams`, `Indexer`, `TermEntries`, `RadixSort`, `RowGroups`, `IndexSizes`, `BuiltIndex`, `SearchScan`, `RecordStreams`, `SearchIndexing` |
| what records, texts and patterns mean | `Words`, `QueryText`, `PathPatterns`, `RecordMeaning`, `FilterRecords`, `AggregateMeaning` |
| searching it from parts | `SearchPredicates`, `SearchIndexData`, `SearchEvaluation`, `SearchSelection`, `TermSlices`, `RangeCoalescing`, `SearchLoading` |
| object store and its cache | `ObjectStore`, `CacheKeys`, `ObjectCache`, `CachedReads` |
| ingest, compaction, delete, cleanup | `FlushBuffer`, `PersistLoop`, `EventLog`, `CompactionProtocol`, `CompactionProgress` |
| trace trees | `ParentChains`, `TraceTree`, `TraceTreeIndex`, `ResponseTree` |
| queries | `FilterSplit`, `FilterExactness`, `Paging`, `Coordinator`, `Aggregates`, `AggregateQueries`, `Rollups` |
| shared | `Wrappers`, `Ordering`, `Sequences`, `Widths`, `Bytes` |

The central results are chained. `SearchIndexing.IndexStoreAndSearch` goes from records to
the rows a search returns: tokenising, interning, radix-sorting, cutting into row groups,
bit-packing, writing the object, reading only its directory, the selected dictionaries and
the selected term slices through coalesced ranges, rebasing, decoding and evaluating; the
answer is the set of records that match by a reading of predicates over a record's own
fields and leaves (`RecordMeaning`), and records of modest size always get one.
`CompactionProtocol` and `FlushBuffer` are state machines over single transactions and
critical sections, and their theorems hold for every interleaving; `CompactionProgress`
says what undisturbed transactions bring about. `FilterSplit` gives filters a meaning of their own and shows what the split
into SQL and search preserves, and `FilterRecords` says what it finds, record by record.

How the model is built:

- Text is its UTF-8 bytes; `u32` and `u64` widths, saturation and wrap-around are written
  out where the program has them.
- An FST is the sequence of its terms, each standing for its index; reading its bytes back
  is a parameter assumed to invert writing them for strictly increasing terms and to
  refuse the empty byte string (`IndexFormat.Faithful`); that the terms are strictly
  increasing is proved. Where a result promises that an index can be stored, written
  dictionaries are assumed to take at most 4 GiB for each byte of their terms
  (`IndexSizes.Compact`).
- A Postgres transaction is one atomic step, a table a map; `ORDER BY` with a limit is the
  front of any ordering; object stores, databases and other writers may fail or interleave
  wherever they could, and a write may take effect although its reply is lost. Those
  choices are parameters of the actions and methods.
- There is one model of what a store answers to reads (`ObjectStore`): a range that is empty
  or starts past the object is refused, one that ends past it is cut off. Searches and the
  cache read from it.
- Floating-point numbers are their ranks in the total order that sorts them; addition and
  division are arbitrary functions.
- Loops that update state are methods with loops, and objects that do are classes; each is
  proved against a function or a property of its inputs.

Where code and expectation differ, the model follows the code, shows an input and says
exactly when they agree:

- a second delete of a run at the time of an earlier tombstone
  (`EventLog.DeleteKeepsAgreementIff`, `EventLog.SecondDeleteAtSameTimeDisagrees`);
- an empty `or()` below an `or()` of search branches (`FilterSplit.SplitMeansRelaxed`,
  `FilterExactness.SplitRightIff`, `FilterSplit.EmptyOrSlipsThrough`);
- a fixed field and a JSON leaf of the same path, which have no position gap between them
  (`RecordStreams.FieldRunsIntoLeaf`, `RecordStreams.GoUpFound`);
- rows dropped by the coordinator after the workers have cut theirs
  (`Coordinator.RightIffHarmless`, `Coordinator.DroppingComesUpShort`);
- a write through the cache that takes effect without a reply, after which old entries are
  still served (`ObjectCache.LostReplyShows`, `ObjectCache.LostPutShowsOld`);
- empty reads of a cached object, which the store refuses
  (`ObjectCache.OnlyEmptyReadsShow`, `ObjectCache.PutThenEmptyRead`);
- a batch that repeats an idempotency key, whose retry loop need not end
  (`PersistLoop.EndsIffDistinct`, `PersistLoop.RepeatedKeyLoops`);
- key patterns with a wildcard that do not end with one, for which the greedy search misses
  paths (`PathPatterns.GreedyRightIff`);
- lists that are not ascending (`ListCodec.ListRoundTrip`).

To verify the project, run `dafny verify dfyconfig.toml` in this directory.

## Model

| member | source | states |
|---|---|---|
| `BitPacking.PackBits` | src/search/codec.rs:381-399 | The packed bytes are the little-endian digits, in base 256, of the number whose digits in base 2^width are the values; the 64-bit register never overflows. |
| `BitPacking.UnpackBits` | src/search/codec.rs:401-431 | Returns the base 2^width digits of the block read as a little-endian number; fails exactly for widths above 32 and for blocks with too few bits. |
| `BitPacking.PackedRoundTrip` | src/search/codec.rs:381-435 | Unpacking a packed block of any values that fit the width gives the values back, and the block has exactly the length `packed_len` says. |
| `ListCodec.PutVint` | src/search/codec.rs:437-443 | Appends the unsigned LEB128 form of the value (section 7.6 of DWARF 5). |
| `ListCodec.VintRoundTrip` | src/search/codec.rs:437-443 | Every u32 reads back from its variable-length form, whatever bytes follow, and those bytes are left unread. |
| `ListCodec.ByteReader.TakeVint` | src/search/codec.rs:569-583 | The reading loop: the value and the new offset, or the same error, as the function on the remaining bytes. |
| `ListCodec.EncodeU32List` | src/search/codec.rs:168-188 | Differences in bit-packed blocks of 128 with a variable-length tail; no step depends on the list being ascending. |
| `ListCodec.ByteReader.TakeU32List` | src/search/codec.rs:585-604 | Blocks, tail and running sums with saturation, step by step, as the function on the remaining bytes, errors included. |
| `ListCodec.ListRoundTrip` | src/search/codec.rs:168-195 | A list of u32s followed by any bytes reads back unchanged, leaving those bytes, if and only if the list is ascending. |
| `ListCodec.ListLayout` | src/search/codec.rs:168-188 | Fewer than 128 values are written as their differences one by one; otherwise a width byte, 16 bytes for each bit of the width, and the rest. |
| `ListCodec.BlockRoundTrip` | src/search/codec.rs:174-182 | One full block reads back through its width byte, whatever follows. |
| `ListCodec.BitWidthFits` | src/search/codec.rs:373-379 | The width is enough for the value and the smallest that is. |
| `PositionCodec.EncodePositions` | src/search/codec.rs:197-208 | One counted list per row, concatenated in row order. |
| `PositionCodec.DecodePositions` | src/search/codec.rs:210-223 | Reads the stream row by row as the recursive specification does; trailing bytes are an error. |
| `PositionCodec.PositionsRoundTrip` | src/search/codec.rs:197-223 | From the concatenated stream every row gets back exactly the set of its positions. |
| `IndexFormat.EncodeSearchIndex` | src/search/codec.rs:63-100 | The loops that assign offsets and write header, directory and bodies produce exactly the specified layout, or refuse exactly the indexes that do not fit the integer widths. |
| `IndexFormat.LayOut` | src/search/codec.rs:72-77 | Offsets are assigned end to end; fails exactly when the last one leaves a u64. |
| `IndexFormat.InfosRoundTrip` | src/search/codec.rs:282-318 | Term infos come back from their fixed-width form. |
| `IndexFormat.DirectoryRoundTrip` | src/search/codec.rs:252-267 | A directory entry comes back whatever follows it, and its length is the one counted in advance. |
| `IndexFormat.DirectoryExact` | src/search/codec.rs:121-148 | The header and directory of an encoded index, decoded alone, give a directory whose four ranges per group cut exactly that group's bytes out of the object; the length in the header is exact. |
| `IndexFormat.IndexRoundTrip` | src/search/codec.rs:63-119 | Decoding an encoded index returns the index, and encoding succeeds if and only if every count, length and offset fits its width. |
| `IndexFormat.HeaderFromFront` | src/query/search.rs:120-130 | The header decoded from the first 24 bytes is the header of the object. |
| `IndexFormat.HeaderSpelled` | src/search/codec.rs:79-92 | An encoded index starts with the bytes of KDBFTS3, a zero byte, the row count and the counts of the two kinds of groups in little-endian u32s. |
| `IndexFormat.FourDigits` | src/search/codec.rs:445-447 | A u32 is written as its four digits in base 256, smallest first. |
| `SearchIndexData.KeyParts` | src/search/mod.rs:751-775 | A dictionary key determines its token and its path, whatever bytes the path holds. |
| `SearchIndexData.PrefixIsToken` | src/search/mod.rs:757-762 | The keys with a token's prefix are exactly the keys of that token. |
| `SearchIndexData.ExactTokenInjective` | src/search/mod.rs:764-766 | Exact-value tokens are injective and contain no separator. |
| `SearchIndexData.ComputeNextPrefix` | src/search/mod.rs:798-807 | The loop that pops trailing 255s computes the next prefix. |
| `SearchIndexData.PrefixIsInterval` | src/search/mod.rs:789-807 | A string has a prefix if and only if it lies between the prefix and the next prefix. |
| `SearchIndexData.PruningKeepsPrefix` | src/search/mod.rs:789-796 | A group whose span holds a string with the prefix is never pruned. |
| `SearchIndexData.PruningExact` | src/search/mod.rs:789-796 | A group is kept for a prefix if and only if some string between its smallest and largest term has the prefix. |
| `Bytes.BytesLeqIsByteOrder` | src/search/mod.rs:785-796 | The comparison of terms is lexicographic order on bytes: a prefix of the other, or smaller at the first difference. |
| `SearchPredicates.TokensForText` | src/search/predicate.rs:96-118 | The tokens are the maximal alphanumeric runs, lower-cased and cut at 64 bytes, without short ones and stop words. |
| `SearchPredicates.TokensAreTokens` | src/search/predicate.rs:96-118 | Every token is lower-case alphanumeric, 2 to 64 bytes and no stop word, so it cannot meet an exact-value token. |
| `SearchPredicates.Parse` | src/search/predicate.rs:52-81 | Quoted parts become phrases, the rest deduplicated terms. |
| `SearchPredicates.ParsedQueriesValid` | src/search/predicate.rs:52-81 | Parsed queries hold tokens only and no empty phrase, for every text. |
| `Words.TokensAreWords` | src/search/predicate.rs:96-151 | The tokens of a text are its words, all of them and in order: longest stretches of letters and digits, in lower case, at most 64 bytes, two bytes or more, and none of the listed common words. |
| `Words.PhraseIsRun` | src/search/predicate.rs:96-118 | A phrase stands in a text, its words one after another, if and only if it is a run of the tokens. |
| `QueryText.QueryReads` | src/search/predicate.rs:52-81 | The words outside quotes and the quoted stretches of a query text, an unclosed quote included, are what parsing takes as terms and phrases. |
| `PathPatterns.LooksForKeyExact` | src/search/mod.rs:255-306 | For every pattern and path, what a key query accepts: the path itself, a prefix for a single trailing wildcard, and for other patterns the parts between wildcards found greedily from the left. |
| `PathPatterns.GreedyRightIff` | src/search/mod.rs:809-846 | For every pattern: the greedy search accepts exactly the paths that spell the pattern if and only if the pattern has no wildcard or ends with one; others, such as *.id, miss paths like a.id.id. |
| `SearchEvaluation.MatchingRowsExact` | src/search/mod.rs:197-253 | The row set computed by the recursive evaluation, with its intersections, unions and early exits, is exactly the set of rows that match by the declarative reading of the predicate. |
| `SearchEvaluation.PhraseRowsHold` | src/search/mod.rs:315-354 | The phrase search returns a row exactly when all tokens stand at consecutive u32 positions of one row and path, the early return for missing tokens included. |
| `SearchEvaluation.TermRowsHold` | src/search/mod.rs:308-313 | A row is returned exactly when some group kept by pruning has a matching, decodable term containing it. |
| `SearchEvaluation.KeyRowsHold` | src/search/mod.rs:255-306 | The same for key patterns: exact, trailing wildcard and general. |
| `SearchSelection.SelectValueGroups` | src/search/selection.rs:93-121 | The recursion over the predicate adds exactly the value groups some token lookup of some leaf may hit. |
| `SearchSelection.SelectKeyGroups` | src/search/selection.rs:167-194 | The same for key groups and patterns. |
| `SearchSelection.SelectValueTerms` | src/search/selection.rs:123-165 | Adds exactly the (group, ordinal) marks of the terms some leaf looks for, with the position flag set exactly for phrases of several tokens. |
| `SearchSelection.SelectKeyTerms` | src/search/selection.rs:196-226 | The same for key patterns, without positions. |
| `SearchSelection.MergeMarks` | src/search/selection.rs:370-382 | Merging a selected term adds one mark and only ever raises its position flag. |
| `SearchSelection.ValueSelectionExact` | src/search/selection.rs:73-91 | The finished selection marks every wanted term and nothing else, and positions wherever a phrase needs them. |
| `SearchSelection.SameRows` | src/search/mod.rs:197-225 | Two indexes that answer every lookup of a predicate alike match the predicate in the same rows, for every nesting of and, or and not. |
| `SearchSelection.CopyMatchesSame` | src/search/selection.rs:50-91 | An index cut down to the selected groups and terms gives the same row set as the whole index. |
| `TermSlices.MaterializeTerms` | src/query/search.rs:325-351 | After the loop every selected term finds, at its rebased offsets, the bytes it had in the whole group; all other infos are default; it cannot fail on groups laid out as the builder lays them out. |
| `TermSlices.RebasedDecodesSame` | src/search/mod.rs:702-725 | A rebased term decodes to what the original term decodes to, rows and positions. |
| `SearchLoading.SubrangeCuts` | src/query/search.rs:364-383 | A term's range of the object holds its slice of the group, and is refused exactly when the slice leaves the group. |
| `SearchLoading.PlanDictionaries` | src/query/search.rs:190-212 | Every selected group gets its two ranges, in order, and nothing planned earlier moves. |
| `SearchLoading.MaterializeDictionaries` | src/query/search.rs:214-233 | The dictionaries read through the ranges are those of the stored groups. |
| `SearchLoading.PlanGroupTerms` | src/query/search.rs:262-315 | Every marked term that is stored gets a range for its postings and, when asked for and present, its positions. |
| `SearchLoading.MaterializeGroups` | src/query/search.rs:317-362 | Every rebuilt group decodes to the stored group with the planned terms rebased. |
| `SearchLoading.LoadTermSlices` | src/query/search.rs:235-260 | The cut-down index copies the whole index for everything the predicate wants; for an index laid out as the builder lays it out no range asked for is empty or outside, so no read is refused. |
| `SearchLoading.LoadDirectory` | src/query/search.rs:120-136 | Reading 24 bytes and then the directory succeeds exactly when the object's directory decodes, and gives it. |
| `SearchLoading.SearchObject` | src/query/search.rs:84-155 | For every predicate and every stored object that decodes to an index, the search that reads only directory, selected dictionaries and selected slices through coalesced ranges returns exactly the whole index's rows. It cannot fail on a builder-made layout, although the store refuses empty ranges: the guards for an empty directory and for absent positions keep them from being asked. |
| `RangeCoalescing.CoalesceRanges` | src/query/search.rs:442-481 | Every range is placed inside one coalesced range, and no coalesced range is longer than 16 MiB unless it is a single range that was. |
| `RangeCoalescing.CoalescedWell` | src/query/search.rs:442-481 | Coalesced ranges start in ascending order, each is started by an original range that could not join the one before, ends with an original, and reads nowhere more than the 1 MiB gap past its originals. |
| `RangeCoalescing.PieceIsOriginal` | src/query/search.rs:420-438 | The piece cut out of a coalesced read is the original range's bytes. |
| `RangeCoalescing.ReadRanges` | src/query/search.rs:401-440 | On a store that refuses empty ranges and cuts off long ones: the read succeeds if and only if no coalesced range is empty or ends outside the object, and then every original index comes back with exactly its own bytes. |
| `CachedReads.ReadThroughCache` | src/query/search.rs:401-440 | The same reads through the object cache: on a path without a lost write the answer is the store's whenever no coalesced range is empty, whatever is cached or evicted. |
| `RowGroups.GroupLaidOut` | src/search/mod.rs:622-668 | A built group has at least one info, its slices lie in order inside its lists, and no postings slice is empty. |
| `RadixSort.RadixSorted` | src/search/mod.rs:505-540 | Terminates for every input and returns a permutation ordered by term bytes. |
| `RadixSort.Distribute` | src/search/mod.rs:516-524 | Each of the 257 buckets receives exactly its occurrences, in their order. |
| `TermEntries.TermInterner.Intern` | src/search/mod.rs:174-184 | A known term keeps its number, a new one gets the next, clamped at the largest u32; numbers given earlier keep their terms, and as long as a u32 can number the terms a number is the term's place. |
| `TermEntries.TermsToldApartIff` | src/search/mod.rs:174-184 | For every state of the interner, different terms have different numbers if and only if there are at most 2^32 of them; beyond, the clamp gives several terms the largest number. |
| `TermEntries.BuildEntries` | src/search/mod.rs:445-496 | Strictly increasing terms, each with exactly the rows and, per row, exactly the positions of its occurrences; every occurrence has an entry; terms, rows and positions together are bounded by the occurrences. |
| `TermEntries.EntriesPermuted` | src/search/mod.rs:498-503 | The entries depend on the occurrences and not on their order. |
| `RowGroups.EncodeRowGroup` | src/search/mod.rs:622-668 | The group's infos find every entry's lists, slices lie in order without overlap, and the FST is never given a term out of order; it cannot fail for one entry, or several that fit together, whose lists have u32 lengths. |
| `RowGroups.BuildRowGroups` | src/search/mod.rs:568-612 | The groups concatenate back to the entries, each within both limits or a single entry; it fails if and only if some entry has a list whose length does not fit a u32. |
| `RowGroups.GroupsWellCut` | src/search/mod.rs:568-612 | No group is cut early: the next entry would have passed a limit. |
| `RowGroups.EntryDecodes` | src/search/mod.rs:702-725 | Every term of a built group decodes to its entry's rows and positions. |
| `IndexSizes.EntriesNarrow` | src/search/mod.rs:622-668 | Entries whose terms, rows and positions are few enough have lists that fit their u32 lengths. |
| `IndexSizes.CheapIsStorable` | src/search/codec.rs:63-100 | An index whose entries cost little enough fits every count, length and offset the encoder checks. |
| `IndexSizes.EncodedLength` | src/search/codec.rs:72-100 | Whatever the encoder accepts is an object whose length fits a u64. |
| `BuiltIndex.GroupsDisjoint` | src/search/mod.rs:568-612 | Groups cover disjoint, ordered spans of terms. |
| `BuiltIndex.GroupTermsIncrease` | src/search/mod.rs:628-630 | The keys inserted into each FST are strictly increasing. |
| `BuiltIndex.ValuePruningSound` | src/search/mod.rs:785-796 | Pruning by smallest and largest term never drops a group with a matching key or prefix. |
| `BuiltIndex.TokenRowsBuilt` | src/search/mod.rs:363-388 | A lookup in built groups finds a row exactly when a matching entry has it. |
| `Indexer.SearchIndexBuilder.AddText` | src/search/indexer.rs:53-59 | Appends the text's tokens to the path's stream at consecutive positions and records the path, leaving all other streams alone. |
| `Indexer.SearchIndexBuilder.NextPosition` | src/search/indexer.rs:61-69 | Returns the counter and advances it, saturating. |
| `Indexer.SearchIndexBuilder.AddGap` | src/search/indexer.rs:71-77 | Leaves one position empty after a leaf and adds no occurrence. |
| `Indexer.SearchIndexBuilder.AddPiece` | src/search/indexer.rs:32-51 | Exact value for short leaves, bounded text, then the gap; bare paths for leaves without a value, as the contents of the record say, which RecordMeaning.ValuesIndexed and RecordMeaning.PathsIndexed read off the record. |
| `TokenStreams.TokenAdded` | src/search/mod.rs:149-160 | An added occurrence keeps the occurrences equal to what the token streams say. |
| `SearchScan.IndexScans` | src/search/mod.rs:197-225 | An index built from occurrences matches any predicate with parsed queries in exactly the rows in which a plain scan of token streams, exact values and paths says it does. |
| `SearchScan.PhraseScan` | src/search/mod.rs:315-354 | A phrase is found exactly where its tokens follow one another on one path of one row; positions cannot wrap into a false match. |
| `SearchScan.ExactScan` | src/search/mod.rs:356-361 | An exact-value query finds exactly the rows with that value under a matching path, never a token of a text. |
| `SearchScan.KeyScan` | src/search/mod.rs:255-306 | A key pattern finds exactly the rows with a path the pattern accepts. |
| `SearchIndexing.BuildSearchIndex` | src/search/indexer.rs:7-17 | For every list of records that u32 numbers can number, the index answers every predicate with exactly the rows whose record matches in the terms of its name, type, status and leaves, and has ordered dictionaries and laid-out slices. Records of modest size, a bound computed from their texts and paths, are never refused and their index can be stored. |
| `SearchIndexing.ModestLoad` | src/search/indexer.rs:7-17 | Records of modest size can be numbered by u32s, so the one bound a caller computes gives both promises. |
| `RecordStreams.RecordsSay` | src/search/indexer.rs:7-17 | What the scan reads of a row on a path is the streams of that record's name, run type, status and first 256 leaves, end to end. |
| `RecordStreams.PhraseWithinLeaf` | src/search/indexer.rs:71-77 | No run of tokens on a path spans two JSON leaves. |
| `RecordStreams.FieldRunsIntoLeaf` | src/search/indexer.rs:11-15 | For every record and path, some phrase is said across a fixed field and a JSON leaf if and only if the path is a fixed field's with at least one token and the first indexed leaf with a value on that path has at least one token. |
| `RecordStreams.BridgeFound` | src/search/indexer.rs:11-15 | In every such case the last token of the field and the first of the leaf form a phrase query that the scan, and so the index, answers with that record. |
| `RecordStreams.GoUpFound` | src/search/indexer.rs:11-15 | A record named go with the attribute name: up is found by the phrase go up. |
| `SearchIndexing.IndexStoreAndSearch` | src/query/search.rs:84-118 | Building, storing, partially loading and searching returns exactly the numbers of the records that match, by a reading of predicates over a record's own fields and leaves; for modest records it always returns. |
| `RecordMeaning.ValuesIndexed` | src/search/indexer.rs:32-51 | A value is in the contents at a row and path if and only if one of the first 256 leaves of that record has that path and that value, and the value is at most 4096 bytes. |
| `RecordMeaning.PathsIndexed` | src/search/indexer.rs:7-17 | A path is in the contents at a row if and only if it is name, run_type or status, or the path of one of the record's first 256 leaves. |
| `RecordMeaning.PhrasesSaid` | src/search/indexer.rs:7-77 | A phrase is said at a row and path if and only if it stands in a field or a leaf of the record on that path, or runs over from a field into the leaf that follows it without a gap. |
| `RecordMeaning.ScanMeans` | src/search/mod.rs:197-253 | The scan accepts a row for a predicate if and only if the record matches it: text, exact value and key tests, and every nesting of and, or and not. |
| `RecordMeaning.ParsedTextFound` | src/search/predicate.rs:52-81 | Searching a field for a query text finds a record if and only if every word outside quotes and every quoted stretch is found on some path of the field, and there is one. |
| `RecordMeaning.MatchesUnder` | src/search/predicate.rs:31-49 | A field's path test holds for exactly the paths of the field: that one path; the prefix itself or anything below it after a dot; or any path. |
| `CompactionProtocol.LiveHeadsNeverCompacted` | src/ingest.rs:281-324 | In every interleaving of ingests, deletes, any number of compactors and cleaners, a live head's segment exists, is not marked compacted, still has its object and is no cleaner's candidate. |
| `CompactionProtocol.StepKeepsInv` | src/ingest.rs:281-360 | Every action of every participant keeps the invariant. |
| `CompactionProtocol.MarkKeepsInv` | src/ingest.rs:555-586 | Marking source segments is safe once nothing is pending for them. |
| `CompactionProtocol.DropDuplicatesCovers` | src/ingest.rs:362-410 | A record dropped as a duplicate leaves no live head behind in the segments being compacted. |
| `CompactionProtocol.OwnWriteKeepsPending` | src/ingest/metadata.rs:150-208 | After a compactor's write commits, the records still pending cover every live head left in its segments. |
| `CompactionProtocol.CleanupKeepsInv` | src/query/cleanup.rs:52-93 | Cleanup deletes objects of compacted segments only, so none that a live head needs. |
| `CompactionProgress.IngestLands` | src/ingest/metadata.rs:86-345 | After any history, records with fresh, distinct keys of one project land as one new active segment with its object and all their keys, and each run's head is its latest record in the segment unless the old head is later still; any other batch changes nothing. |
| `CompactionProgress.DeleteLands` | src/query.rs:393-570 | Deleting a live head records the deletion and dates the head, which keeps its row; otherwise nothing changes. |
| `CompactionProgress.CompactionCompletes` | src/ingest.rs:281-324 | After any history, a compaction of two or more active segments that nobody disturbs comes to its end however its replacements are cut into segments: no write is refused, the old segments are marked, every visible run of the project keeps its head's times in an active segment written since, and no other head, segment or object changes. With fewer segments or no visible run it changes nothing. |
| `CompactionProgress.CleanupRemoves` | src/query/cleanup.rs:52-93 | An undisturbed cleanup removes exactly the objects of segments compacted by the cutoff and not yet removed, and notes it. |
| `FlushBuffer.RecordsConserved` | src/ingest.rs:155-279 | In every run with arbitrary failures, each accepted record is in exactly one of buffer, in-flight batch or settled, and every settled record's key is durable. |
| `FlushBuffer.ArrivalOrder` | src/ingest.rs:155-279 | At every moment of every run, what a partition still holds, in flight and then in the buffer, stands in the order in which ingests handed it over, and everything handed over that it no longer holds is in the log. |
| `FlushBuffer.AtMostOneInFlight` | src/ingest.rs:209-234 | No partition ever has two batches in flight. |
| `FlushBuffer.WaitersNotStranded` | src/ingest.rs:205-279 | Waiters never sit in an idle buffer that no flush would take. |
| `FlushBuffer.ToldOkMeansDurable` | src/ingest.rs:236-275 | A waiter told success has all its records' keys in the event log; every waiter is told exactly when it waits no longer. |
| `FlushBuffer.Ingestor.EnqueueGroups` | src/ingest.rs:155-203 | One waiter per partition group, numbered in order; every partition's records stand behind what its buffer held, its waiters behind its waiters, and nothing else changes. |
| `FlushBuffer.Ingestor.TakeNext` | src/ingest.rs:209-234 | Takes the first idle, non-empty buffer whole into the task's batch, leaving it empty and flushing, or every buffer is flushing or empty and nothing changes. |
| `FlushBuffer.Ingestor.CompleteOk` | src/ingest.rs:240-255 | The buffer is idle again and goes exactly when nothing arrived meanwhile; the batch's waiters, and nobody else, are told success. |
| `FlushBuffer.Ingestor.CompleteErr` | src/ingest.rs:256-275 | The unwritten records go back to the front of the buffer, and the batch's waiters and those that joined since, and nobody else, are told the failure. |
| `FlushBuffer.Ingestor.FlushBatch` | src/ingest.rs:236-275 | Persisting a batch with the retry loop and settling it: what stays unwritten keeps its order and lacks only logged keys, it ends as a success exactly when nothing stays, waiters are told which, and unwritten records stand in front of what arrived. Seen from the state machine it is a commit by writers, a persist action and the settling. |
| `PersistLoop.SegmentStore.PersistPartitionRecords` | src/ingest.rs:326-360 | For other writers committing at any step: terminates; what is written and what is left are the batch's records in their order; success means every key is in the log, written once in segments of at most the configured size; failure returns the records not known to be in the log, all unlogged ones among them. Undisturbed, it succeeds and its rounds are those of `PersistLoop.EndsIffDistinct`. |
| `PersistLoop.SegmentStore.PersistSegment` | src/ingest.rs:412-525 | A segment commits all its keys or none; a conflict means some key is already in the log or repeated in the segment; undisturbed, it is written exactly when neither is the case. |
| `PersistLoop.SegmentStore.FilterDuplicates` | src/ingest.rs:362-410 | Keeps exactly the records whose keys were not in the log at some moment of the call. |
| `PersistLoop.WithoutShorter` | src/ingest.rs:326-360 | Filtering after a conflict removes at least one record, the reason the loop ends. |
| `PersistLoop.EndsIffDistinct` | src/ingest.rs:334-357 | Undisturbed by failures and other writers, the loop ends for every content of the log if and only if the batch repeats no key or segments hold a single record. |
| `PersistLoop.RepeatedKeyLoops` | src/ingest.rs:334-357 | For every batch with a repeated key and segments of two records or more: with all other keys logged, every round conflicts inside the segment and changes nothing. |
| `EventLog.IngestKeepsAgreement` | src/ingest/metadata.rs:170-208 | An event arriving in any order keeps head, run locator and trace locator of its run at the lexicographic maximum of the log. |
| `EventLog.DeleteKeepsAgreementIff` | src/query.rs:401-563 | A delete keeps the tables in agreement with the log if and only if it is dated after the head, or at the head's time with no tombstone at that time yet. |
| `EventLog.ReplayIsHead` | src/query/random_access.rs:704-730 | Replaying the sorted log yields nothing exactly when the head is deleted, else the row the head, the run locator and the trace locator point at. |
| `EventLog.HistoriesAgree` | src/ingest/metadata.rs:86-345 | Every history of arrivals in any order and properly dated deletes leaves every run's tables in agreement with the log. |
| `EventLog.SecondDeleteAtSameTimeDisagrees` | src/query.rs:401-563 | Two deletes of one run at one time around a re-ingest: the head says deleted while the log replays to a row. |
| `EventLog.ReplayEventLocator` | src/query/random_access.rs:669-731 | The fold over the ordered rows computes the replay. |
| `EventLog.RunTables.PersistMetadata` | src/ingest/metadata.rs:86-345 | Inserts every row with the next ids in order and keeps every run in agreement, or changes nothing, exactly when a key is already logged or stands twice in the batch. |
| `EventLog.RunTables.DeleteRun` | src/query.rs:393-570 | Deletes exactly live runs, logging one tombstone with the next id; the tables stay in agreement exactly for dated deletes. |
| `ParentChains.ParentCreatesCycle` | src/ingest/tree.rs:250-267 | Finds a cycle exactly when the parent's chain reaches the child, and ends on every pointer structure. |
| `ParentChains.CycleFlagExact` | src/ingest/tree.rs:183-197 | The cycle flag is set exactly on the spans that lie on a parent cycle. |
| `ParentChains.EffectiveParentsAcyclic` | src/ingest/tree.rs:183-197 | Cutting the spans on a cycle leaves a forest over the same spans, in which every pointer names one of them. |
| `ParentChains.EffectiveParentIs` | src/ingest/tree.rs:183-197 | For every span: the effective pointer is the span's own pointer if its target is known and the span lies on no cycle, and nothing otherwise. |
| `TraceTree.IndexInputs` | src/ingest/tree.rs:182-211 | The first pass lists every run under its effective parent, siblings by start time and then span id. |
| `TraceTree.VisitTreeNode` | src/ingest/tree.rs:270-322 | The recursion ends and numbers exactly the subtree, children nested inside their parent, with depth, root and descendant count right for each. |
| `TraceTreeIndex.BuildTraceTreeIndex` | src/ingest/tree.rs:165-240 | Every run has one node with its own fields; the node's parent is the run's own pointer when that names a run and the span lies on no cycle of pointers, and nothing otherwise; the endpoints are the numbers 0 to 2n-1 and nest exactly along these parents; depth, root and descendant count are read off them, siblings are numbered from 0 by start time and then span id, nodes come by start and span; the planner's two interval tests answer ancestry. |
| `TraceTreeIndex.IntervalTestsDecideAncestry` | src/query/planner.rs:297-312 | One span's interval lies strictly inside another's if and only if it is a proper descendant along effective parents, and covers it if and only if it is the span or an ancestor; for any nodes numbered 0 to 2n-1 with nesting intervals. |
| `TraceTreeIndex.DepthZeroIsRoot` | src/query/planner.rs:297-300 | Depth zero, no parent and being one's own root coincide, and depth counts the steps to the root. |
| `TraceTree.RootsCover` | src/ingest/tree.rs:213-240 | Every span hangs below a root. |
| `Ordering.StringLeqIsDictionary` | src/ingest/tree.rs:199-211 | Span ids are compared as in a dictionary: a prefix of the other, or smaller at the first difference. |
| `ResponseTree.BuildRunNode` | src/query/tree.rs:82-108 | Ends for every pointer structure; a new span comes back with each newly reached span exactly once, a visited span as nothing. |
| `ResponseTree.TraceTreeFromRuns` | src/query/tree.rs:18-80 | For any runs, repeated spans and cycles included: each span stands in the tree once, with the last run of its span; children are runs that name the node as parent, in the order of the runs; first come the trees of the runs whose parent is not among the runs, which reach all of these, then what only cycles reach, both in the order of the runs; without a cycle there is nothing of the second kind. |
| `ResponseTree.RankedIffNoCycle` | src/query/tree.rs:18-80 | Parents can be placed nearer the root than their children if and only if no span is its own ancestor, several runs with one span included. |
| `FilterSplit.SplitMeansRelaxed` | src/query/filter/phase6.rs:26-93 | Whenever the split succeeds, prefilter and search predicate together are true of a run if and only if the filter is, with atom-free parts below a search or() read as true; for every filter and valuation. |
| `FilterSplit.SplitPreservesNonEmpty` | src/query/filter/phase6.rs:26-93 | For filters without empty and() or or(), the two halves together are exactly the filter. |
| `FilterSplit.SplitPreservesMeaning` | src/query/filter/phase6.rs:26-93 | For any filter, atoms repeated or not, the two halves are exactly the filter whenever no part that is dropped is false. |
| `FilterExactness.SplitRightIff` | src/query/filter/phase6.rs:26-93 | For filters that name no atom twice and whose search atoms ask different leaves of the index, the split is right for every run if and only if no part that is dropped is false, or what is left cannot hold even with every atom true. |
| `FilterSplit.SplitLosesNothing` | src/query/filter/phase6.rs:26-93 | The split never hides a run the filter accepts. |
| `FilterSplit.EmptyOrSlipsThrough` | src/query/filter/phase6.rs:27-35 | or(search(a), and(search(b), or())) is split as or(search(a), search(b)): a run matching only b slips through. |
| `FilterSplit.AtomAgrees` | src/query/filter/phase6.rs:95-167 | Each search atom's predicate says what the atom means, spelled out field by field as places below langsmith.inputs or inputs and so on, negations and lists included. |
| `FilterRecords.AtomSearches` | src/query/filter/phase6.rs:95-334 | For every record: the predicate of a search atom matches it if and only if some leaf or field of the record at one of the atom's places has the words, the value or the key that the atom asks for. |
| `FilterRecords.SplitFindsRecords` | src/query/filter/phase6.rs:26-93 | For every filter whose split drops nothing false and every record, the prefilter and the search together accept the record if and only if the filter, read over the record, does. |
| `FilterRecords.SplitSucceedsIff` | src/query/filter/phase6.rs:26-93 | The split succeeds exactly for filters in which every or() asks the index nowhere or everywhere, without columns, and every search atom can be answered. |
| `FilterSplit.AndPredicate` | src/query/filter/phase6.rs:28-36 | The loop of the and() arm: the first error in order, or the combination of the present predicates. |
| `FilterSplit.AndPrefilter` | src/query/filter/phase6.rs:65-80 | The same for the scalar half. |
| `Coordinator.CoordinateQuery` | src/query/distributed.rs:245-260 | For every split into partitions, every order of arrival and every filter: the answer is in order, newest first if asked, equal starts by span, and no longer than the limit; and it is the page of all runs that pass the filter, with exactly offset runs before it and every run left out behind it, whenever filtering is harmless or every worker that cuts its answer cuts to runs the filter keeps. |
| `Paging.QuerySegments` | src/query.rs:656-689 | Starts never increase along the page when newest first is asked and never decrease otherwise, equal starts come in span order; exactly offset runs precede the page, its length is the limit or what is left, and every run left out after it sorts at or behind its last; whatever order the database gives equal keys. |
| `Paging.CutsArePages` | src/query/object_store_stats.rs:64-86 | A list is a page of the kept runs if and only if it is cut, at offset and limit, out of some ordering of them by start and span. |
| `Paging.MergedPage` | src/query/object_store_stats.rs:64-86 | Paging merged fronts equals paging everything, saturation of limit + offset included. |
| `Paging.FrontOfFronts` | src/query.rs:656-689 | The front of the parts' fronts is a front of the whole, run by run and whatever order equal keys come in. |
| `Paging.WorkerKeys` | src/query/distributed.rs:401-408 | A worker's answer is the front of its own ordering. |
| `Paging.ChunksFlatten` | src/query/distributed.rs:350-371 | Partitions hold the segments, each once, in order. |
| `Coordinator.DroppingComesUpShort` | src/query/distributed.rs:254-260 | Run through the coordinator: one dropped run that sorts first and a full front of kept ones behind it give a page one run short. |
| `Coordinator.RightIffHarmless` | src/query/distributed.rs:254-260 | For a given query and filter the coordinator's answer is the page of everything the filter keeps, for every list of segments, split and arrival order, if and only if nothing is cut (no limit, or limit and offset reach the end of the counter), the limit is zero, or every kept run sorts strictly before every dropped one. |
| `Coordinator.FilteredPage` | src/query/distributed.rs:254-260 | Filtering the workers' fronts and paging gives a page of all that the filter keeps, part by part sparing what the filter keeps. |
| `Aggregates.AggregatesPermuted` | src/query/aggregates.rs:282-305 | The groups and all their metrics are identical for every permutation of the rows, with addition and division arbitrary. |
| `Aggregates.FinishedPermuted` | src/query/aggregates.rs:672-701 | An accumulator's finished metrics depend on what was pushed, not in which order. |
| `Aggregates.SummaryPermuted` | src/query/aggregates.rs:724-760 | A summary sorts before it folds, so sums, averages, percentiles and distributions cannot see the order. |
| `AggregateQueries.AggregateRows` | src/query/aggregates.rs:282-305 | A group is listed exactly when some row offers its values, and its count, errors, rate and statistics are those of all rows, values and scores that give the group, each once: sums from the smallest value up, smallest and largest value, and percentiles at the rank (n-1)p/100 rounded up. |
| `AggregateQueries.AggregatePartitions` | src/query/aggregates/distributed.rs:141-191 | Partition rows arriving in any order, concatenated and filtered to the candidates, aggregate to the single-node result, with the same meaning. |
| `AggregateMeaning.AggregatedMeans` | src/query/aggregates.rs:282-467 | The aggregated groups mean what the rows say: which field feeds which group value and metric, which rows and choices of tag or feedback belong to a group, each once. |
| `AggregateMeaning.SummaryMeans` | src/query/aggregates.rs:724-765 | For every multiset of values: nothing without values; otherwise the count, the sum from the smallest up, the average, members bounding all values, and for p of 50, 95 and 99 the sorted value at the index k with (n-1)p <= 100k < (n-1)p + 100. |
| `Rollups.RollupEqualsScan` | src/query/aggregates/rollups.rs:56-155 | For every query over whole hours grouped by project, hour and at most one of run type, model and error, and filtered by nothing else: the selected rollup rows are, one a group, the groups, run counts, error counts, error rates and latency minimum, maximum and percentiles of `Aggregates.Aggregated` over the rows of exactly the live runs of the projects that start within the bounds and pass the filters. |
| `Rollups.EligibleIffServed` | src/query/aggregates/rollups.rs:56-129 | The program's tests accept exactly those queries, the groupings in any order and repeated or not. |
| `Rollups.OneVariant` | src/query/aggregates/rollups.rs:75-110 | For a rollup grouping, a run's row belongs to exactly one group of the scan, that of its rollup key. |
| `Rollups.RunAgrees` | src/query/aggregates/rollups.rs:142-147 | A run passes the scan's filters exactly when its rollup row is selected. |
| `Rollups.BoundariesAgree` | src/query/aggregates/rollups.rs:120-129 | At whole-bucket bounds, comparing bucket starts is comparing run starts, before the epoch too. |
| `Rollups.SortConverts` | src/ingest/indexes.rs:409-420 | Sorting integers and converting is converting and sorting, for any monotone conversion. |
| `Rollups.GroupRuns` | src/ingest/indexes.rs:268-285 | One accumulator per bucket and group value, holding exactly its runs. |
| `Rollups.RollupTable.Refresh` | src/ingest/indexes.rs:219-300 | The project's rows are replaced by those of its live runs, all four kinds; other projects are untouched. |
| `Rollups.RefreshedIsFresh` | src/ingest/indexes.rs:219-300 | After a refresh a row exists exactly for the groups that have runs, and holds their statistics. |
| `CacheKeys.CacheKeyInjective` | crates/kevindb-server/src/cache.rs:347-356 | Keys are injective in path and range, whatever characters paths contain. |
| `ObjectCache.CachedObjectStore.Get` | crates/kevindb-server/src/cache.rs:174-200 | On a path without a lost write, every request is answered as the inner store answers it, hit, slice or miss, except an empty read of an object, which is answered, empty, exactly when it or the whole object is cached. A cached request is answered from the cache on every path. |
| `ObjectCache.CachedObjectStore.GetRanges` | crates/kevindb-server/src/cache.rs:202-209 | On a path without a lost write and unless a range is such an empty read, the answer is the store's: every range's bytes in order, or the first refusal. |
| `ObjectStore.ServedIsAsked` | crates/kevindb-server/src/cache.rs:358-371 | What the store serves are exactly the places of the object that were asked for; bounded and offset requests that ask for none are refused. |
| `ObjectCache.InnerAnswers` | crates/kevindb-server/src/cache.rs:174-200 | The inner store's answer is no object, nothing to serve, or the object's bytes at exactly the places asked for. |
| `ObjectCache.CachedObjectStore.Put` | crates/kevindb-server/src/cache.rs:144-159 | An acknowledged write changes the object, drops the path's entries, caches the whole object and keeps every cached entry right and registered; a failed one changes nothing; one whose reply is lost changes the object and leaves the path's entries, and the path is stale until the next acknowledged write or delete. |
| `ObjectCache.CachedObjectStore.CompleteMultipart` | crates/kevindb-server/src/cache.rs:397-401 | An acknowledged upload drops exactly the path's entries; one whose reply is lost drops none and leaves the path stale. |
| `ObjectCache.CachedObjectStore.Delete` | crates/kevindb-server/src/cache.rs:211-223 | A delete drops exactly the path's entries, whether or not the inner delete succeeds, and so ends staleness. |
| `ObjectCache.CachedObjectStore.Copy` | crates/kevindb-server/src/cache.rs:241-245 | An acknowledged copy drops exactly the target's entries; one whose reply is lost drops none and leaves the target stale. |
| `ObjectCache.CachedObjectStore.Rename` | crates/kevindb-server/src/cache.rs:247-252 | An acknowledged rename drops exactly the entries of both names; one that copied, or copied and deleted, without an acknowledgement drops none and leaves the changed names stale. |
| `ObjectCache.CachedObjectStore.InvalidatePath` | crates/kevindb-server/src/cache.rs:103-122 | Removes exactly the keys registered for the path. |
| `ObjectCache.CachedObjectStore.Evict` | crates/kevindb-server/src/cache.rs:72-83 | Any entries may vanish at any time without harm. |
| `ObjectCache.InvalidateKeepsInv` | crates/kevindb-server/src/cache.rs:103-122 | Dropping everything registered for a path keeps all other entries right, whatever happens to that path. |
| `ObjectCache.LostReplyShows` | crates/kevindb-server/src/cache.rs:144-159 | After a write whose reply is lost, every cached entry is still right if and only if each entry cached for the path is right for the new object. |
| `ObjectCache.LostPutShowsOld` | crates/kevindb-server/src/cache.rs:144-200 | A put, a second put whose reply is lost, and a read: the cache answers with the first bytes although the store holds the second; after the same put, acknowledged, it answers with the second. |
| `ObjectCache.SliceRight` | crates/kevindb-server/src/cache.rs:326-345 | A slice of a cached whole object is what the store would serve. |
| `ObjectCache.OnlyEmptyReadsShow` | crates/kevindb-server/src/cache.rs:358-371 | A read the store refuses is sliced from a cached whole object if and only if it is empty: an offset at the very end, or a range that ends where it starts inside the object or at its end; what is sliced is empty. |
| `ObjectCache.PutThenEmptyRead` | crates/kevindb-server/src/cache.rs:144-200 | After a put, each of these reads succeeds through the cache although the store refuses it. |

## Left out

- FilterExactness.SplitRightIff: requires that no atom stands twice; with repeated atoms the condition is only sufficient, as or(search(a), and(search(a), or())) shows, where the dropped part cannot matter. What the split means without any condition is FilterSplit.SplitMeansRelaxed.
- SearchIndexing.BuildSearchIndex: requires fewer than 2^32 indexed tokens, values and paths in a segment, because the program numbers them with u32s and clamps silently beyond, where numbers stop telling terms apart (TermEntries.TermsToldApartIff); SearchIndexing.IndexStoreAndSearch requires the same; success is promised for records of modest size (SearchIndexing.Modest), a bound that is not claimed to be the largest possible.
- SearchLoading.SearchObject: compares with the whole index, so it speaks of objects that decode as a whole; objects damaged outside the parts a search reads are not covered.
- PersistLoop.SegmentStore.PersistPartitionRecords: requires distinct idempotency keys or single-record segments, which by PersistLoop.EndsIffDistinct is exactly when the undisturbed loop ends for every log; FlushBuffer.Ingestor.FlushBatch, which calls it, requires the same.
- EventLog.HistoriesAgree: covers histories whose deletes are dated as EventLog.DeleteKeepsAgreementIff says; the others are the counterexample.
- ObjectCache.CachedObjectStore.Get: attributes and time stamps of results, and concurrent use, are not modelled; what is answered on a path whose last write lost its reply is stated only for cached requests.
- CachedReads.ReadThroughCache: speaks of coalesced ranges that hold bytes; a search of a builder-made index asks for no others.
- Rollups.RollupEqualsScan: leaves out averages, token and cost sums, the feedback rollup and first-token latency, which are stored or counted differently from the scan.
- CompactionProtocol.LiveHeadsNeverCompacted: is about where heads point; it does not say that a compaction racing an ingest of the same event time keeps the newer content. A tombstone that reuses an earlier event's key is modelled in EventLog only. Keys of clients and of compactors are different constructors, so a client key spelled like a compactor's cannot occur in the model.
- Postgres, DataFusion, Vortex, Arrow, the cache engine, the bytes of FSTs and JSON parsing are assumed to do what their documentation says.
- SQL text and escaping, and the pairing of metadata and feedback conditions inside one and().
- `cleanup_orphaned_objects`, which can race a segment whose metadata is not yet committed.
- Cancellation, timeouts and wake-ups of tasks; leases, routing, retention, OTLP conversion, the HTTP layer, configuration and metrics.
- Hashes and generated ids: keys are opaque and only compared.
