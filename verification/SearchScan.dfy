/**
 The built index answers like a plain scan: for every predicate, a row matches in the
 index exactly when its token streams, values and paths say so (src/search/mod.rs).
 */
module SearchScan {
  import opened Bytes
  import opened PositionCodec
  import opened SearchIndexData
  import opened SearchPredicates
  import opened SearchEvaluation
  import opened TermEntries
  import opened BuiltIndex
  import opened TokenStreams

  // ---- the scan ----

  ghost predicate TokenSaid(c: Content, row: nat, field: SearchField, token: ByteString) {
    exists path, k: nat :: MatchesPath(field, path) && Says(c, Place(row, path), k, token)
  }

  ghost predicate PhraseSaidAt(c: Content, place: Place, start: nat, phrase: seq<ByteString>) {
    forall k: nat :: k < |phrase| ==> Says(c, place, start + k, phrase[k])
  }

  /** The phrase's tokens follow one another on one path. */
  ghost predicate PhraseSaid(c: Content, row: nat, field: SearchField, phrase: seq<ByteString>) {
    exists path, start: nat :: MatchesPath(field, path) && PhraseSaidAt(c, Place(row, path), start, phrase)
  }

  ghost predicate QuerySaid(c: Content, row: nat, field: SearchField, query: SearchQuery) {
    && !(query.terms == [] && query.phrases == [])
    && (forall i :: 0 <= i < |query.terms| ==> TokenSaid(c, row, field, query.terms[i]))
    && (forall i :: 0 <= i < |query.phrases| ==> PhraseSaid(c, row, field, query.phrases[i]))
  }

  ghost predicate ValueSaid(c: Content, row: nat, field: SearchField, value: ByteString) {
    exists path :: MatchesPath(field, path) && (Place(row, path), value) in c.exacts
  }

  ghost predicate KeySaid(c: Content, row: nat, pattern: ByteString) {
    exists path :: LooksForKey(path, pattern) && Place(row, path) in c.paths
  }

  /** What a leaf says of a row. */
  ghost predicate LeafSaid(c: Content, row: nat, leaf: SearchPredicate) {
    match leaf
    case Text(field, query) => QuerySaid(c, row, field, query)
    case ExactValue(field, value) => ValueSaid(c, row, field, value)
    case JsonKey(pattern) => KeySaid(c, row, pattern)
    case _ => false
  }

  /** Text leaves come out of the query parser. */
  ghost predicate QueriesValid(p: SearchPredicate) {
    match p
    case And(children) => forall i :: 0 <= i < |children| ==> QueriesValid(children[i])
    case Or(children) => forall i :: 0 <= i < |children| ==> QueriesValid(children[i])
    case Not(child) => QueriesValid(child)
    case Text(_, query) => ValidQuery(query)
    case _ => true
  }

  // ---- dictionary keys and what they stand for ----

  lemma {:induction false} TokenNoZero(token: ByteString)
    requires IsToken(token)
    ensures NoZero(token) && token[0] != '=' as int
  {
  }

  /** Looking for a token below a field finds the keys of that token under matching paths. */
  lemma {:induction false} LooksForToken(token: ByteString, path: ByteString, field: SearchField, wanted: ByteString)
    requires NoZero(token) && NoZero(wanted)
    ensures LooksForValue(ValueKey(token, path), field, wanted) <==> token == wanted && MatchesPath(field, path)
  {
    KeyParts(token, path);
    hide ValueKey, FirstZero, TermPath;
    match field
    case ExactPath(p) => KeyParts(wanted, p);
    case _ => PrefixIsToken(wanted, token, path);
  }

  lemma {:induction false} ExactIsNoToken(token: ByteString, value: ByteString)
    requires IsToken(token)
    ensures token != ExactValueToken(value)
  {
    TokenNoZero(token);
    assert ExactValueToken(value)[0] == '=' as int;
  }

  // ---- entries say what the content says ----

  ghost predicate Indexed(c: Content, terms: seq<ByteString>, occs: seq<Occurrence>, entries: seq<Entry>, chunks: seq<seq<Entry>>, groups: seq<RowGroup>) {
    AllTokens(c) && ValuesOf(c, terms, occs) && EntriesFor(terms, occs, entries, true) && Built(entries, true, chunks, groups)
  }

  /** An entry has a row exactly when its term occurs there. */
  lemma {:induction false} EntryRow(terms: seq<ByteString>, occs: seq<Occurrence>, entries: seq<Entry>, positioned: bool, e: Entry, row: nat)
    requires EntriesFor(terms, occs, entries, positioned) && e in entries
    ensures row in e.rows <==> exists o :: o in occs && TermOf(terms, o) == e.term && o.row == row
  {
    var i :| 0 <= i < |entries| && entries[i] == e;
    assert Describes(terms, occs, entries[i], positioned);
    assert row in e.rows <==> row in Members(e.rows);
  }

  lemma {:induction false} EntryPosition(terms: seq<ByteString>, occs: seq<Occurrence>, entries: seq<Entry>, e: Entry, row: nat, position: nat)
    requires EntriesFor(terms, occs, entries, true) && e in entries
    ensures row in e.rows && position in PositionsAt(e.positions, row) <==> Occurs(terms, occs, e.term, row, position)
  {
    var i :| 0 <= i < |entries| && entries[i] == e;
    assert Describes(terms, occs, entries[i], true);
    assert row in e.rows <==> row in Members(e.rows);
    if row in e.positions {
      assert position in e.positions[row] <==> position in Members(e.positions[row]);
    }
    if o :| o in occs && TermOf(terms, o) == e.term && o.row == row && o.position == position {
      assert row in RowsWith(terms, occs, e.term);
      assert position in PositionsWith(terms, occs, e.term, row);
    }
  }

  lemma {:induction false} OccurrenceEntry(terms: seq<ByteString>, occs: seq<Occurrence>, entries: seq<Entry>, positioned: bool, o: Occurrence) returns (e: Entry)
    requires EntriesFor(terms, occs, entries, positioned) && o in occs
    ensures e in entries && e.term == TermOf(terms, o)
  {
    var k :| 0 <= k < |occs| && occs[k] == o;
    assert HasEntry(entries, TermOf(terms, occs[k]));
    var i :| 0 <= i < |entries| && entries[i].term == TermOf(terms, occs[k]);
    e := entries[i];
  }

  /** A term that occurs is the key of a token said, or of an exact value. */
  lemma {:induction false} TermMeans(c: Content, term: ByteString, row: nat, position: nat, field: SearchField, token: ByteString)
    requires AllTokens(c) && IsToken(token) && LooksForValue(term, field, token)
    requires FromStream(c, term, row, position) || FromExact(c, term, row, position)
    ensures MatchesPath(field, TermPath(term)) && Says(c, Place(row, TermPath(term)), position, token)
  {
    hide LooksForValue, ValueKey, TermPath, ExactValueToken, IsToken, MatchesPath;
    TokenNoZero(token);
    if FromStream(c, term, row, position) {
      var path, t :| term == ValueKey(t, path) && Says(c, Place(row, path), position, t);
      assert HoldsTokens(StreamAt(c, Place(row, path)));
      TokenNoZero(t);
      LooksForToken(t, path, field, token);
      KeyParts(t, path);
    } else {
      var path, value :| (Place(row, path), value) in c.exacts && term == ValueKey(ExactValueToken(value), path) && position == 0;
      ExactTokenInjective(value, value);
      LooksForToken(ExactValueToken(value), path, field, token);
      ExactIsNoToken(token, value);
    }
  }

  lemma {:induction false} SpotSaid(
    c: Content, terms: seq<ByteString>, occs: seq<Occurrence>, entries: seq<Entry>, chunks: seq<seq<Entry>>, groups: seq<RowGroup>,
    field: SearchField, token: ByteString, spot: Spot)
    requires Indexed(c, terms, occs, entries, chunks, groups) && IsToken(token) && EntryHasSpot(entries, field, token, spot)
    ensures MatchesPath(field, spot.path) && Says(c, Place(spot.row, spot.path), spot.position, token)
  {
    hide Says, MatchesPath, LooksForValue, TermPath, Built, EntriesFor, ValueKey, IsToken, PositionsAt;
    var e :| e in entries && LooksForValue(e.term, field, token) && SpotIn(e, spot);
    EntryPosition(terms, occs, entries, e, spot.row, spot.position);
    var o :| o in occs && TermOf(terms, o) == e.term && o.row == spot.row && o.position == spot.position;
    TermMeans(c, e.term, spot.row, spot.position, field, token);
  }

  lemma {:induction false} SpotScan(
    c: Content, terms: seq<ByteString>, occs: seq<Occurrence>, entries: seq<Entry>, chunks: seq<seq<Entry>>, groups: seq<RowGroup>,
    field: SearchField, token: ByteString, spot: Spot)
    requires Indexed(c, terms, occs, entries, chunks, groups) && IsToken(token)
    ensures TokenAtSpot(groups, field, token, spot) <==> MatchesPath(field, spot.path) && Says(c, Place(spot.row, spot.path), spot.position, token)
  {
    SpotsBuilt(entries, chunks, groups, field, token, spot);
    hide TokenAtSpot, Says, MatchesPath, LooksForValue, TermPath, Built, EntriesFor, ValueKey, IsToken, PositionsAt;
    if EntryHasSpot(entries, field, token, spot) {
      SpotSaid(c, terms, occs, entries, chunks, groups, field, token, spot);
    }
    if MatchesPath(field, spot.path) && Says(c, Place(spot.row, spot.path), spot.position, token) {
      var term := ValueKey(token, spot.path);
      assert Occurs(terms, occs, term, spot.row, spot.position);
      var o :| o in occs && TermOf(terms, o) == term && o.row == spot.row && o.position == spot.position;
      var e := OccurrenceEntry(terms, occs, entries, true, o);
      EntryPosition(terms, occs, entries, e, spot.row, spot.position);
      TokenNoZero(token);
      LooksForToken(token, spot.path, field, token);
      KeyParts(token, spot.path);
      assert SpotIn(e, spot);
    }
  }

  lemma {:induction false} TokenScan(
    c: Content, terms: seq<ByteString>, occs: seq<Occurrence>, entries: seq<Entry>, chunks: seq<seq<Entry>>, groups: seq<RowGroup>,
    field: SearchField, token: ByteString, row: nat)
    requires Indexed(c, terms, occs, entries, chunks, groups) && IsToken(token)
    ensures TokenInRow(groups, field, token, row) <==> TokenSaid(c, row, field, token)
  {
    TokenRowsBuilt(entries, true, chunks, groups, field, token, row);
    hide TokenInRow, Says, MatchesPath, LooksForValue, TermPath, Built, EntriesFor, ValueKey, IsToken;
    if EntryHasToken(entries, field, token, row) {
      var e :| e in entries && LooksForValue(e.term, field, token) && row in e.rows;
      EntryRow(terms, occs, entries, true, e, row);
      var o :| o in occs && TermOf(terms, o) == e.term && o.row == row;
      TermMeans(c, e.term, row, o.position, field, token);
    }
    if TokenSaid(c, row, field, token) {
      var path, k: nat :| MatchesPath(field, path) && Says(c, Place(row, path), k, token);
      assert Occurs(terms, occs, ValueKey(token, path), row, k);
      var o :| o in occs && TermOf(terms, o) == ValueKey(token, path) && o.row == row && o.position == k;
      var e := OccurrenceEntry(terms, occs, entries, true, o);
      EntryRow(terms, occs, entries, true, e, row);
      TokenNoZero(token);
      LooksForToken(token, path, field, token);
    }
  }

  lemma {:induction false} ExactScan(
    c: Content, terms: seq<ByteString>, occs: seq<Occurrence>, entries: seq<Entry>, chunks: seq<seq<Entry>>, groups: seq<RowGroup>,
    field: SearchField, value: ByteString, row: nat)
    requires Indexed(c, terms, occs, entries, chunks, groups)
    ensures TokenInRow(groups, field, ExactValueToken(value), row) <==> ValueSaid(c, row, field, value)
  {
    var wanted := ExactValueToken(value);
    ExactTokenInjective(value, value);
    TokenRowsBuilt(entries, true, chunks, groups, field, wanted, row);
    hide TokenInRow, Says, MatchesPath, LooksForValue, TermPath, Built, EntriesFor, ValueKey, IsToken, ExactValueToken;
    if EntryHasToken(entries, field, wanted, row) {
      var e :| e in entries && LooksForValue(e.term, field, wanted) && row in e.rows;
      EntryRow(terms, occs, entries, true, e, row);
      var o :| o in occs && TermOf(terms, o) == e.term && o.row == row;
      ExactTermMeans(c, e.term, row, o.position, field, value);
    }
    if ValueSaid(c, row, field, value) {
      var path :| MatchesPath(field, path) && (Place(row, path), value) in c.exacts;
      assert Occurs(terms, occs, ValueKey(ExactValueToken(value), Place(row, path).path), row, 0);
      var o :| o in occs && TermOf(terms, o) == ValueKey(wanted, path) && o.row == row && o.position == 0;
      var e := OccurrenceEntry(terms, occs, entries, true, o);
      EntryRow(terms, occs, entries, true, e, row);
      LooksForToken(wanted, path, field, wanted);
    }
  }

  lemma {:induction false} ExactTermMeans(c: Content, term: ByteString, row: nat, position: nat, field: SearchField, value: ByteString)
    requires AllTokens(c) && LooksForValue(term, field, ExactValueToken(value))
    requires FromStream(c, term, row, position) || FromExact(c, term, row, position)
    ensures ValueSaid(c, row, field, value)
  {
    hide LooksForValue, ValueKey, TermPath, ExactValueToken, IsToken, MatchesPath;
    ExactTokenInjective(value, value);
    if FromExact(c, term, row, position) {
      var path, v :| (Place(row, path), v) in c.exacts && term == ValueKey(ExactValueToken(v), path) && position == 0;
      ExactTokenInjective(v, value);
      LooksForToken(ExactValueToken(v), path, field, ExactValueToken(value));
    } else {
      var path, t :| term == ValueKey(t, path) && Says(c, Place(row, path), position, t);
      assert HoldsTokens(StreamAt(c, Place(row, path)));
      TokenNoZero(t);
      LooksForToken(t, path, field, ExactValueToken(value));
      ExactIsNoToken(t, value);
    }
  }

  lemma {:induction false} KeyScan(
    c: Content, terms: seq<ByteString>, occs: seq<Occurrence>, entries: seq<Entry>, chunks: seq<seq<Entry>>, groups: seq<RowGroup>,
    pattern: ByteString, row: nat)
    requires KeysOf(c, terms, occs) && EntriesFor(terms, occs, entries, false) && Built(entries, false, chunks, groups)
    ensures KeyInRow(groups, pattern, row) <==> KeySaid(c, row, pattern)
  {
    KeyRowsBuilt(entries, false, chunks, groups, pattern, row);
    hide KeyInRow, LooksForKey, Built, EntriesFor;
    if EntryHasKey(entries, pattern, row) {
      var e :| e in entries && LooksForKey(e.term, pattern) && row in e.rows;
      EntryRow(terms, occs, entries, false, e, row);
      var o :| o in occs && TermOf(terms, o) == e.term && o.row == row;
      assert Place(o.row, TermOf(terms, o)) in c.paths;
    }
    if KeySaid(c, row, pattern) {
      var path :| LooksForKey(path, pattern) && Place(row, path) in c.paths;
      var o :| o in occs && o.row == Place(row, path).row && TermOf(terms, o) == Place(row, path).path;
      var e := OccurrenceEntry(terms, occs, entries, false, o);
      EntryRow(terms, occs, entries, false, e, row);
    }
  }

  // ---- phrases ----

  /** No stream is so long that a position would not fit a u32. */
  ghost predicate PositionsFit(c: Content) {
    forall place :: place in c.streams ==> |c.streams[place]| <= U32_MAX
  }

  /** Positions that follow one another never wrap: the first one past the end would fail first. */
  lemma {:induction false} NoWrap(c: Content, spot: Spot, phrase: seq<ByteString>, k: nat)
    requires PositionsFit(c) && k < |phrase|
    requires Says(c, Place(spot.row, spot.path), spot.position, phrase[0])
    requires forall i :: 1 <= i < |phrase| ==> Says(c, Place(spot.row, spot.path), Further(spot, i).position, phrase[i])
    ensures Says(c, Place(spot.row, spot.path), spot.position + k, phrase[k])
  {
    if k > 0 {
      NoWrap(c, spot, phrase, k - 1);
      assert spot.position + k < U32_SIZE;
      assert Further(spot, k).position == spot.position + k;
    }
  }

  lemma {:induction false} PhraseScan(
    c: Content, terms: seq<ByteString>, occs: seq<Occurrence>, entries: seq<Entry>, chunks: seq<seq<Entry>>, groups: seq<RowGroup>,
    field: SearchField, phrase: seq<ByteString>, row: nat)
    requires Indexed(c, terms, occs, entries, chunks, groups) && PositionsFit(c)
    requires phrase != [] && forall t :: t in phrase ==> IsToken(t)
    ensures PhraseInRow(groups, field, phrase, row) <==> PhraseSaid(c, row, field, phrase)
  {
    hide TokenInRow, TokenAtSpot, Indexed, MatchesPath, IsToken, Says;
    if |phrase| == 1 {
      TokenScan(c, terms, occs, entries, chunks, groups, field, phrase[0], row);
      if TokenSaid(c, row, field, phrase[0]) {
        var path, k: nat :| MatchesPath(field, path) && Says(c, Place(row, path), k, phrase[0]);
        assert PhraseSaidAt(c, Place(row, path), k, phrase);
      }
      if PhraseSaid(c, row, field, phrase) {
        var path, start: nat :| MatchesPath(field, path) && PhraseSaidAt(c, Place(row, path), start, phrase);
        assert Says(c, Place(row, path), start + 0, phrase[0]);
      }
    } else {
      if PhraseInRow(groups, field, phrase, row) {
        var spot: Spot :| spot.row == row && PhraseFrom(groups, field, phrase, spot);
        SpotScan(c, terms, occs, entries, chunks, groups, field, phrase[0], spot);
        forall k | 1 <= k < |phrase|
          ensures Says(c, Place(row, spot.path), Further(spot, k).position, phrase[k])
        {
          SpotScan(c, terms, occs, entries, chunks, groups, field, phrase[k], Further(spot, k));
        }
        forall k: nat | k < |phrase|
          ensures Says(c, Place(row, spot.path), spot.position + k, phrase[k])
        {
          NoWrap(c, spot, phrase, k);
        }
        assert PhraseSaidAt(c, Place(row, spot.path), spot.position, phrase);
      }
      if PhraseSaid(c, row, field, phrase) {
        var path, start: nat :| MatchesPath(field, path) && PhraseSaidAt(c, Place(row, path), start, phrase);
        var spot := Spot(row, path, start);
        assert Says(c, Place(row, path), start + 0, phrase[0]);
        SpotScan(c, terms, occs, entries, chunks, groups, field, phrase[0], spot);
        forall k | 1 <= k < |phrase|
          ensures TokenAtSpot(groups, field, phrase[k], Further(spot, k))
        {
          assert Says(c, Place(row, path), start + k, phrase[k]);
          PositionFits(c, Place(row, path), start + k, phrase[k]);
          SpotScan(c, terms, occs, entries, chunks, groups, field, phrase[k], Further(spot, k));
        }
        assert PhraseFrom(groups, field, phrase, spot);
      }
    }
  }

  lemma {:induction false} PositionFits(c: Content, place: Place, position: nat, token: ByteString)
    requires PositionsFit(c) && Says(c, place, position, token)
    ensures position < U32_SIZE && position % U32_SIZE == position
  {
  }

  lemma {:induction false} QueryScan(
    c: Content, terms: seq<ByteString>, occs: seq<Occurrence>, entries: seq<Entry>, chunks: seq<seq<Entry>>, groups: seq<RowGroup>,
    field: SearchField, query: SearchQuery, row: nat)
    requires Indexed(c, terms, occs, entries, chunks, groups) && PositionsFit(c) && ValidQuery(query)
    ensures QueryInRow(groups, field, query, row) <==> QuerySaid(c, row, field, query)
  {
    hide TokenInRow, PhraseInRow, Indexed, TokenSaid, PhraseSaid, IsToken;
    forall i | 0 <= i < |query.terms|
      ensures TokenInRow(groups, field, query.terms[i], row) <==> TokenSaid(c, row, field, query.terms[i])
    {
      TokenScan(c, terms, occs, entries, chunks, groups, field, query.terms[i], row);
    }
    forall i | 0 <= i < |query.phrases|
      ensures PhraseInRow(groups, field, query.phrases[i], row) <==> PhraseSaid(c, row, field, query.phrases[i])
    {
      assert query.phrases[i] in query.phrases;
      PhraseScan(c, terms, occs, entries, chunks, groups, field, query.phrases[i], row);
    }
  }

  // ---- whole predicates ----

  /** An index built from the occurrences of a content. */
  ghost predicate IndexOf(
    c: Content, index: SearchIndex,
    keyTerms: seq<ByteString>, keyOccs: seq<Occurrence>, keyEntries: seq<Entry>, keyChunks: seq<seq<Entry>>,
    valueTerms: seq<ByteString>, valueOccs: seq<Occurrence>, valueEntries: seq<Entry>, valueChunks: seq<seq<Entry>>)
  {
    && KeysOf(c, keyTerms, keyOccs) && EntriesFor(keyTerms, keyOccs, keyEntries, false) && Built(keyEntries, false, keyChunks, index.keyGroups)
    && Indexed(c, valueTerms, valueOccs, valueEntries, valueChunks, index.valueGroups)
    && PositionsFit(c)
  }

  /** Every row the content speaks of is a row of the index. */
  ghost predicate RowsInside(c: Content, rowCount: nat) {
    && (forall place: Place, k: nat, token :: Says(c, place, k, token) ==> place.row < rowCount)
    && (forall place: Place, value :: (place, value) in c.exacts ==> place.row < rowCount)
    && (forall place: Place :: place in c.paths ==> place.row < rowCount)
  }

  ghost predicate Scanned(c: Content, rowCount: nat, row: nat, p: SearchPredicate) {
    row < rowCount && Eval(p, leaf => LeafSaid(c, row, leaf))
  }

  lemma {:induction false} LeafInside(c: Content, rowCount: nat, row: nat, leaf: SearchPredicate)
    requires RowsInside(c, rowCount) && LeafSaid(c, row, leaf) && QueriesValid(leaf)
    ensures row < rowCount
  {
    hide Says, MatchesPath, LooksForKey, IsToken;
    match leaf
    case Text(field, query) =>
      if query.terms != [] {
        assert TokenSaid(c, row, field, query.terms[0]);
      } else {
        assert PhraseSaid(c, row, field, query.phrases[0]);
        var path, start: nat :| MatchesPath(field, path) && PhraseSaidAt(c, Place(row, path), start, query.phrases[0]);
        assert query.phrases[0] in query.phrases;
        assert Says(c, Place(row, path), start + 0, query.phrases[0][0]);
      }
    case _ =>
  }

  /** A built index matches a predicate in exactly the rows the scan does. */
  lemma {:induction false} IndexScans(
    c: Content, index: SearchIndex,
    keyTerms: seq<ByteString>, keyOccs: seq<Occurrence>, keyEntries: seq<Entry>, keyChunks: seq<seq<Entry>>,
    valueTerms: seq<ByteString>, valueOccs: seq<Occurrence>, valueEntries: seq<Entry>, valueChunks: seq<seq<Entry>>,
    p: SearchPredicate, row: nat)
    requires IndexOf(c, index, keyTerms, keyOccs, keyEntries, keyChunks, valueTerms, valueOccs, valueEntries, valueChunks)
    requires RowsInside(c, index.rowCount) && QueriesValid(p)
    ensures RowMatches(index, p, row) <==> Scanned(c, index.rowCount, row, p)
  {
    hide IndexOf, RowsInside, QueryInRow, TokenInRow, KeyInRow, QuerySaid, ValueSaid, KeySaid, ValidQuery;
    match p
    case And(children) =>
      forall i | 0 <= i < |children|
        ensures RowMatches(index, children[i], row) <==> Scanned(c, index.rowCount, row, children[i])
      {
        IndexScans(c, index, keyTerms, keyOccs, keyEntries, keyChunks, valueTerms, valueOccs, valueEntries, valueChunks, children[i], row);
      }
      if children != [] {
        assert RowMatches(index, children[0], row) ==> row < index.rowCount;
      }
    case Or(children) =>
      forall i | 0 <= i < |children|
        ensures RowMatches(index, children[i], row) <==> Scanned(c, index.rowCount, row, children[i])
      {
        IndexScans(c, index, keyTerms, keyOccs, keyEntries, keyChunks, valueTerms, valueOccs, valueEntries, valueChunks, children[i], row);
      }
    case Not(child) =>
      IndexScans(c, index, keyTerms, keyOccs, keyEntries, keyChunks, valueTerms, valueOccs, valueEntries, valueChunks, child, row);
    case _ =>
      LeafScans(c, index, keyTerms, keyOccs, keyEntries, keyChunks, valueTerms, valueOccs, valueEntries, valueChunks, p, row);
      if LeafSaid(c, row, p) {
        LeafInside(c, index.rowCount, row, p);
      }
  }

  lemma {:induction false} LeafScans(
    c: Content, index: SearchIndex,
    keyTerms: seq<ByteString>, keyOccs: seq<Occurrence>, keyEntries: seq<Entry>, keyChunks: seq<seq<Entry>>,
    valueTerms: seq<ByteString>, valueOccs: seq<Occurrence>, valueEntries: seq<Entry>, valueChunks: seq<seq<Entry>>,
    p: SearchPredicate, row: nat)
    requires IndexOf(c, index, keyTerms, keyOccs, keyEntries, keyChunks, valueTerms, valueOccs, valueEntries, valueChunks)
    requires QueriesValid(p) && !p.And? && !p.Or? && !p.Not?
    ensures RowMatches(index, p, row) <==> LeafSaid(c, row, p)
  {
    hide Indexed, EntriesFor, Built, KeysOf, QueryInRow, TokenInRow, KeyInRow, QuerySaid, ValueSaid, KeySaid, ValidQuery;
    match p
    case Text(field, query) => QueryScan(c, valueTerms, valueOccs, valueEntries, valueChunks, index.valueGroups, field, query, row);
    case ExactValue(field, value) => ExactScan(c, valueTerms, valueOccs, valueEntries, valueChunks, index.valueGroups, field, value, row);
    case JsonKey(pattern) => KeyScan(c, keyTerms, keyOccs, keyEntries, keyChunks, index.keyGroups, pattern, row);
  }
}
