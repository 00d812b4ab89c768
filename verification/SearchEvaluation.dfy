/** Evaluating a search predicate over an index (src/search/mod.rs). */
module SearchEvaluation {
  import opened Wrappers
  import opened Bytes
  import opened ListCodec
  import opened PositionCodec
  import opened SearchIndexData
  import opened SearchPredicates

  const U32_SIZE: nat := 0x1_0000_0000

  datatype DecodedTerm = DecodedTerm(path: ByteString, rows: set<nat>, positions: map<nat, set<nat>>)

  /** One place a token stands: row, path and position. */
  datatype Spot = Spot(row: nat, path: ByteString, position: nat)

  // ---- one term ----

  /** `decode_u32_list`. */
  function DecodedList(bytes: ByteString, count: nat): Option<seq<nat>> {
    match ReadList(bytes, count)
    case Err(_) => None
    case Ok(read) => if read.rest == [] then Some(read.value) else None
  }

  function Cut(bytes: ByteString, offset: nat, len: nat): Option<ByteString> {
    if offset + len <= |bytes| then Some(bytes[offset..offset + len]) else None
  }

  function DecodeTerm(path: ByteString, docCount: nat, postings: ByteString, positions: Option<ByteString>): Option<DecodedTerm> {
    match DecodedList(postings, docCount)
    case None => None
    case Some(rows) =>
      if positions.None? then Some(DecodedTerm(path, Elements(rows), map[]))
      else match ReadPositions(positions.value, rows, map[])
        case Err(_) => None
        case Ok(found) => Some(DecodedTerm(path, Elements(rows), found))
  }

  /** `group_term_by_ordinal`. */
  function TermAt(g: RowGroup, ordinal: nat, includePositions: bool): Option<DecodedTerm> {
    if ordinal >= |g.infos| || ordinal >= |g.terms| then None
    else
      var info := g.infos[ordinal];
      match Cut(g.postings, info.postingsOffset, info.postingsLen)
      case None => None
      case Some(postings) =>
        if includePositions && info.positionsLen > 0 then
          match Cut(g.positions, info.positionsOffset, info.positionsLen)
            case None => None
            case Some(positions) => DecodeTerm(TermPath(g.terms[ordinal]), info.docCount, postings, Some(positions))
        else DecodeTerm(TermPath(g.terms[ordinal]), info.docCount, postings, None)
  }

  // ---- which terms a leaf looks at ----

  predicate LooksForValue(term: ByteString, field: SearchField, token: ByteString) {
    match field
    case ExactPath(path) => term == ValueKey(token, path)
    case _ => ValuePrefix(token) <= term && MatchesPath(field, TermPath(term))
  }

  predicate ValueGroupMayHit(minTerm: ByteString, maxTerm: ByteString, field: SearchField, token: ByteString) {
    match field
    case ExactPath(path) => MayContainExact(minTerm, maxTerm, ValueKey(token, path))
    case _ => OverlapsPrefix(minTerm, maxTerm, ValuePrefix(token))
  }

  function NormalizePattern(pattern: ByteString): ByteString {
    seq(|pattern|, i requires 0 <= i < |pattern| => if pattern[i] == '%' as int then '*' as int else pattern[i])
  }

  const STAR: Byte := '*' as int

  /** `simple_trailing_wildcard_prefix`. */
  function TrailingWildcardPrefix(pattern: ByteString): Option<ByteString> {
    if pattern != [] && pattern[|pattern| - 1] == STAR && STAR !in pattern[..|pattern| - 1] then Some(pattern[..|pattern| - 1]) else None
  }

  function SplitAtStars(pattern: ByteString): seq<ByteString> {
    if pattern == [] then [[]]
    else
      var rest := SplitAtStars(pattern[1..]);
      if pattern[0] == STAR then [[]] + rest else if rest == [] then [[pattern[0]]] else [[pattern[0]] + rest[0]] + rest[1..]
  }

  /** What is left after the first occurrence of `part`. */
  function AfterFirst(text: ByteString, part: ByteString): Option<ByteString> {
    if part <= text then Some(text[|part|..]) else if text == [] then None else AfterFirst(text[1..], part)
  }

  function MatchParts(remaining: ByteString, parts: seq<ByteString>, anchored: bool): Option<ByteString>
    decreases |parts|
  {
    if parts == [] then Some(remaining)
    else if parts[0] == [] then MatchParts(remaining, parts[1..], anchored)
    else if anchored then
      if parts[0] <= remaining then MatchParts(remaining[|parts[0]|..], parts[1..], false) else None
    else match AfterFirst(remaining, parts[0])
      case None => None
      case Some(rest) => MatchParts(rest, parts[1..], false)
  }

  /** `path_matches_pattern`. */
  predicate PathMatchesPattern(path: ByteString, pattern: ByteString) {
    if STAR !in pattern then path == pattern
    else match MatchParts(path, SplitAtStars(pattern), pattern[0] != STAR)
      case None => false
      case Some(rest) => pattern[|pattern| - 1] == STAR || rest == []
  }

  predicate LooksForKey(term: ByteString, pattern: ByteString) {
    var normal := NormalizePattern(pattern);
    if STAR !in normal then term == normal
    else match TrailingWildcardPrefix(normal)
      case Some(prefix) => prefix <= term
      case None => PathMatchesPattern(term, normal)
  }

  predicate KeyGroupMayHit(minTerm: ByteString, maxTerm: ByteString, pattern: ByteString) {
    var normal := NormalizePattern(pattern);
    if STAR !in normal then MayContainExact(minTerm, maxTerm, normal)
    else match TrailingWildcardPrefix(normal)
      case Some(prefix) => OverlapsPrefix(minTerm, maxTerm, prefix)
      case None => true
  }

  // ---- what the leaves find ----

  predicate ReadsValue(g: RowGroup, ordinal: nat, field: SearchField, token: ByteString) {
    ordinal < |g.terms| && ValueGroupMayHit(g.minTerm, g.maxTerm, field, token) && LooksForValue(g.terms[ordinal], field, token)
  }

  predicate ReadsKey(g: RowGroup, ordinal: nat, pattern: ByteString) {
    ordinal < |g.terms| && KeyGroupMayHit(g.minTerm, g.maxTerm, pattern) && LooksForKey(g.terms[ordinal], pattern)
  }

  predicate HasRow(term: Option<DecodedTerm>, row: nat) {
    term.Some? && row in term.value.rows
  }

  predicate HasSpot(term: Option<DecodedTerm>, spot: Spot) {
    term.Some? && term.value.path == spot.path && spot.row in term.value.positions && spot.position in term.value.positions[spot.row]
  }

  ghost predicate TokenInRow(groups: seq<RowGroup>, field: SearchField, token: ByteString, row: nat) {
    exists i: nat, o: nat :: i < |groups| && ReadsValue(groups[i], o, field, token) && HasRow(TermAt(groups[i], o, false), row)
  }

  ghost predicate TokenAtSpot(groups: seq<RowGroup>, field: SearchField, token: ByteString, spot: Spot) {
    exists i: nat, o: nat :: i < |groups| && ReadsValue(groups[i], o, field, token) && HasSpot(TermAt(groups[i], o, true), spot)
  }

  ghost predicate KeyInRow(groups: seq<RowGroup>, pattern: ByteString, row: nat) {
    exists i: nat, o: nat :: i < |groups| && ReadsKey(groups[i], o, pattern) && HasRow(TermAt(groups[i], o, false), row)
  }

  /** `k` tokens further on; positions are u32s that wrap. */
  function Further(spot: Spot, k: nat): Spot {
    Spot(spot.row, spot.path, (spot.position + k) % U32_SIZE)
  }

  /** The tokens stand one after the other from `spot` on. */
  ghost predicate PhraseFrom(groups: seq<RowGroup>, field: SearchField, phrase: seq<ByteString>, spot: Spot) {
    && (phrase != [] ==> TokenAtSpot(groups, field, phrase[0], spot))
    && forall k :: 1 <= k < |phrase| ==> TokenAtSpot(groups, field, phrase[k], Further(spot, k))
  }

  ghost predicate PhraseInRow(groups: seq<RowGroup>, field: SearchField, phrase: seq<ByteString>, row: nat) {
    if phrase == [] then false
    else if |phrase| == 1 then TokenInRow(groups, field, phrase[0], row)
    else exists spot: Spot :: spot.row == row && PhraseFrom(groups, field, phrase, spot)
  }

  ghost predicate QueryInRow(groups: seq<RowGroup>, field: SearchField, query: SearchQuery, row: nat) {
    && !(query.terms == [] && query.phrases == [])
    && (forall i :: 0 <= i < |query.terms| ==> TokenInRow(groups, field, query.terms[i], row))
    && (forall i :: 0 <= i < |query.phrases| ==> PhraseInRow(groups, field, query.phrases[i], row))
  }

  /** `matching_rows`, as the rows it returns. */
  ghost predicate RowMatches(index: SearchIndex, p: SearchPredicate, row: nat) {
    match p
    case And(children) =>
      if children == [] then row < index.rowCount else forall i :: 0 <= i < |children| ==> RowMatches(index, children[i], row)
    case Or(children) => exists i :: 0 <= i < |children| && RowMatches(index, children[i], row)
    case Not(child) => row < index.rowCount && !RowMatches(index, child, row)
    case Text(field, query) => QueryInRow(index.valueGroups, field, query, row)
    case ExactValue(field, value) => TokenInRow(index.valueGroups, field, ExactValueToken(value), row)
    case JsonKey(pattern) => KeyInRow(index.keyGroups, pattern, row)
  }

  // ---- the evaluator ----

  /** The terms of a group from `ordinal` on that a leaf looks for, as far as they decode. */
  function GroupTerms(g: RowGroup, looksFor: ByteString -> bool, includePositions: bool, ordinal: nat): seq<DecodedTerm>
    decreases |g.terms| - ordinal
  {
    if ordinal >= |g.terms| then []
    else
      var term := if looksFor(g.terms[ordinal]) then TermAt(g, ordinal, includePositions) else None;
      (if term.Some? then [term.value] else []) + GroupTerms(g, looksFor, includePositions, ordinal + 1)
  }

  /** The same over every group that pruning keeps. */
  function TermsRead(groups: seq<RowGroup>, keep: RowGroup -> bool, looksFor: ByteString -> bool, includePositions: bool): seq<DecodedTerm> {
    if groups == [] then []
    else
      (if keep(groups[0]) then GroupTerms(groups[0], looksFor, includePositions, 0) else [])
      + TermsRead(groups[1..], keep, looksFor, includePositions)
  }

  /** `value_terms_for_token`. */
  function ValueTerms(groups: seq<RowGroup>, field: SearchField, token: ByteString, includePositions: bool): seq<DecodedTerm> {
    TermsRead(groups, (g: RowGroup) => ValueGroupMayHit(g.minTerm, g.maxTerm, field, token),
              term => LooksForValue(term, field, token), includePositions)
  }

  function RowsOf(terms: seq<DecodedTerm>): set<nat> {
    set t, r | t in terms && r in t.rows :: r
  }

  /** `positions_by_row_path`, flattened. */
  function SpotsOf(terms: seq<DecodedTerm>): set<Spot> {
    set t, r, p | t in terms && r in t.positions && p in t.positions[r] :: Spot(r, t.path, p)
  }

  function RowsForTerm(groups: seq<RowGroup>, field: SearchField, token: ByteString): set<nat> {
    RowsOf(ValueTerms(groups, field, token, false))
  }

  function RowsForKey(groups: seq<RowGroup>, pattern: ByteString): set<nat> {
    RowsOf(TermsRead(groups, (g: RowGroup) => KeyGroupMayHit(g.minTerm, g.maxTerm, pattern), term => LooksForKey(term, pattern), false))
  }

  function RowsForPhrase(groups: seq<RowGroup>, field: SearchField, phrase: seq<ByteString>): set<nat> {
    if phrase == [] then {}
    else if |phrase| == 1 then RowsForTerm(groups, field, phrase[0])
    else if exists k :: 0 <= k < |phrase| && ValueTerms(groups, field, phrase[k], true) == [] then {}
    else
      set spot |
        && spot in SpotsOf(ValueTerms(groups, field, phrase[0], true))
        && forall k :: 1 <= k < |phrase| ==> Further(spot, k) in SpotsOf(ValueTerms(groups, field, phrase[k], true))
      :: spot.row
  }

  function Intersection(rows: set<nat>, others: seq<set<nat>>): set<nat>
    decreases |others|
  {
    if others == [] then rows else Intersection(rows * others[0], others[1..])
  }

  function Union(rows: set<nat>, others: seq<set<nat>>): set<nat>
    decreases |others|
  {
    if others == [] then rows else Union(rows + others[0], others[1..])
  }

  function RowsForQuery(groups: seq<RowGroup>, field: SearchField, query: SearchQuery): set<nat> {
    var required :=
      seq(|query.terms|, i requires 0 <= i < |query.terms| => RowsForTerm(groups, field, query.terms[i]))
      + seq(|query.phrases|, i requires 0 <= i < |query.phrases| => RowsForPhrase(groups, field, query.phrases[i]));
    if required == [] then {} else Intersection(required[0], required[1..])
  }

  function RowsBelow(n: nat): (rows: set<nat>)
    ensures forall r :: r in rows <==> 0 <= r < n
  {
    if n == 0 then {} else RowsBelow(n - 1) + {n - 1}
  }

  function AllRows(index: SearchIndex): set<nat> {
    RowsBelow(index.rowCount)
  }

  /** `matching_rows`. */
  function MatchingRows(index: SearchIndex, p: SearchPredicate): set<nat> {
    match p
    case And(children) =>
      if children == [] then AllRows(index)
      else
        var rows := seq(|children|, i requires 0 <= i < |children| => MatchingRows(index, children[i]));
        Intersection(rows[0], rows[1..])
    case Or(children) =>
      var rows := seq(|children|, i requires 0 <= i < |children| => MatchingRows(index, children[i]));
      Union({}, rows)
    case Not(child) => AllRows(index) - MatchingRows(index, child)
    case Text(field, query) => RowsForQuery(index.valueGroups, field, query)
    case ExactValue(field, value) => RowsForTerm(index.valueGroups, field, ExactValueToken(value))
    case JsonKey(pattern) => RowsForKey(index.keyGroups, pattern)
  }

  // ---- the evaluator returns the matching rows ----

  lemma {:induction false} IntersectionHolds(rows: set<nat>, others: seq<set<nat>>, row: nat)
    ensures row in Intersection(rows, others) <==> row in rows && forall i :: 0 <= i < |others| ==> row in others[i]
    decreases |others|
  {
    if others != [] {
      IntersectionHolds(rows * others[0], others[1..], row);
      assert forall i :: 1 <= i < |others| ==> others[i] == others[1..][i - 1];
      assert forall i :: 0 <= i < |others[1..]| ==> others[1..][i] == others[i + 1];
    }
  }

  lemma {:induction false} UnionHolds(rows: set<nat>, others: seq<set<nat>>, row: nat)
    ensures row in Union(rows, others) <==> row in rows || exists i :: 0 <= i < |others| && row in others[i]
    decreases |others|
  {
    if others != [] {
      UnionHolds(rows + others[0], others[1..], row);
      assert forall i :: 1 <= i < |others| ==> others[i] == others[1..][i - 1];
      assert forall i :: 0 <= i < |others[1..]| ==> others[1..][i] == others[i + 1];
    }
  }

  ghost predicate ReadAt(g: RowGroup, looksFor: ByteString -> bool, includePositions: bool, o: nat, t: DecodedTerm) {
    o < |g.terms| && looksFor(g.terms[o]) && TermAt(g, o, includePositions) == Some(t)
  }

  lemma {:induction false} GroupTermsHold(g: RowGroup, looksFor: ByteString -> bool, includePositions: bool, from: nat, t: DecodedTerm)
    ensures t in GroupTerms(g, looksFor, includePositions, from)
       <==> exists o: nat :: from <= o && ReadAt(g, looksFor, includePositions, o, t)
    decreases |g.terms| - from
  {
    hide TermAt;
    if from < |g.terms| {
      GroupTermsHold(g, looksFor, includePositions, from + 1, t);
      var here := if looksFor(g.terms[from]) then TermAt(g, from, includePositions) else None;
      assert t in GroupTerms(g, looksFor, includePositions, from)
        <==> here == Some(t) || t in GroupTerms(g, looksFor, includePositions, from + 1);
      assert here == Some(t) <==> ReadAt(g, looksFor, includePositions, from, t);
    }
  }

  ghost predicate ReadIn(
    groups: seq<RowGroup>, keep: RowGroup -> bool, looksFor: ByteString -> bool, includePositions: bool, i: nat, o: nat, t: DecodedTerm)
  {
    i < |groups| && keep(groups[i]) && ReadAt(groups[i], looksFor, includePositions, o, t)
  }

  lemma {:induction false} TermsReadHold(
    groups: seq<RowGroup>, keep: RowGroup -> bool, looksFor: ByteString -> bool, includePositions: bool, t: DecodedTerm)
    ensures t in TermsRead(groups, keep, looksFor, includePositions)
       <==> exists i: nat, o: nat :: ReadIn(groups, keep, looksFor, includePositions, i, o, t)
  {
    hide GroupTerms, ReadAt;
    if groups != [] {
      var rest := groups[1..];
      TermsReadHold(rest, keep, looksFor, includePositions, t);
      GroupTermsHold(groups[0], looksFor, includePositions, 0, t);
      assert forall i: nat, o: nat :: ReadIn(rest, keep, looksFor, includePositions, i, o, t) ==> ReadIn(groups, keep, looksFor, includePositions, i + 1, o, t);
      assert forall i: nat, o: nat :: i > 0 && ReadIn(groups, keep, looksFor, includePositions, i, o, t) ==> ReadIn(rest, keep, looksFor, includePositions, i - 1, o, t);
      assert forall o: nat :: ReadIn(groups, keep, looksFor, includePositions, 0, o, t) <==> keep(groups[0]) && ReadAt(groups[0], looksFor, includePositions, o, t);
    }
  }

  ghost predicate RowAt(groups: seq<RowGroup>, keep: RowGroup -> bool, looksFor: ByteString -> bool, i: nat, o: nat, row: nat) {
    && i < |groups| && keep(groups[i]) && o < |groups[i].terms| && looksFor(groups[i].terms[o])
    && HasRow(TermAt(groups[i], o, false), row)
  }

  ghost predicate SpotAt(groups: seq<RowGroup>, keep: RowGroup -> bool, looksFor: ByteString -> bool, i: nat, o: nat, spot: Spot) {
    && i < |groups| && keep(groups[i]) && o < |groups[i].terms| && looksFor(groups[i].terms[o])
    && HasSpot(TermAt(groups[i], o, true), spot)
  }

  lemma {:induction false} RowsReadHold(groups: seq<RowGroup>, keep: RowGroup -> bool, looksFor: ByteString -> bool, row: nat)
    ensures row in RowsOf(TermsRead(groups, keep, looksFor, false)) <==> exists i: nat, o: nat :: RowAt(groups, keep, looksFor, i, o, row)
  {
    var terms := TermsRead(groups, keep, looksFor, false);
    hide TermAt, TermsRead;
    if row in RowsOf(terms) {
      var t :| t in terms && row in t.rows;
      TermsReadHold(groups, keep, looksFor, false, t);
      var i: nat, o: nat :| ReadIn(groups, keep, looksFor, false, i, o, t);
      assert RowAt(groups, keep, looksFor, i, o, row);
    }
    if i: nat, o: nat :| RowAt(groups, keep, looksFor, i, o, row) {
      var t := TermAt(groups[i], o, false).value;
      TermsReadHold(groups, keep, looksFor, false, t);
      assert ReadIn(groups, keep, looksFor, false, i, o, t);
    }
  }

  lemma {:induction false} SpotsReadHold(groups: seq<RowGroup>, keep: RowGroup -> bool, looksFor: ByteString -> bool, spot: Spot)
    ensures spot in SpotsOf(TermsRead(groups, keep, looksFor, true)) <==> exists i: nat, o: nat :: SpotAt(groups, keep, looksFor, i, o, spot)
  {
    var terms := TermsRead(groups, keep, looksFor, true);
    hide TermAt, TermsRead;
    if spot in SpotsOf(terms) {
      var t, r, p :| t in terms && r in t.positions && p in t.positions[r] && spot == Spot(r, t.path, p);
      TermsReadHold(groups, keep, looksFor, true, t);
      var i: nat, o: nat :| ReadIn(groups, keep, looksFor, true, i, o, t);
      assert SpotAt(groups, keep, looksFor, i, o, spot);
    }
    if i: nat, o: nat :| SpotAt(groups, keep, looksFor, i, o, spot) {
      var t := TermAt(groups[i], o, true).value;
      TermsReadHold(groups, keep, looksFor, true, t);
      assert ReadIn(groups, keep, looksFor, true, i, o, t);
      assert spot == Spot(spot.row, t.path, spot.position);
    }
  }

  lemma {:induction false} TermRowsHold(groups: seq<RowGroup>, field: SearchField, token: ByteString, row: nat)
    ensures row in RowsForTerm(groups, field, token) <==> TokenInRow(groups, field, token, row)
  {
    var keep := (g: RowGroup) => ValueGroupMayHit(g.minTerm, g.maxTerm, field, token);
    var looksFor := term => LooksForValue(term, field, token);
    RowsReadHold(groups, keep, looksFor, row);
    hide TermAt, ValueGroupMayHit, LooksForValue, TermsRead, RowsOf, HasRow;
    assert forall i: nat, o: nat :: RowAt(groups, keep, looksFor, i, o, row) <==>
      i < |groups| && ReadsValue(groups[i], o, field, token) && HasRow(TermAt(groups[i], o, false), row);
  }

  lemma {:induction false} KeyRowsHold(groups: seq<RowGroup>, pattern: ByteString, row: nat)
    ensures row in RowsForKey(groups, pattern) <==> KeyInRow(groups, pattern, row)
  {
    var keep := (g: RowGroup) => KeyGroupMayHit(g.minTerm, g.maxTerm, pattern);
    var looksFor := term => LooksForKey(term, pattern);
    RowsReadHold(groups, keep, looksFor, row);
    hide TermAt, KeyGroupMayHit, LooksForKey, TermsRead, RowsOf, HasRow;
    assert forall i: nat, o: nat :: RowAt(groups, keep, looksFor, i, o, row) <==>
      i < |groups| && ReadsKey(groups[i], o, pattern) && HasRow(TermAt(groups[i], o, false), row);
  }

  lemma {:induction false} SpotsHold(groups: seq<RowGroup>, field: SearchField, token: ByteString, spot: Spot)
    ensures spot in SpotsOf(ValueTerms(groups, field, token, true)) <==> TokenAtSpot(groups, field, token, spot)
  {
    var keep := (g: RowGroup) => ValueGroupMayHit(g.minTerm, g.maxTerm, field, token);
    var looksFor := term => LooksForValue(term, field, token);
    SpotsReadHold(groups, keep, looksFor, spot);
    hide TermAt, ValueGroupMayHit, LooksForValue, TermsRead, SpotsOf, HasSpot;
    assert forall i: nat, o: nat :: SpotAt(groups, keep, looksFor, i, o, spot) <==>
      i < |groups| && ReadsValue(groups[i], o, field, token) && HasSpot(TermAt(groups[i], o, true), spot);
  }

  lemma {:induction false} PhraseRowsHold(groups: seq<RowGroup>, field: SearchField, phrase: seq<ByteString>, row: nat)
    ensures row in RowsForPhrase(groups, field, phrase) <==> PhraseInRow(groups, field, phrase, row)
  {
    hide TokenAtSpot, TokenInRow, RowsForTerm, SpotsOf, ValueTerms;
    if |phrase| == 1 {
      TermRowsHold(groups, field, phrase[0], row);
    } else if |phrase| > 1 {
      forall k, spot | 0 <= k < |phrase|
        ensures spot in SpotsOf(ValueTerms(groups, field, phrase[k], true)) <==> TokenAtSpot(groups, field, phrase[k], spot)
      {
        SpotsHold(groups, field, phrase[k], spot);
      }
      if k :| 0 <= k < |phrase| && ValueTerms(groups, field, phrase[k], true) == [] {
        NoSpots(groups, field, phrase[k]);
        forall spot
          ensures !PhraseFrom(groups, field, phrase, spot)
        {
          assert !TokenAtSpot(groups, field, phrase[k], if k == 0 then spot else Further(spot, k));
        }
      } else {
        if row in RowsForPhrase(groups, field, phrase) {
          var spot :|
            && spot in SpotsOf(ValueTerms(groups, field, phrase[0], true))
            && (forall k :: 1 <= k < |phrase| ==> Further(spot, k) in SpotsOf(ValueTerms(groups, field, phrase[k], true)))
            && spot.row == row;
          assert PhraseFrom(groups, field, phrase, spot);
        }
        if PhraseInRow(groups, field, phrase, row) {
          var spot: Spot :| spot.row == row && PhraseFrom(groups, field, phrase, spot);
          assert spot in SpotsOf(ValueTerms(groups, field, phrase[0], true));
        }
      }
    }
  }

  lemma {:induction false} NoSpots(groups: seq<RowGroup>, field: SearchField, token: ByteString)
    requires ValueTerms(groups, field, token, true) == []
    ensures SpotsOf(ValueTerms(groups, field, token, true)) == {}
  {
  }

  lemma {:induction false} QueryRowsHold(groups: seq<RowGroup>, field: SearchField, query: SearchQuery, row: nat)
    ensures row in RowsForQuery(groups, field, query) <==> QueryInRow(groups, field, query, row)
  {
    hide RowsForTerm, RowsForPhrase, TokenInRow, PhraseInRow, Intersection;
    var terms := seq(|query.terms|, i requires 0 <= i < |query.terms| => RowsForTerm(groups, field, query.terms[i]));
    var phrases := seq(|query.phrases|, i requires 0 <= i < |query.phrases| => RowsForPhrase(groups, field, query.phrases[i]));
    var required := terms + phrases;
    forall i | 0 <= i < |query.terms|
      ensures row in terms[i] <==> TokenInRow(groups, field, query.terms[i], row)
    {
      TermRowsHold(groups, field, query.terms[i], row);
    }
    forall i | 0 <= i < |query.phrases|
      ensures row in phrases[i] <==> PhraseInRow(groups, field, query.phrases[i], row)
    {
      PhraseRowsHold(groups, field, query.phrases[i], row);
    }
    if required != [] {
      IntersectionHolds(required[0], required[1..], row);
      EveryOne(required, terms, phrases, row);
    }
  }

  lemma {:induction false} EveryOne(required: seq<set<nat>>, terms: seq<set<nat>>, phrases: seq<set<nat>>, row: nat)
    requires required == terms + phrases && required != []
    ensures (row in required[0] && forall i :: 0 <= i < |required[1..]| ==> row in required[1..][i])
       <==> (forall i :: 0 <= i < |terms| ==> row in terms[i]) && (forall i :: 0 <= i < |phrases| ==> row in phrases[i])
  {
    assert forall i :: 1 <= i < |required| ==> required[i] == required[1..][i - 1];
    assert forall i :: 0 <= i < |terms| ==> terms[i] == required[i];
    assert forall i :: 0 <= i < |phrases| ==> phrases[i] == required[|terms| + i];
    assert forall i :: 0 <= i < |required[1..]| ==> required[1..][i] == required[i + 1];
  }

  /** The evaluator's row set is the set of rows that match. */
  lemma {:induction false} MatchingRowsExact(index: SearchIndex, p: SearchPredicate, row: nat)
    ensures row in MatchingRows(index, p) <==> RowMatches(index, p, row)
  {
    hide QueryInRow, TokenInRow, KeyInRow, RowsForQuery, RowsForTerm, RowsForKey, Intersection, Union, RowsBelow;
    match p
    case And(children) =>
      if children != [] {
        var rows := seq(|children|, i requires 0 <= i < |children| => MatchingRows(index, children[i]));
        forall i | 0 <= i < |children|
          ensures row in rows[i] <==> RowMatches(index, children[i], row)
        {
          MatchingRowsExact(index, children[i], row);
        }
        IntersectionHolds(rows[0], rows[1..], row);
        assert forall i :: 1 <= i < |rows| ==> rows[i] == rows[1..][i - 1];
        assert forall i :: 0 <= i < |rows[1..]| ==> rows[1..][i] == rows[i + 1];
      }
    case Or(children) =>
      var rows := seq(|children|, i requires 0 <= i < |children| => MatchingRows(index, children[i]));
      forall i | 0 <= i < |children|
        ensures row in rows[i] <==> RowMatches(index, children[i], row)
      {
        MatchingRowsExact(index, children[i], row);
      }
      UnionHolds({}, rows, row);
    case Not(child) => MatchingRowsExact(index, child, row);
    case Text(field, query) => QueryRowsHold(index.valueGroups, field, query, row);
    case ExactValue(field, value) => TermRowsHold(index.valueGroups, field, ExactValueToken(value), row);
    case JsonKey(pattern) => KeyRowsHold(index.keyGroups, pattern, row);
  }
}
