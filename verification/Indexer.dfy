/** Building a search index from records (src/search/indexer.rs). */
module Indexer {
  import opened Wrappers
  import opened Bytes
  import opened SearchIndexData
  import opened SearchPredicates
  import opened TermEntries
  import opened TokenStreams

  const MAX_JSON_KEYS: nat := 256
  const MAX_VALUE_BYTES: nat := 4096

  /** A leaf of the flattened attributes: array positions are not part of the path. */
  datatype Leaf = Leaf(path: ByteString, value: Option<ByteString>)

  /** `leaves` is absent when the attributes do not parse as JSON. */
  datatype Record = Record(name: ByteString, runType: ByteString, statusCode: int, endTime: int, leaves: Option<seq<Leaf>>)

  // ---- what a record contributes, piece by piece ----

  /** A text under a path, with a gap after JSON leaves and an exact value for short ones; or a bare path. */
  datatype Piece = TextPiece(path: ByteString, text: ByteString, exact: Option<ByteString>, gap: bool) | PathPiece(path: ByteString)

  function StatusText(r: Record): ByteString {
    if r.statusCode == 2 then Ascii("error") else if r.endTime == 0 then Ascii("pending") else Ascii("success")
  }

  /** The last character boundary at or before `end`. */
  function FloorBoundary(value: ByteString, end: nat): (n: nat)
    ensures n <= end
  {
    if end == 0 || end >= |value| || !(128 <= value[end] < 192) then end else FloorBoundary(value, end - 1)
  }

  function BoundedValue(value: ByteString): ByteString {
    if |value| <= MAX_VALUE_BYTES then value else value[..FloorBoundary(value, MAX_VALUE_BYTES)]
  }

  function LeafPiece(leaf: Leaf): Piece {
    match leaf.value
    case None => PathPiece(leaf.path)
    case Some(value) =>
      TextPiece(leaf.path, BoundedValue(value), if |value| <= MAX_VALUE_BYTES then Some(value) else None, true)
  }

  function LeafPieces(leaves: seq<Leaf>): seq<Piece> {
    seq(|leaves|, i requires 0 <= i < |leaves| => LeafPiece(leaves[i]))
  }

  /** The leaves that are indexed: none when the attributes do not parse, and not beyond the key limit. */
  function IndexedLeaves(r: Record): seq<Leaf> {
    if r.leaves.None? then [] else if |r.leaves.value| <= MAX_JSON_KEYS then r.leaves.value else r.leaves.value[..MAX_JSON_KEYS]
  }

  function FixedPieces(r: Record): seq<Piece> {
    [TextPiece(Ascii("name"), r.name, None, false),
     TextPiece(Ascii("run_type"), r.runType, None, false),
     TextPiece(Ascii("status"), StatusText(r), None, false)]
  }

  function Pieces(r: Record): seq<Piece> {
    FixedPieces(r) + LeafPieces(IndexedLeaves(r))
  }

  function Somes(tokens: seq<ByteString>): Stream {
    seq(|tokens|, i requires 0 <= i < |tokens| => Some(tokens[i]))
  }

  // ---- contents ----

  function WithExact(c: Content, place: Place, exact: Option<ByteString>): Content {
    if exact.Some? then c.(exacts := c.exacts + {(place, exact.value)}) else c
  }

  function WithPath(c: Content, place: Place): Content {
    c.(paths := c.paths + {place})
  }

  function WithText(c: Content, place: Place, text: ByteString): Content {
    Appended(WithPath(c, place), place, Somes(TokensOf(text)))
  }

  function WithPiece(c: Content, row: nat, piece: Piece): Content {
    var place := Place(row, piece.path);
    match piece
    case PathPiece(_) => WithPath(c, place)
    case TextPiece(_, text, exact, gap) =>
      var said := WithText(WithExact(c, place, exact), place, text);
      if gap then Appended(said, place, [None]) else said
  }

  function WithPieces(c: Content, row: nat, pieces: seq<Piece>): Content {
    if pieces == [] then c else WithPiece(WithPieces(c, row, pieces[..|pieces| - 1]), row, pieces[|pieces| - 1])
  }

  function ContentOf(records: seq<Record>): Content {
    if records == [] then EMPTY
    else
      var n := |records| - 1;
      WithPieces(ContentOf(records[..n]), n, Pieces(records[n]))
  }

  // ---- how much a piece adds, for the u32 numbers the index uses ----

  function PieceLoad(piece: Piece): nat {
    match piece
    case PathPiece(_) => 1
    case TextPiece(_, text, _, _) => |TokensOf(text)| + 3
  }

  function PiecesLoad(pieces: seq<Piece>): nat {
    if pieces == [] then 0 else PiecesLoad(pieces[..|pieces| - 1]) + PieceLoad(pieces[|pieces| - 1])
  }

  function RecordsLoad(records: seq<Record>): nat {
    if records == [] then 0 else RecordsLoad(records[..|records| - 1]) + PiecesLoad(Pieces(records[|records| - 1]))
  }

  /** The bytes of the terms a text adds, and three for each. */
  function TokensVolume(path: ByteString, tokens: seq<ByteString>): nat {
    if tokens == [] then 0 else TokensVolume(path, tokens[..|tokens| - 1]) + |ValueKey(tokens[|tokens| - 1], path)| + 3
  }

  function PieceVolume(piece: Piece): nat {
    match piece
    case PathPiece(path) => |path| + 3
    case TextPiece(path, text, exact, _) =>
      |path| + 3 + TokensVolume(path, TokensOf(text)) + (if exact.Some? then |ValueKey(ExactValueToken(exact.value), path)| + 3 else 0)
  }

  function PiecesVolume(pieces: seq<Piece>): nat {
    if pieces == [] then 0 else PiecesVolume(pieces[..|pieces| - 1]) + PieceVolume(pieces[|pieces| - 1])
  }

  function RecordsVolume(records: seq<Record>): nat {
    if records == [] then 0 else RecordsVolume(records[..|records| - 1]) + PiecesVolume(Pieces(records[|records| - 1]))
  }

  lemma {:induction false} TokensVolumeLoad(path: ByteString, tokens: seq<ByteString>)
    ensures 3 * |tokens| <= TokensVolume(path, tokens)
  {
    hide ValueKey;
    if tokens != [] {
      TokensVolumeLoad(path, tokens[..|tokens| - 1]);
    }
  }

  lemma {:induction false} PiecesVolumeLoad(pieces: seq<Piece>)
    ensures PiecesLoad(pieces) <= PiecesVolume(pieces)
  {
    hide ValueKey, ExactValueToken, TokensOf;
    if pieces != [] {
      PiecesVolumeLoad(pieces[..|pieces| - 1]);
      var last := pieces[|pieces| - 1];
      if last.TextPiece? {
        TokensVolumeLoad(last.path, TokensOf(last.text));
      }
    }
  }

  lemma {:induction false} RecordsVolumeLoad(records: seq<Record>)
    ensures RecordsLoad(records) <= RecordsVolume(records)
  {
    hide Pieces, PiecesLoad, PiecesVolume;
    if records != [] {
      RecordsVolumeLoad(records[..|records| - 1]);
      PiecesVolumeLoad(Pieces(records[|records| - 1]));
    }
  }

  lemma {:induction false} VolumeKept(terms: seq<ByteString>, more: seq<ByteString>, occs: seq<Occurrence>)
    requires Numbered(terms, occs) && terms <= more
    ensures Volume(more, occs) == Volume(terms, occs)
  {
    if occs != [] {
      VolumeKept(terms, more, occs[..|occs| - 1]);
    }
  }

  lemma {:induction false} VolumeInterned(terms: seq<ByteString>, occs: seq<Occurrence>, term: ByteString, o: Occurrence)
    requires Numbered(terms, occs) && o.termId < |Interned(terms, term)| && Interned(terms, term)[o.termId] == term
    ensures Volume(Interned(terms, term), occs + [o]) == Volume(terms, occs) + |term| + 3
  {
    hide Volume;
    VolumeAppend(Interned(terms, term), occs, o);
    VolumeKept(terms, Interned(terms, term), occs);
  }

  // ---- the builder ----

  ghost predicate Counted(c: Content, next: map<Place, nat>) {
    forall place :: (if place in next then next[place] else 0) == |StreamAt(c, place)|
  }

  ghost predicate StreamsShort(c: Content, load: nat) {
    forall place :: |StreamAt(c, place)| <= load
  }

  /** The occurrences and counters are those of the content, and everything is numbered below `load`. */
  ghost predicate State(
    c: Content, load: nat, keyTerms: seq<ByteString>, keyOccs: seq<Occurrence>, valueTerms: seq<ByteString>, valueOccs: seq<Occurrence>, next: map<Place, nat>)
  {
    && |keyTerms| <= load && |valueTerms| <= load && load <= U32_MAX
    && KeysOf(c, keyTerms, keyOccs) && ValuesOf(c, valueTerms, valueOccs)
    && AllTokens(c) && Counted(c, next) && StreamsShort(c, load)
  }

  /** What interning does to the numbered terms. */
  function Interned(terms: seq<ByteString>, term: ByteString): seq<ByteString> {
    if term in terms then terms else terms + [term]
  }

  lemma {:induction false} StateBounds(
    c: Content, load: nat, keyTerms: seq<ByteString>, keyOccs: seq<Occurrence>, valueTerms: seq<ByteString>, valueOccs: seq<Occurrence>, next: map<Place, nat>, place: Place)
    requires State(c, load, keyTerms, keyOccs, valueTerms, valueOccs, next)
    ensures |keyTerms| <= load && |valueTerms| <= load && load <= U32_MAX
    ensures (if place in next then next[place] else 0) == |StreamAt(c, place)| <= load
  {
  }

  lemma {:induction false} StateNumbered(
    c: Content, load: nat, keyTerms: seq<ByteString>, keyOccs: seq<Occurrence>, valueTerms: seq<ByteString>, valueOccs: seq<Occurrence>, next: map<Place, nat>)
    requires State(c, load, keyTerms, keyOccs, valueTerms, valueOccs, next)
    ensures Numbered(keyTerms, keyOccs) && Numbered(valueTerms, valueOccs)
  {
  }

  lemma {:induction false} StateWithPath(
    c: Content, load: nat, keyTerms: seq<ByteString>, keyOccs: seq<Occurrence>, valueTerms: seq<ByteString>, valueOccs: seq<Occurrence>, next: map<Place, nat>,
    place: Place, id: nat)
    requires State(c, load, keyTerms, keyOccs, valueTerms, valueOccs, next) && load < U32_MAX
    requires id < |Interned(keyTerms, place.path)| && Interned(keyTerms, place.path)[id] == place.path
    ensures State(WithPath(c, place), load + 1, Interned(keyTerms, place.path), keyOccs + [Occurrence(id, place.row, 0)], valueTerms, valueOccs, next)
  {
    hide KeysOf, ValuesOf, AllTokens, Counted, StreamsShort;
    PathAdded(c, keyTerms, Interned(keyTerms, place.path), keyOccs, Occurrence(id, place.row, 0), place);
    PathLeavesValues(c, place, valueTerms, valueOccs, next, load);
  }

  lemma {:induction false} StateWithExact(
    c: Content, load: nat, keyTerms: seq<ByteString>, keyOccs: seq<Occurrence>, valueTerms: seq<ByteString>, valueOccs: seq<Occurrence>, next: map<Place, nat>,
    place: Place, value: ByteString, id: nat)
    requires State(c, load, keyTerms, keyOccs, valueTerms, valueOccs, next) && load < U32_MAX
    requires var term := ValueKey(ExactValueToken(value), place.path);
             id < |Interned(valueTerms, term)| && Interned(valueTerms, term)[id] == term
    ensures State(WithExact(c, place, Some(value)), load + 1, keyTerms, keyOccs,
                  Interned(valueTerms, ValueKey(ExactValueToken(value), place.path)), valueOccs + [Occurrence(id, place.row, 0)], next)
  {
    hide KeysOf, ValuesOf, AllTokens, Counted, StreamsShort, ValueKey, ExactValueToken;
    var term := ValueKey(ExactValueToken(value), place.path);
    ExactAdded(c, valueTerms, Interned(valueTerms, term), valueOccs, Occurrence(id, place.row, 0), place, value);
    ExactLeavesRest(c, place, value, keyTerms, keyOccs, next, load);
  }

  lemma {:induction false} StateWithToken(
    c: Content, load: nat, keyTerms: seq<ByteString>, keyOccs: seq<Occurrence>, valueTerms: seq<ByteString>, valueOccs: seq<Occurrence>, next: map<Place, nat>,
    place: Place, token: ByteString, id: nat)
    requires State(c, load, keyTerms, keyOccs, valueTerms, valueOccs, next) && load < U32_MAX && IsToken(token)
    requires var term := ValueKey(token, place.path);
             id < |Interned(valueTerms, term)| && Interned(valueTerms, term)[id] == term
    ensures State(Appended(c, place, [Some(token)]), load + 1, keyTerms, keyOccs, Interned(valueTerms, ValueKey(token, place.path)),
                  valueOccs + [Occurrence(id, place.row, |StreamAt(c, place)|)], next[place := |StreamAt(c, place)| + 1])
  {
    hide KeysOf, ValuesOf, AllTokens, Counted, StreamsShort, ValueKey, IsToken;
    var term := ValueKey(token, place.path);
    TokenAdded(c, valueTerms, Interned(valueTerms, term), valueOccs, Occurrence(id, place.row, |StreamAt(c, place)|), place, token);
    AppendLeavesRest(c, place, [Some(token)], keyTerms, keyOccs, next, load);
  }

  lemma {:induction false} StateWithGap(
    c: Content, load: nat, keyTerms: seq<ByteString>, keyOccs: seq<Occurrence>, valueTerms: seq<ByteString>, valueOccs: seq<Occurrence>, next: map<Place, nat>,
    place: Place)
    requires State(c, load, keyTerms, keyOccs, valueTerms, valueOccs, next) && load < U32_MAX
    ensures State(Appended(c, place, [None]), load + 1, keyTerms, keyOccs, valueTerms, valueOccs, next[place := |StreamAt(c, place)| + 1])
  {
    hide KeysOf, ValuesOf, AllTokens, Counted, StreamsShort;
    GapAdded(c, valueTerms, valueOccs, place);
    AppendLeavesRest(c, place, [None], keyTerms, keyOccs, next, load);
  }

  class SearchIndexBuilder {
    const keys: TermInterner
    const values: TermInterner
    var keyOccs: seq<Occurrence>
    var valueOccs: seq<Occurrence>
    var nextPositions: map<Place, nat>
    ghost var content: Content
    ghost var load: nat
    ghost var volume: nat

    ghost predicate Valid()
      reads this, keys, values
    {
      && keys != values && keys.Valid() && values.Valid()
      && State(content, load, keys.Contents(), keyOccs, values.Contents(), valueOccs, nextPositions)
      && volume == Volume(keys.Contents(), keyOccs) + Volume(values.Contents(), valueOccs)
    }

    constructor ()
      ensures Valid() && content == EMPTY && load == 0 && volume == 0 && fresh(keys) && fresh(values)
    {
      keys := new TermInterner();
      values := new TermInterner();
      keyOccs, valueOccs, nextPositions := [], [], map[];
      content, load, volume := EMPTY, 0, 0;
    }

    /** `add_path`. */
    method AddPath(row: nat, path: ByteString)
      requires Valid() && load < U32_MAX
      modifies this, keys
      ensures Valid() && load == old(load) + 1 && content == WithPath(old(content), Place(row, path))
      ensures volume == old(volume) + |path| + 3
    {
      hide State, TermsIn, RangesIn, Volume;
      StateNumbered(content, load, keys.Contents(), keyOccs, values.Contents(), valueOccs, nextPositions);
      StateBounds(content, load, keys.Contents(), keyOccs, values.Contents(), valueOccs, nextPositions, Place(row, path));
      ghost var before := keys.Contents();
      var id := keys.Intern(path);
      assert keys.Contents() == Interned(before, path);
      StateWithPath(content, load, before, keyOccs, values.Contents(), valueOccs, nextPositions, Place(row, path), id);
      VolumeInterned(before, keyOccs, path, Occurrence(id, row, 0));
      keyOccs := keyOccs + [Occurrence(id, row, 0)];
      content, load, volume := WithPath(content, Place(row, path)), load + 1, volume + |path| + 3;
    }

    /** `add_value_position`. */
    method AddValuePosition(row: nat, term: ByteString, position: nat) returns (ghost id: nat)
      requires keys != values && values.Valid() && |values.Contents()| <= U32_MAX && Numbered(values.Contents(), valueOccs)
      modifies this`valueOccs, values
      ensures values.Valid() && values.Contents() == Interned(old(values.Contents()), term)
      ensures id < |values.Contents()| && values.Contents()[id] == term
      ensures valueOccs == old(valueOccs) + [Occurrence(id, row, position)]
      ensures Volume(values.Contents(), valueOccs) == old(Volume(values.Contents(), valueOccs)) + |term| + 3
    {
      hide Volume, TermsIn, RangesIn, Numbered, LookupFor;
      ghost var before := values.Contents();
      var number := values.Intern(term);
      assert values.Contents() == Interned(before, term);
      VolumeInterned(before, valueOccs, term, Occurrence(number, row, position));
      valueOccs := valueOccs + [Occurrence(number, row, position)];
      id := number;
    }

    /** An exact value stands at position 0. */
    method AddExact(row: nat, path: ByteString, value: ByteString)
      requires Valid() && load < U32_MAX
      modifies this, values
      ensures Valid() && load == old(load) + 1 && content == WithExact(old(content), Place(row, path), Some(value))
      ensures volume == old(volume) + |ValueKey(ExactValueToken(value), path)| + 3
    {
      ValidParts(this);
      hide *;
      StateBounds(content, load, keys.Contents(), keyOccs, values.Contents(), valueOccs, nextPositions, Place(row, path));
      ghost var terms, before, said := keys.Contents(), values.Contents(), valueOccs;
      var id := AddValuePosition(row, ValueKey(ExactValueToken(value), path), 0);
      assert keys.Valid() && keys.Contents() == terms;
      StateWithExact(content, load, terms, keyOccs, before, said, nextPositions, Place(row, path), value, id);
      content, load := WithExact(content, Place(row, path), Some(value)), load + 1;
      volume := volume + |ValueKey(ExactValueToken(value), path)| + 3;
      PartsValid(this);
    }

    /** `next_position`: the counter saturates at the largest u32. */
    method NextPosition(place: Place) returns (position: nat)
      modifies this`nextPositions
      ensures position == if place in old(nextPositions) then old(nextPositions)[place] else 0
      ensures nextPositions == old(nextPositions)[place := if position < U32_MAX then position + 1 else U32_MAX]
    {
      position := if place in nextPositions then nextPositions[place] else 0;
      nextPositions := nextPositions[place := if position < U32_MAX then position + 1 else U32_MAX];
    }

    /** `add_value_position` for a token, its position already taken. */
    method PushToken(row: nat, path: ByteString, token: ByteString, position: nat, ghost next: map<Place, nat>)
      requires keys != values && keys.Valid() && values.Valid() && load < U32_MAX && IsToken(token)
      requires State(content, load, keys.Contents(), keyOccs, values.Contents(), valueOccs, next)
      requires volume == Volume(keys.Contents(), keyOccs) + Volume(values.Contents(), valueOccs)
      requires position == |StreamAt(content, Place(row, path))| && nextPositions == next[Place(row, path) := position + 1]
      modifies this`valueOccs, this`content, this`load, this`volume, values
      ensures Valid() && load == old(load) + 1 && content == Appended(old(content), Place(row, path), [Some(token)])
      ensures volume == old(volume) + |ValueKey(token, path)| + 3
    {
      hide *;
      StateNumbered(content, load, keys.Contents(), keyOccs, values.Contents(), valueOccs, next);
      StateBounds(content, load, keys.Contents(), keyOccs, values.Contents(), valueOccs, next, Place(row, path));
      ghost var terms, before, said := keys.Contents(), values.Contents(), valueOccs;
      var id := AddValuePosition(row, ValueKey(token, path), position);
      assert keys.Valid() && keys.Contents() == terms;
      StateWithToken(content, load, terms, keyOccs, before, said, next, Place(row, path), token, id);
      content, load, volume := Appended(content, Place(row, path), [Some(token)]), load + 1, volume + |ValueKey(token, path)| + 3;
      PartsValid(this);
    }

    /** The next position, then `add_value_position` for the token. */
    method AddToken(row: nat, path: ByteString, token: ByteString)
      requires Valid() && load < U32_MAX && IsToken(token)
      modifies this, values
      ensures Valid() && load == old(load) + 1 && content == Appended(old(content), Place(row, path), [Some(token)])
      ensures volume == old(volume) + |ValueKey(token, path)| + 3
    {
      ValidParts(this);
      hide *;
      StateBounds(content, load, keys.Contents(), keyOccs, values.Contents(), valueOccs, nextPositions, Place(row, path));
      ghost var next := nextPositions;
      var position := NextPosition(Place(row, path));
      PushToken(row, path, token, position, next);
    }

    /** `add_leaf_position_gap`. */
    method AddGap(row: nat, path: ByteString)
      requires Valid() && load < U32_MAX
      modifies this
      ensures Valid() && load == old(load) + 1 && content == Appended(old(content), Place(row, path), [None])
      ensures volume == old(volume)
    {
      hide State, TermsIn, RangesIn, Volume, Appended, StreamAt;
      var place := Place(row, path);
      StateBounds(content, load, keys.Contents(), keyOccs, values.Contents(), valueOccs, nextPositions, place);
      StateWithGap(content, load, keys.Contents(), keyOccs, values.Contents(), valueOccs, nextPositions, place);
      var position := NextPosition(place);
      content, load := Appended(content, place, [None]), load + 1;
    }

    /** `add_text`: the path, then every token at the next position. */
    method AddText(row: nat, path: ByteString, text: ByteString)
      requires Valid() && load + |TokensOf(text)| + 1 <= U32_MAX
      modifies this, keys, values
      ensures Valid() && load == old(load) + |TokensOf(text)| + 1 && content == WithText(old(content), Place(row, path), text)
      ensures volume == old(volume) + |path| + 3 + TokensVolume(path, TokensOf(text))
    {
      hide *;
      var place := Place(row, path);
      TextIsAppended(content, place, text);
      AddPath(row, path);
      ghost var start := content;
      var tokens := TokensForText(text);
      TokensAreTokens(text);
      NothingAppended(start, place, tokens);
      NoTokensVolume(path, tokens);
      for i := 0 to |tokens|
        invariant Valid() && load == old(load) + 1 + i
        invariant content == Appended(start, place, Somes(tokens[..i]))
        invariant volume == old(volume) + |path| + 3 + TokensVolume(path, tokens[..i])
      {
        assert tokens[i] in tokens;
        AddToken(row, path, tokens[i]);
        OneMoreAppended(start, place, tokens, i);
        OneMoreVolume(path, tokens, i);
      }
      assert tokens[..|tokens|] == tokens;
    }

    /** `add_json_value` and `add_path` for one leaf, or `add_text` for a fixed field. */
    method AddPiece(row: nat, piece: Piece)
      requires Valid() && load + PieceLoad(piece) <= U32_MAX
      modifies this, keys, values
      ensures Valid() && load <= old(load) + PieceLoad(piece) && content == WithPiece(old(content), row, piece)
      ensures volume == old(volume) + PieceVolume(piece)
    {
      hide State, TokensOf, Volume, ValueKey, ExactValueToken, LookupFor, WithPath, Appended;
      match piece {
        case PathPiece(path) => AddPath(row, path);
        case TextPiece(path, text, exact, gap) =>
          if exact.Some? {
            AddExact(row, path, exact.value);
          }
          AddText(row, path, text);
          if gap {
            AddGap(row, path);
          }
      }
    }

    method AddPieces(row: nat, pieces: seq<Piece>)
      requires Valid() && load + PiecesLoad(pieces) <= U32_MAX
      modifies this, keys, values
      ensures Valid() && load <= old(load) + PiecesLoad(pieces) && content == WithPieces(old(content), row, pieces)
      ensures volume == old(volume) + PiecesVolume(pieces)
    {
      hide State, LookupFor, WithPiece, PieceLoad, Volume, PieceVolume;
      for i := 0 to |pieces|
        invariant Valid() && load <= old(load) + PiecesLoad(pieces[..i])
        invariant content == WithPieces(old(content), row, pieces[..i])
        invariant volume == old(volume) + PiecesVolume(pieces[..i])
      {
        LoadOfPrefix(pieces, i);
        assert pieces[..i + 1][..i] == pieces[..i];
        AddPiece(row, pieces[i]);
      }
      assert pieces[..|pieces|] == pieces;
    }
  }

  lemma {:induction false} ValidParts(b: SearchIndexBuilder)
    requires b.Valid()
    ensures b.keys != b.values && b.keys.Valid() && b.values.Valid()
    ensures State(b.content, b.load, b.keys.Contents(), b.keyOccs, b.values.Contents(), b.valueOccs, b.nextPositions)
    ensures Numbered(b.keys.Contents(), b.keyOccs) && Numbered(b.values.Contents(), b.valueOccs)
    ensures b.volume == Volume(b.keys.Contents(), b.keyOccs) + Volume(b.values.Contents(), b.valueOccs)
  {
    StateNumbered(b.content, b.load, b.keys.Contents(), b.keyOccs, b.values.Contents(), b.valueOccs, b.nextPositions);
  }

  lemma {:induction false} PartsValid(b: SearchIndexBuilder)
    requires b.keys != b.values && b.keys.Valid() && b.values.Valid()
    requires State(b.content, b.load, b.keys.Contents(), b.keyOccs, b.values.Contents(), b.valueOccs, b.nextPositions)
    requires b.volume == Volume(b.keys.Contents(), b.keyOccs) + Volume(b.values.Contents(), b.valueOccs)
    ensures b.Valid()
  {
  }

  lemma {:induction false} TextIsAppended(c: Content, place: Place, text: ByteString)
    ensures WithText(c, place, text) == Appended(WithPath(c, place), place, Somes(TokensOf(text)))
  {
  }

  lemma {:induction false} NothingAppended(c: Content, place: Place, tokens: seq<ByteString>)
    ensures Appended(c, place, Somes(tokens[..0])) == c
  {
  }

  lemma {:induction false} NoTokensVolume(path: ByteString, tokens: seq<ByteString>)
    ensures TokensVolume(path, tokens[..0]) == 0
  {
  }

  lemma {:induction false} OneMoreVolume(path: ByteString, tokens: seq<ByteString>, i: nat)
    requires i < |tokens|
    ensures TokensVolume(path, tokens[..i + 1]) == TokensVolume(path, tokens[..i]) + |ValueKey(tokens[i], path)| + 3
  {
    assert tokens[..i + 1][..i] == tokens[..i];
  }

  lemma {:induction false} OneMoreAppended(c: Content, place: Place, tokens: seq<ByteString>, i: nat)
    requires i < |tokens|
    ensures Appended(Appended(c, place, Somes(tokens[..i])), place, [Some(tokens[i])]) == Appended(c, place, Somes(tokens[..i + 1]))
  {
    hide Appended;
    AppendedTwice(c, place, Somes(tokens[..i]), [Some(tokens[i])]);
    assert Somes(tokens[..i]) + [Some(tokens[i])] == Somes(tokens[..i + 1]);
  }

  lemma {:induction false} LoadOfPrefix(pieces: seq<Piece>, k: nat)
    requires k < |pieces|
    ensures PiecesLoad(pieces[..k + 1]) == PiecesLoad(pieces[..k]) + PieceLoad(pieces[k])
    ensures PiecesLoad(pieces[..k + 1]) <= PiecesLoad(pieces)
    decreases |pieces| - k
  {
    hide PieceLoad;
    assert pieces[..k + 1][..k] == pieces[..k] && pieces[..k + 1][k] == pieces[k];
    if k + 1 < |pieces| {
      LoadOfPrefix(pieces, k + 1);
    } else {
      assert pieces[..k + 1] == pieces;
    }
  }

  lemma {:induction false} PathLeavesValues(c: Content, place: Place, terms: seq<ByteString>, occs: seq<Occurrence>, next: map<Place, nat>, load: nat)
    requires ValuesOf(c, terms, occs) && AllTokens(c) && Counted(c, next) && StreamsShort(c, load)
    ensures var d := WithPath(c, place);
            ValuesOf(d, terms, occs) && AllTokens(d) && Counted(d, next) && StreamsShort(d, load + 1)
  {
    var d := WithPath(c, place);
    SameStreams(c, d);
    hide StreamAt;
    assert forall p :: |StreamAt(d, p)| <= load;
  }

  /** Contents with the same streams and values have the same value occurrences. */
  lemma {:induction false} SameStreams(c: Content, d: Content)
    requires c.streams == d.streams
    ensures forall place :: StreamAt(c, place) == StreamAt(d, place)
    ensures forall place: Place, k: nat, token :: Says(c, place, k, token) <==> Says(d, place, k, token)
    ensures c.exacts == d.exacts ==> forall terms, occs :: ValuesOf(c, terms, occs) ==> ValuesOf(d, terms, occs)
  {
    forall place: Place, k: nat, token
      ensures Says(c, place, k, token) <==> Says(d, place, k, token)
    {
    }
    if c.exacts == d.exacts {
      forall terms, occs | ValuesOf(c, terms, occs)
        ensures ValuesOf(d, terms, occs)
      {
        forall o | o in occs
          ensures FromStream(d, TermOf(terms, o), o.row, o.position) || FromExact(d, TermOf(terms, o), o.row, o.position)
        {
          assert FromStream(c, TermOf(terms, o), o.row, o.position) ==> FromStream(d, TermOf(terms, o), o.row, o.position);
          assert FromExact(c, TermOf(terms, o), o.row, o.position) ==> FromExact(d, TermOf(terms, o), o.row, o.position);
        }
      }
    }
  }

  lemma {:induction false} ExactLeavesRest(c: Content, place: Place, value: ByteString, terms: seq<ByteString>, occs: seq<Occurrence>, next: map<Place, nat>, load: nat)
    requires KeysOf(c, terms, occs) && AllTokens(c) && Counted(c, next) && StreamsShort(c, load)
    ensures var d := WithExact(c, place, Some(value));
            KeysOf(d, terms, occs) && AllTokens(d) && Counted(d, next) && StreamsShort(d, load + 1)
  {
    var d := WithExact(c, place, Some(value));
    SameStreams(c, d);
    hide StreamAt;
    assert forall p :: |StreamAt(d, p)| <= load;
  }

  lemma {:induction false} AppendLeavesRest(c: Content, place: Place, more: Stream, terms: seq<ByteString>, occs: seq<Occurrence>, next: map<Place, nat>, load: nat)
    requires KeysOf(c, terms, occs) && AllTokens(c) && Counted(c, next) && StreamsShort(c, load) && load < U32_MAX
    requires |more| == 1 && (more[0].Some? ==> IsToken(more[0].value))
    ensures var d := Appended(c, place, more);
            && KeysOf(d, terms, occs) && AllTokens(d) && StreamsShort(d, load + 1)
            && Counted(d, next[place := |StreamAt(c, place)| + 1])
  {
    hide IsToken;
    var d := Appended(c, place, more);
    assert forall p :: StreamAt(d, p) == if p == place then StreamAt(c, place) + more else StreamAt(c, p);
  }
}
