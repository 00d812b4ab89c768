/**
 What the scan reads of a record, path by path: the streams of its fields and leaves, and
 where phrases can run from one into another (src/search/indexer.rs).
 */
module RecordStreams {
  import opened Sequences
  import opened Wrappers
  import opened Bytes
  import opened SearchPredicates
  import opened TokenStreams
  import opened SearchScan
  import opened Indexer

  // ---- phrases stay inside a leaf ----

  /** What one record says on one path: a stream per piece, end to end. */
  function PathStream(pieces: seq<Piece>, path: ByteString): Stream {
    if pieces == [] then []
    else
      var last := pieces[|pieces| - 1];
      PathStream(pieces[..|pieces| - 1], path) + (if last.path == path then PieceStream(last) else [])
  }

  function PieceStream(piece: Piece): Stream {
    match piece
    case PathPiece(_) => []
    case TextPiece(_, text, _, gap) => Somes(TokensOf(text)) + (if gap then [None] else [])
  }

  lemma {:induction false} PieceSays(c: Content, row: nat, piece: Piece, place: Place)
    ensures StreamAt(WithPiece(c, row, piece), place)
         == StreamAt(c, place) + (if place == Place(row, piece.path) then PieceStream(piece) else [])
  {
    hide TokensOf, Somes;
    match piece
    case PathPiece(_) =>
    case TextPiece(path, text, exact, gap) =>
      var a := WithPath(WithExact(c, Place(row, path), exact), Place(row, path));
      assert StreamAt(a, place) == StreamAt(c, place);
      AppendedSays(a, Place(row, path), Somes(TokensOf(text)), place);
      AppendedSays(WithText(WithExact(c, Place(row, path), exact), Place(row, path), text), Place(row, path), [None], place);
  }

  lemma {:induction false} AppendedSays(c: Content, place: Place, more: Stream, other: Place)
    ensures StreamAt(Appended(c, place, more), other) == StreamAt(c, other) + (if other == place then more else [])
  {
  }

  lemma {:induction false} PiecesSay(c: Content, row: nat, pieces: seq<Piece>, place: Place)
    ensures StreamAt(WithPieces(c, row, pieces), place)
         == StreamAt(c, place) + (if place.row == row then PathStream(pieces, place.path) else [])
  {
    hide PieceStream;
    if pieces != [] {
      PiecesSay(c, row, pieces[..|pieces| - 1], place);
      PieceSays(WithPieces(c, row, pieces[..|pieces| - 1]), row, pieces[|pieces| - 1], place);
    }
  }

  /** The scan reads, of every row, the pieces of that row's record. */
  lemma {:induction false} RecordsSay(records: seq<Record>, place: Place)
    ensures StreamAt(ContentOf(records), place)
         == if place.row < |records| then PathStream(Pieces(records[place.row]), place.path) else []
  {
    hide Pieces, PathStream;
    if records != [] {
      var n := |records| - 1;
      RecordsSay(records[..n], place);
      PiecesSay(ContentOf(records[..n]), n, Pieces(records[n]), place);
    }
  }

  lemma {:induction false} StreamPrefix(pieces: seq<Piece>, path: ByteString, j: nat)
    requires j <= |pieces|
    ensures PathStream(pieces[..j], path) <= PathStream(pieces, path)
  {
    if j < |pieces| {
      StreamPrefix(pieces[..|pieces| - 1], path, j);
      assert pieces[..|pieces| - 1][..j] == pieces[..j];
    } else {
      assert pieces[..j] == pieces;
    }
  }

  /** A leaf's gap is the last position of its stream. */
  lemma {:induction false} GapAfterLeaf(pieces: seq<Piece>, path: ByteString, j: nat)
    requires j < |pieces| && pieces[j].TextPiece? && pieces[j].gap && pieces[j].path == path
    ensures var end := |PathStream(pieces[..j + 1], path)|; 0 < end <= |PathStream(pieces, path)| && PathStream(pieces, path)[end - 1] == None
  {
    assert pieces[..j + 1] == pieces[..j] + [pieces[j]];
    StreamPrefix(pieces, path, j + 1);
    StreamSnoc(pieces[..j], pieces[j], path);
    TextStreams(pieces[j]);
    hide *;
  }

  /**
   No phrase spans two JSON leaves collapsed onto one path: a run of tokens ends before
   the gap of the leaf it starts in, or starts after it.
   */
  lemma {:induction false} PhraseWithinLeaf(r: Record, path: ByteString, i: nat, phrase: seq<ByteString>, start: nat)
    requires i < |IndexedLeaves(r)| && IndexedLeaves(r)[i].path == path && IndexedLeaves(r)[i].value.Some?
    requires start + |phrase| <= |PathStream(Pieces(r), path)|
    requires forall k :: start <= k < start + |phrase| ==> PathStream(Pieces(r), path)[k] == Some(phrase[k - start])
    ensures var end := |PathStream(Pieces(r)[..3 + i + 1], path)|; start + |phrase| < end || start >= end
  {
    var pieces := Pieces(r);
    assert pieces[3 + i] == LeafPiece(IndexedLeaves(r)[i]);
    GapAfterLeaf(pieces, path, 3 + i);
    var end := |PathStream(pieces[..3 + i + 1], path)|;
    NoGapInside(PathStream(pieces, path), start, phrase, end - 1);
  }

  lemma {:induction false} NoGapInside(stream: Stream, start: nat, phrase: seq<ByteString>, gap: nat)
    requires gap < |stream| && stream[gap] == None && start + |phrase| <= |stream|
    requires forall k :: start <= k < start + |phrase| ==> stream[k] == Some(phrase[k - start])
    ensures !(start <= gap < start + |phrase|)
  {
  }

  // ---- phrases may run from a fixed field into a leaf ----

  /** The fixed field that is indexed under a path. */
  function FieldText(r: Record, path: ByteString): Option<ByteString> {
    if path == Ascii("name") then Some(r.name)
    else if path == Ascii("run_type") then Some(r.runType)
    else if path == Ascii("status") then Some(StatusText(r))
    else None
  }

  function FieldTokens(r: Record, path: ByteString): seq<ByteString> {
    match FieldText(r, path)
    case None => []
    case Some(text) => TokensOf(text)
  }

  /** The text indexed for the first leaf on a path that has a value. */
  function FirstValue(leaves: seq<Leaf>, path: ByteString): Option<ByteString> {
    if leaves == [] then None
    else if leaves[0].path == path && leaves[0].value.Some? then Some(BoundedValue(leaves[0].value.value))
    else FirstValue(leaves[1..], path)
  }

  function LeafTokens(r: Record, path: ByteString): seq<ByteString> {
    match FirstValue(IndexedLeaves(r), path)
    case None => []
    case Some(text) => TokensOf(text)
  }

  lemma {:induction false} PathStreamJoin(a: seq<Piece>, b: seq<Piece>, path: ByteString)
    ensures PathStream(a + b, path) == PathStream(a, path) + PathStream(b, path)
  {
    if b == [] {
      NoStream(path);
      assert a + b == a;
    } else {
      hide *;
      var front, last := b[..|b| - 1], b[|b| - 1];
      PathStreamJoin(a, front, path);
      StreamSnoc(a + front, last, path);
      StreamSnoc(front, last, path);
      assert front + [last] == b && a + b == (a + front) + [last];
      ThreeParts(PathStream(a, path), PathStream(front, path), if last.path == path then PieceStream(last) else []);
    }
  }

  lemma {:induction false} NamesDiffer()
    ensures Ascii("run_type") != Ascii("name") && Ascii("status") != Ascii("name") && Ascii("run_type") != Ascii("status")
  {
    assert |Ascii("run_type")| == 8 && |Ascii("status")| == 6 && |Ascii("name")| == 4;
  }

  /** A path's fixed field, without a gap after it. */
  lemma {:induction false} FixedStream(r: Record, path: ByteString)
    ensures PathStream(FixedPieces(r), path) == Somes(FieldTokens(r, path))
  {
    NamesDiffer();
    var pieces := FixedPieces(r);
    hide Ascii, TokensOf, StatusText, Somes;
    assert Somes([]) == [] by { NoSomes(); }
    assert pieces == ([pieces[0]] + [pieces[1]]) + [pieces[2]];
    StreamSnoc([pieces[0]] + [pieces[1]], pieces[2], path);
    StreamSnoc([pieces[0]], pieces[1], path);
    StreamSnoc([], pieces[0], path);
    assert [] + [pieces[0]] == [pieces[0]];
    hide PathStream;
    assert PathStream([], path) == [] by { NoStream(path); }
    TextStreams(pieces[0]);
    TextStreams(pieces[1]);
    TextStreams(pieces[2]);
  }

  lemma {:induction false} NoSomes()
    ensures Somes([]) == []
  {
  }

  /** The leaves' stream starts with the first value's tokens, or with its gap. */
  lemma {:induction false} LeavesStart(leaves: seq<Leaf>, path: ByteString)
    ensures var stream := PathStream(LeafPieces(leaves), path);
            match FirstValue(leaves, path)
            case None => stream == []
            case Some(text) => stream != [] && stream[0] == if TokensOf(text) == [] then None else Some(TokensOf(text)[0])
  {
    hide TokensOf, BoundedValue;
    if leaves != [] {
      var first := LeafPiece(leaves[0]);
      LeavesStart(leaves[1..], path);
      assert LeafPieces(leaves) == [first] + LeafPieces(leaves[1..]);
      PathStreamJoin([first], LeafPieces(leaves[1..]), path);
      StreamSnoc([], first, path);
      assert [] + [first] == [first];
      hide PathStream;
      assert PathStream([], path) == [] by { NoStream(path); }
    }
  }

  /** A record's stream on a path: its field's tokens, then its leaves. */
  lemma {:induction false} FieldThenLeaves(r: Record, path: ByteString)
    ensures PathStream(Pieces(r), path) == Somes(FieldTokens(r, path)) + PathStream(LeafPieces(IndexedLeaves(r)), path)
  {
    PathStreamJoin(FixedPieces(r), LeafPieces(IndexedLeaves(r)), path);
    FixedStream(r, path);
    hide PathStream, FixedPieces, LeafPieces, Somes, FieldTokens;
  }

  /** The phrase is said from a place in a fixed field to a place in a JSON leaf. */
  ghost predicate Straddles(records: seq<Record>, row: nat, path: ByteString, start: nat, phrase: seq<ByteString>)
    requires row < |records|
  {
    && PhraseSaidAt(ContentOf(records), Place(row, path), start, phrase)
    && start < |FieldTokens(records[row], path)| < start + |phrase|
  }

  /** The last token of the field and the first of the leaf. */
  function Bridge(r: Record, path: ByteString): seq<ByteString>
    requires FieldTokens(r, path) != [] && LeafTokens(r, path) != []
  {
    [FieldTokens(r, path)[|FieldTokens(r, path)| - 1], LeafTokens(r, path)[0]]
  }

  lemma {:induction false} SaidOfRecord(records: seq<Record>, row: nat, path: ByteString, k: nat, token: ByteString)
    requires row < |records|
    ensures var r := records[row];
            var stream := Somes(FieldTokens(r, path)) + PathStream(LeafPieces(IndexedLeaves(r)), path);
            Says(ContentOf(records), Place(row, path), k, token) <==> k < |stream| && stream[k] == Some(token)
  {
    RecordsSay(records, Place(row, path));
    FieldThenLeaves(records[row], path);
    hide ContentOf, PathStream, Pieces, Somes, FieldTokens, LeafPieces, StreamAt;
  }

  lemma {:induction false} AcrossTheEnd(field: seq<ByteString>, rest: Stream, first: ByteString)
    requires field != [] && rest != [] && rest[0] == Some(first)
    ensures var stream := Somes(field) + rest;
            |field| < |stream| && stream[|field| - 1] == Some(field[|field| - 1]) && stream[|field|] == Some(first)
  {
  }

  lemma {:induction false} TwoSaid(c: Content, place: Place, start: nat, phrase: seq<ByteString>)
    requires |phrase| == 2 && Says(c, place, start, phrase[0]) && Says(c, place, start + 1, phrase[1])
    ensures PhraseSaidAt(c, place, start, phrase)
  {
    hide Says;
  }

  lemma {:induction false} LeafFirst(r: Record, path: ByteString)
    requires LeafTokens(r, path) != []
    ensures var rest := PathStream(LeafPieces(IndexedLeaves(r)), path); rest != [] && rest[0] == Some(LeafTokens(r, path)[0])
  {
    LeavesStart(IndexedLeaves(r), path);
    hide FirstValue, IndexedLeaves, LeafPieces, PathStream, TokensOf;
  }

  lemma {:induction false} BridgeTokens(r: Record, path: ByteString)
    requires FieldTokens(r, path) != [] && LeafTokens(r, path) != []
    ensures var field := FieldTokens(r, path); Bridge(r, path) == [field[|field| - 1], LeafTokens(r, path)[0]]
  {
    hide FieldTokens, LeafTokens;
  }

  lemma {:induction false} BridgeStraddles(records: seq<Record>, row: nat, path: ByteString)
    requires row < |records| && FieldTokens(records[row], path) != [] && LeafTokens(records[row], path) != []
    ensures var phrase, start := Bridge(records[row], path), |FieldTokens(records[row], path)| - 1;
            PhraseSaidAt(ContentOf(records), Place(row, path), start, phrase) ==> Straddles(records, row, path, start, phrase)
  {
    BridgeTokens(records[row], path);
    hide FieldTokens, LeafTokens, Bridge, PhraseSaidAt, ContentOf;
  }

  lemma {:induction false} BridgeSaid(records: seq<Record>, row: nat, path: ByteString)
    requires row < |records| && FieldTokens(records[row], path) != [] && LeafTokens(records[row], path) != []
    ensures Straddles(records, row, path, |FieldTokens(records[row], path)| - 1, Bridge(records[row], path))
  {
    hide *;
    var r := records[row];
    var field := FieldTokens(r, path);
    var phrase, rest := Bridge(r, path), PathStream(LeafPieces(IndexedLeaves(r)), path);
    BridgeTokens(r, path);
    LeafFirst(r, path);
    BridgeStraddles(records, row, path);
    AcrossTheEnd(field, rest, phrase[1]);
    SaidOfRecord(records, row, path, |field| - 1, phrase[0]);
    SaidOfRecord(records, row, path, |field|, phrase[1]);
    TwoSaid(ContentOf(records), Place(row, path), |field| - 1, phrase);
  }

  lemma {:induction false} StraddledLeaf(records: seq<Record>, row: nat, path: ByteString, start: nat, phrase: seq<ByteString>)
    requires row < |records| && Straddles(records, row, path, start, phrase)
    ensures FieldTokens(records[row], path) != [] && LeafTokens(records[row], path) != []
  {
    var r := records[row];
    var n := |FieldTokens(r, path)|;
    LeavesStart(IndexedLeaves(r), path);
    assert Says(ContentOf(records), Place(row, path), start + (n - start), phrase[n - start]);
    SaidOfRecord(records, row, path, n, phrase[n - start]);
    hide ContentOf, PathStream, FieldTokens, FirstValue, LeafPieces, IndexedLeaves, Says;
  }

  /**
   Between a fixed field and a JSON leaf of the same path there is no gap.  A phrase is said
   across them exactly when the path is a fixed field's, that field has a token, and the
   first indexed leaf with a value on the path has one.
   */
  lemma {:induction false} FieldRunsIntoLeaf(records: seq<Record>, row: nat, path: ByteString)
    requires row < |records|
    ensures (exists start: nat, phrase :: Straddles(records, row, path, start, phrase)) <==>
      FieldTokens(records[row], path) != [] && LeafTokens(records[row], path) != []
  {
    hide Straddles, FieldTokens, LeafTokens;
    if start: nat, phrase :| Straddles(records, row, path, start, phrase) {
      StraddledLeaf(records, row, path, start, phrase);
    }
    if FieldTokens(records[row], path) != [] && LeafTokens(records[row], path) != [] {
      BridgeSaid(records, row, path);
    }
  }

  lemma {:induction false} PhraseScanned(c: Content, rowCount: nat, row: nat, path: ByteString, start: nat, phrase: seq<ByteString>)
    requires row < rowCount && PhraseSaidAt(c, Place(row, path), start, phrase) && phrase != [] && forall t :: t in phrase ==> IsToken(t)
    ensures var query := Text(ExactPath(path), SearchQuery([], [phrase]));
            QueriesValid(query) && Scanned(c, rowCount, row, query)
  {
    hide IsToken, PhraseSaidAt;
    assert MatchesPath(ExactPath(path), path);
    assert PhraseSaid(c, row, ExactPath(path), phrase);
  }

  lemma {:induction false} BridgeIsSaid(records: seq<Record>, row: nat, path: ByteString)
    requires row < |records| && FieldTokens(records[row], path) != [] && LeafTokens(records[row], path) != []
    ensures PhraseSaidAt(ContentOf(records), Place(row, path), |FieldTokens(records[row], path)| - 1, Bridge(records[row], path))
  {
    BridgeSaid(records, row, path);
    hide PhraseSaidAt, ContentOf, FieldTokens, LeafTokens, Bridge;
  }

  lemma {:induction false} BridgeHoldsTokens(r: Record, path: ByteString)
    requires FieldTokens(r, path) != [] && LeafTokens(r, path) != []
    ensures Bridge(r, path) != [] && forall t :: t in Bridge(r, path) ==> IsToken(t)
  {
    FieldAndLeafTokens(r, path);
    BridgeTokens(r, path);
    hide FieldTokens, LeafTokens, Bridge, IsToken;
  }

  /** The phrase across the boundary is one a query can ask for, and it finds the record. */
  lemma {:induction false} BridgeFound(records: seq<Record>, row: nat, path: ByteString)
    requires row < |records| && FieldTokens(records[row], path) != [] && LeafTokens(records[row], path) != []
    ensures var query := Text(ExactPath(path), SearchQuery([], [Bridge(records[row], path)]));
            QueriesValid(query) && Scanned(ContentOf(records), |records|, row, query)
  {
    hide *;
    var r := records[row];
    var phrase, start := Bridge(r, path), |FieldTokens(r, path)| - 1;
    BridgeIsSaid(records, row, path);
    BridgeHoldsTokens(r, path);
    PhraseScanned(ContentOf(records), |records|, row, path, start, phrase);
  }

  /** A record named "go" with the attribute name: "up" is found by the phrase "go up". */
  lemma {:induction false} GoUpFound()
    ensures var go, up := Ascii("go"), Ascii("up");
            var r := Record(go, [], 0, 0, Some([Leaf(Ascii("name"), Some(up))]));
            Scanned(ContentOf([r]), 1, 0, Text(ExactPath(Ascii("name")), SearchQuery([], [[go, up]])))
  {
    var name, go, up := Ascii("name"), Ascii("go"), Ascii("up");
    var leaf := Leaf(name, Some(up));
    var r := Record(go, [], 0, 0, Some([leaf]));
    OneWord(go);
    OneWord(up);
    assert FieldTokens(r, name) == [go];
    assert IndexedLeaves(r) == [leaf];
    assert FirstValue([leaf], name) == Some(up);
    assert LeafTokens(r, name) == [up];
    assert Bridge(r, name) == [go, up];
    hide *;
    BridgeFound([r], 0, name);
  }

  lemma {:induction false} OneWord(word: ByteString)
    requires |word| == 2 && 97 <= word[0] <= 122 && 97 <= word[1] <= 122 && !IsStopWord(word)
    ensures TokensOf(word) == [word]
  {
    hide IsStopWord;
    assert RunLength(word[2..]) == 0 && RunLength(word[1..]) == 1 && RunLength(word) == 2 by {
      assert word[1..][1..] == word[2..];
    }
    assert word[..2] == word && RunToken(word) == word && TokensOf(word[2..]) == [];
  }

  lemma {:induction false} FieldAndLeafTokens(r: Record, path: ByteString)
    ensures forall t :: t in FieldTokens(r, path) ==> IsToken(t)
    ensures forall t :: t in LeafTokens(r, path) ==> IsToken(t)
  {
    hide TokensOf, IsToken;
    if FieldText(r, path).Some? {
      TokensAreTokens(FieldText(r, path).value);
    }
    if FirstValue(IndexedLeaves(r), path).Some? {
      TokensAreTokens(FirstValue(IndexedLeaves(r), path).value);
    }
  }

  lemma {:induction false} StreamSnoc(pieces: seq<Piece>, last: Piece, path: ByteString)
    ensures PathStream(pieces + [last], path) == PathStream(pieces, path) + (if last.path == path then PieceStream(last) else [])
  {
    assert (pieces + [last])[..|pieces|] == pieces;
  }

  lemma {:induction false} TextStreams(piece: Piece)
    requires piece.TextPiece?
    ensures PieceStream(piece) == Somes(TokensOf(piece.text)) + (if piece.gap then [None] else [])
  {
  }

  lemma {:induction false} NoStream(path: ByteString)
    ensures PathStream([], path) == []
  {
  }
}
