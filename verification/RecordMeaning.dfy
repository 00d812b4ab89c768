/**
 What a search says of a record, read off the record itself: its three fields and the first
 256 leaves of its attributes.  The scan of the indexed contents is shown to say exactly
 this (src/search/indexer.rs, src/search/mod.rs).
 */
module RecordMeaning {
  import opened Wrappers
  import opened Bytes
  import opened SearchPredicates
  import opened SearchEvaluation
  import opened TokenStreams
  import opened SearchScan
  import opened Indexer
  import opened RecordStreams
  import opened Words
  import opened QueryText
  import opened PathPatterns

  // ---- paths ----

  /** Everything, one path, or a path and what hangs below it behind a dot. */
  ghost predicate Under(field: SearchField, path: ByteString) {
    match field
    case AllPaths => true
    case ExactPath(only) => path == only
    case PathPrefix(top) => path == top || exists below :: path == top + Ascii(".") + below
  }

  lemma {:induction false} MatchesUnder(field: SearchField, path: ByteString)
    ensures MatchesPath(field, path) <==> Under(field, path)
  {
    match field
    case PathPrefix(top) =>
      assert Ascii(".") == ['.' as int];
      if MatchesPath(field, path) && path != top {
        assert path == top + Ascii(".") + path[|top| + 1..];
      }
      if below :| path == top + Ascii(".") + below {
        assert path[|top|] == '.' as int && top <= path;
      }
    case _ =>
  }

  // ---- what a record holds ----

  /** How the run stands: failed, still running, or done. */
  predicate StatusWord(r: Record, text: ByteString) {
    && (r.statusCode == 2 ==> text == Ascii("error"))
    && (r.statusCode != 2 && r.endTime == 0 ==> text == Ascii("pending"))
    && (r.statusCode != 2 && r.endTime != 0 ==> text == Ascii("success"))
  }

  /** A fixed field of the record and its path. */
  predicate Named(r: Record, path: ByteString, text: ByteString) {
    || (path == Ascii("name") && text == r.name)
    || (path == Ascii("run_type") && text == r.runType)
    || (path == Ascii("status") && StatusWord(r, text))
  }

  /** One of the first 256 leaves, when the attributes parse. */
  predicate LeafAt(r: Record, i: nat, leaf: Leaf) {
    r.leaves.Some? && i < |r.leaves.value| && i < 256 && r.leaves.value[i] == leaf
  }

  predicate Boundary(value: ByteString, n: nat) {
    n == 0 || n >= |value| || !(128 <= value[n] < 192)
  }

  /** The value itself, or the longest front of at most 4096 bytes that ends between characters. */
  predicate CutText(value: ByteString, text: ByteString) {
    if |value| <= 4096 then text == value
    else |text| <= 4096 && text <= value && Boundary(value, |text|) && forall m :: |text| < m <= 4096 ==> !Boundary(value, m)
  }

  ghost predicate HasPath(r: Record, path: ByteString) {
    path in {Ascii("name"), Ascii("run_type"), Ascii("status")} || exists i: nat, leaf :: LeafAt(r, i, leaf) && leaf.path == path
  }

  ghost predicate HasValue(r: Record, path: ByteString, value: ByteString) {
    |value| <= 4096 && exists i: nat :: LeafAt(r, i, Leaf(path, Some(value)))
  }

  /** A text that can be searched on a path. */
  ghost predicate HasText(r: Record, path: ByteString, text: ByteString) {
    Named(r, path, text) || LeafHasText(r, path, text)
  }

  ghost predicate LeafHasText(r: Record, path: ByteString, text: ByteString) {
    exists i: nat, value :: LeafAt(r, i, Leaf(path, Some(value))) && CutText(value, text)
  }

  /** The text of the first leaf that has a value on the path. */
  ghost predicate FirstLeafText(r: Record, path: ByteString, text: ByteString) {
    exists i: nat, value :: LeafAt(r, i, Leaf(path, Some(value))) && CutText(value, text) && NoneEarlier(r, path, i)
  }

  ghost predicate NoneEarlier(r: Record, path: ByteString, i: nat) {
    forall j: nat, value :: j < i ==> !LeafAt(r, j, Leaf(path, Some(value)))
  }

  /** The phrase stands in one text of the path, or runs from the fixed field into the first leaf. */
  ghost predicate HasPhrase(r: Record, path: ByteString, phrase: seq<ByteString>) {
    (exists text :: HasText(r, path, text) && PhraseIn(text, phrase)) || exists n: nat :: RunsOver(r, path, phrase, n)
  }

  ghost predicate RunsOver(r: Record, path: ByteString, phrase: seq<ByteString>, n: nat) {
    && 0 < n < |phrase|
    && (exists field :: Named(r, path, field) && ClosesWith(field, phrase[..n]))
    && (exists leaf :: FirstLeafText(r, path, leaf) && OpensWith(leaf, phrase[n..]))
  }

  ghost predicate HasWord(r: Record, path: ByteString, token: ByteString) {
    exists text :: HasText(r, path, text) && HasToken(text, token)
  }

  // ---- what a search says of it ----

  ghost predicate WordFound(r: Record, field: SearchField, token: ByteString) {
    exists path :: Under(field, path) && HasWord(r, path, token)
  }

  ghost predicate PhraseFound(r: Record, field: SearchField, phrase: seq<ByteString>) {
    exists path :: Under(field, path) && HasPhrase(r, path, phrase)
  }

  ghost predicate ValueFound(r: Record, field: SearchField, value: ByteString) {
    exists path :: Under(field, path) && HasValue(r, path, value)
  }

  ghost predicate KeyFound(r: Record, pattern: ByteString) {
    exists path :: KeyHit(pattern, path) && HasPath(r, path)
  }

  /** The record matches: every word and phrase of a query is somewhere under its field, and a query asks for something. */
  ghost predicate Matches(r: Record, p: SearchPredicate) {
    match p
    case And(children) => forall i :: 0 <= i < |children| ==> Matches(r, children[i])
    case Or(children) => exists i :: 0 <= i < |children| && Matches(r, children[i])
    case Not(child) => !Matches(r, child)
    case Text(field, query) =>
      && (query.terms != [] || query.phrases != [])
      && (forall token :: token in query.terms ==> WordFound(r, field, token))
      && (forall phrase :: phrase in query.phrases ==> PhraseFound(r, field, phrase))
    case ExactValue(field, value) => ValueFound(r, field, value)
    case JsonKey(pattern) => KeyFound(r, pattern)
  }

  /** A query text is found: each indexed word outside quotes, and each quoted stretch with indexed words, and there is one. */
  ghost predicate TextFound(r: Record, field: SearchField, text: ByteString) {
    && ((exists token :: UnquotedWord(text, token)) || exists phrase :: QuotedPhrase(text, phrase))
    && (forall token :: UnquotedWord(text, token) ==> WordFound(r, field, token))
    && (forall phrase :: QuotedPhrase(text, phrase) ==> PhraseFound(r, field, phrase))
  }

  /** Searching for a parsed query text is finding the text. */
  lemma {:induction false} ParsedTextFound(r: Record, field: SearchField, text: ByteString)
    ensures Matches(r, Text(field, ParseQuery(text))) <==> TextFound(r, field, text)
  {
    var query := ParseQuery(text);
    hide ParseQuery, UnquotedWord, QuotedPhrase, WordFound, PhraseFound;
    forall token
      ensures token in query.terms <==> UnquotedWord(text, token)
    {
      ParsedTerms(text, token);
    }
    forall phrase
      ensures phrase in query.phrases <==> QuotedPhrase(text, phrase)
    {
      ParsedPhrases(text, phrase);
    }
    assert query.terms != [] ==> query.terms[0] in query.terms;
    assert query.phrases != [] ==> query.phrases[0] in query.phrases;
  }

  // ---- values and paths of the contents ----

  ghost predicate PieceValue(pieces: seq<Piece>, path: ByteString, value: ByteString) {
    exists k :: 0 <= k < |pieces| && pieces[k].TextPiece? && pieces[k].path == path && pieces[k].exact == Some(value)
  }

  ghost predicate PiecePath(pieces: seq<Piece>, path: ByteString) {
    exists k :: 0 <= k < |pieces| && pieces[k].path == path
  }

  lemma {:induction false} PieceHolds(c: Content, row: nat, piece: Piece, place: Place, value: ByteString)
    ensures (place, value) in WithPiece(c, row, piece).exacts <==>
            (place, value) in c.exacts || (place == Place(row, piece.path) && piece.TextPiece? && piece.exact == Some(value))
    ensures place in WithPiece(c, row, piece).paths <==> place in c.paths || place == Place(row, piece.path)
  {
    hide TokensOf, Somes;
  }

  lemma {:induction false} PiecesHold(c: Content, row: nat, pieces: seq<Piece>, place: Place, value: ByteString)
    ensures (place, value) in WithPieces(c, row, pieces).exacts <==>
            (place, value) in c.exacts || (place.row == row && PieceValue(pieces, place.path, value))
    ensures place in WithPieces(c, row, pieces).paths <==> place in c.paths || (place.row == row && PiecePath(pieces, place.path))
  {
    hide WithPiece;
    if pieces != [] {
      var front, last := pieces[..|pieces| - 1], pieces[|pieces| - 1];
      PiecesHold(c, row, front, place, value);
      PieceHolds(WithPieces(c, row, front), row, last, place, value);
      LastPiece(front, last, place.path, value);
      assert pieces == front + [last];
    }
  }

  lemma {:induction false} LastPiece(front: seq<Piece>, last: Piece, path: ByteString, value: ByteString)
    ensures PieceValue(front + [last], path, value) <==>
            PieceValue(front, path, value) || (last.TextPiece? && last.path == path && last.exact == Some(value))
    ensures PiecePath(front + [last], path) <==> PiecePath(front, path) || last.path == path
  {
    var pieces := front + [last];
    assert pieces[|front|] == last;
    if k :| 0 <= k < |front| && front[k].TextPiece? && front[k].path == path && front[k].exact == Some(value) {
      assert pieces[k] == front[k];
    }
    if k :| 0 <= k < |front| && front[k].path == path {
      assert pieces[k] == front[k];
    }
  }

  lemma {:induction false} RecordsHold(records: seq<Record>, place: Place, value: ByteString)
    ensures (place, value) in ContentOf(records).exacts <==>
            place.row < |records| && PieceValue(Pieces(records[place.row]), place.path, value)
    ensures place in ContentOf(records).paths <==> place.row < |records| && PiecePath(Pieces(records[place.row]), place.path)
  {
    hide Pieces, PieceValue, PiecePath;
    if records != [] {
      var n := |records| - 1;
      RecordsHold(records[..n], place, value);
      PiecesHold(ContentOf(records[..n]), n, Pieces(records[n]), place, value);
    }
  }

  lemma {:induction false} IndexedIs(r: Record, i: nat, leaf: Leaf)
    ensures LeafAt(r, i, leaf) <==> i < |IndexedLeaves(r)| && IndexedLeaves(r)[i] == leaf
  {
  }

  lemma {:induction false} PieceAt(r: Record, k: nat)
    ensures |Pieces(r)| == 3 + |IndexedLeaves(r)|
    ensures k < |IndexedLeaves(r)| ==> Pieces(r)[3 + k] == LeafPiece(IndexedLeaves(r)[k])
    ensures k < 3 ==> Pieces(r)[k].TextPiece? && Pieces(r)[k].exact == None
    ensures Pieces(r)[0].path == Ascii("name") && Pieces(r)[1].path == Ascii("run_type") && Pieces(r)[2].path == Ascii("status")
  {
    hide Ascii, StatusText, IndexedLeaves, LeafPiece;
  }

  /** The exact values of a record's contents are its leaves' short values. */
  lemma {:induction false} ExactsAre(r: Record, path: ByteString, value: ByteString)
    ensures PieceValue(Pieces(r), path, value) <==> HasValue(r, path, value)
  {
    var pieces, leaves := Pieces(r), IndexedLeaves(r);
    PieceAt(r, 0);
    hide Pieces, IndexedLeaves, BoundedValue, LeafAt;
    if k :| 0 <= k < |pieces| && pieces[k].TextPiece? && pieces[k].path == path && pieces[k].exact == Some(value) {
      PieceAt(r, k);
      PieceAt(r, if k >= 3 then k - 3 else 0);
      var leaf := leaves[k - 3];
      assert leaf == Leaf(path, Some(value));
      IndexedIs(r, k - 3, leaf);
    }
    if HasValue(r, path, value) {
      var i: nat :| LeafAt(r, i, Leaf(path, Some(value)));
      IndexedIs(r, i, Leaf(path, Some(value)));
      PieceAt(r, i);
      assert pieces[3 + i] == LeafPiece(leaves[i]);
    }
  }

  /** The paths of a record's contents are the three names and its leaves' paths. */
  lemma {:induction false} PathsAre(r: Record, path: ByteString)
    ensures PiecePath(Pieces(r), path) <==> HasPath(r, path)
  {
    var pieces, leaves := Pieces(r), IndexedLeaves(r);
    PieceAt(r, 0);
    hide Pieces, IndexedLeaves, BoundedValue, LeafAt, Ascii;
    if k :| 0 <= k < |pieces| && pieces[k].path == path {
      if k >= 3 {
        PieceAt(r, k - 3);
        IndexedIs(r, k - 3, leaves[k - 3]);
      }
    }
    if i: nat, leaf :| LeafAt(r, i, leaf) && leaf.path == path {
      IndexedIs(r, i, leaf);
      PieceAt(r, i);
      assert pieces[3 + i].path == path;
    }
  }

  /** A value is recorded exactly for the first 256 leaves that have it, if it is at most 4096 bytes long. */
  lemma {:induction false} ValuesIndexed(records: seq<Record>, row: nat, path: ByteString, value: ByteString)
    ensures (Place(row, path), value) in ContentOf(records).exacts <==> row < |records| && HasValue(records[row], path, value)
  {
    RecordsHold(records, Place(row, path), value);
    hide ContentOf, PieceValue, HasValue, Pieces;
    if row < |records| {
      ExactsAre(records[row], path, value);
    }
  }

  /** A path is recorded exactly for the three fields and the first 256 leaves. */
  lemma {:induction false} PathsIndexed(records: seq<Record>, row: nat, path: ByteString)
    ensures Place(row, path) in ContentOf(records).paths <==> row < |records| && HasPath(records[row], path)
  {
    RecordsHold(records, Place(row, path), []);
    hide ContentOf, PiecePath, HasPath, Pieces;
    if row < |records| {
      PathsAre(records[row], path);
    }
  }

  // ---- texts ----

  lemma {:induction false} NamedIs(r: Record, path: ByteString, text: ByteString)
    ensures Named(r, path, text) <==> FieldText(r, path) == Some(text)
  {
    NamesDiffer();
    hide Ascii;
  }

  lemma {:induction false} FloorIsLast(value: ByteString, end: nat)
    ensures Boundary(value, FloorBoundary(value, end)) && forall m :: FloorBoundary(value, end) < m <= end ==> !Boundary(value, m)
  {
    if !(end == 0 || end >= |value| || !(128 <= value[end] < 192)) {
      FloorIsLast(value, end - 1);
    }
  }

  lemma {:induction false} CutIs(value: ByteString, text: ByteString)
    ensures CutText(value, text) <==> text == BoundedValue(value)
  {
    if |value| > 4096 {
      var n := FloorBoundary(value, 4096);
      FloorIsLast(value, 4096);
      hide FloorBoundary;
      assert text <= value ==> text == value[..|text|];
    }
  }

  // ---- phrases in streams ----

  /** The phrase stands in the stream from `start` on, without a gap. */
  ghost predicate Run(stream: Stream, start: nat, phrase: seq<ByteString>) {
    start + |phrase| <= |stream| && stream[start..start + |phrase|] == Somes(phrase)
  }

  ghost predicate Runs(stream: Stream, phrase: seq<ByteString>) {
    exists start: nat :: Run(stream, start, phrase)
  }

  lemma {:induction false} RunInTokens(tokens: seq<ByteString>, start: nat, phrase: seq<ByteString>)
    ensures Run(Somes(tokens), start, phrase) <==> Within(tokens, start, phrase)
  {
    if start + |phrase| <= |tokens| {
      var cut := tokens[start..start + |phrase|];
      assert Somes(tokens)[start..start + |phrase|] == Somes(cut);
      if Somes(cut) == Somes(phrase) {
        assert forall k :: 0 <= k < |phrase| ==> Somes(cut)[k] == Some(cut[k]) && Somes(phrase)[k] == Some(phrase[k]);
        assert cut == phrase;
      }
    }
  }

  lemma {:induction false} RunInFront(a: Stream, b: Stream, start: nat, phrase: seq<ByteString>)
    requires start + |phrase| <= |a|
    ensures Run(a + b, start, phrase) <==> Run(a, start, phrase)
  {
    hide Somes;
    assert (a + b)[start..start + |phrase|] == a[start..start + |phrase|];
  }

  lemma {:induction false} RunBehind(a: Stream, b: Stream, start: nat, phrase: seq<ByteString>)
    ensures Run(a + b, |a| + start, phrase) <==> Run(b, start, phrase)
  {
    hide Somes;
    if start + |phrase| <= |b| {
      assert (a + b)[|a| + start..|a| + start + |phrase|] == b[start..start + |phrase|];
    }
  }

  /** A run that starts in front of a place and ends behind it. */
  lemma {:induction false} RunAcross(a: Stream, b: Stream, start: nat, n: nat, phrase: seq<ByteString>)
    requires 0 < n < |phrase| && start + n == |a|
    ensures Run(a + b, start, phrase) <==> Run(a, start, phrase[..n]) && Run(b, 0, phrase[n..])
  {
    var front, back := phrase[..n], phrase[n..];
    assert Somes(phrase) == Somes(front) + Somes(back) && |Somes(front)| == n;
    hide Somes;
    if |back| <= |b| {
      assert (a + b)[start..start + |phrase|] == a[start..start + n] + b[0..0 + |back|];
      BothHalves(a[start..start + n], b[0..0 + |back|], Somes(front), Somes(back));
    }
  }

  lemma {:induction false} BothHalves(a: Stream, b: Stream, c: Stream, d: Stream)
    requires |a| == |c|
    ensures a + b == c + d <==> a == c && b == d
  {
    if a + b == c + d {
      assert a == (a + b)[..|a|] && c == (c + d)[..|a|] && b == (a + b)[|a|..] && d == (c + d)[|a|..];
    }
  }

  lemma {:induction false} RunSays(stream: Stream, start: nat, phrase: seq<ByteString>, k: nat)
    requires Run(stream, start, phrase) && k < |phrase|
    ensures start + k < |stream| && stream[start + k] == Some(phrase[k])
  {
    assert stream[start..start + |phrase|][k] == stream[start + k];
  }

  lemma {:induction false} GapNotInRun(stream: Stream, gap: nat, start: nat, phrase: seq<ByteString>)
    requires gap < |stream| && stream[gap] == None && Run(stream, start, phrase)
    ensures start + |phrase| <= gap || start > gap
  {
    hide Run;
    if start <= gap < start + |phrase| {
      RunSays(stream, start, phrase, gap - start);
    }
  }

  /** A gap keeps phrases apart. */
  lemma {:induction false} RunsAroundGap(tokens: seq<ByteString>, rest: Stream, phrase: seq<ByteString>)
    requires phrase != []
    ensures Runs(Somes(tokens) + [None] + rest, phrase) <==> InTokens(tokens, phrase) || Runs(rest, phrase)
  {
    var said := Somes(tokens) + [None];
    var n := |tokens|;
    assert (said + rest)[n] == None;
    hide Run, Within;
    if start: nat :| Run(said + rest, start, phrase) {
      GapNotInRun(said + rest, n, start, phrase);
      if start + |phrase| <= n {
        RunInFront(said, rest, start, phrase);
        RunInFront(Somes(tokens), [None], start, phrase);
        RunInTokens(tokens, start, phrase);
      } else {
        RunBehind(said, rest, start - n - 1, phrase);
      }
    }
    if a: nat :| Within(tokens, a, phrase) {
      WithinFits(tokens, a, phrase);
      RunInFront(said, rest, a, phrase);
      RunInFront(Somes(tokens), [None], a, phrase);
      RunInTokens(tokens, a, phrase);
    }
    if start: nat :| Run(rest, start, phrase) {
      RunBehind(said, rest, start, phrase);
    }
  }

  lemma {:induction false} WithinFits(tokens: seq<ByteString>, a: nat, phrase: seq<ByteString>)
    requires Within(tokens, a, phrase)
    ensures a + |phrase| <= |tokens|
  {
  }

  /** Some leaf of the path has a text with the phrase. */
  ghost predicate LeafRuns(leaves: seq<Leaf>, path: ByteString, phrase: seq<ByteString>) {
    exists i :: 0 <= i < |leaves| && LeafRunsAt(leaves[i], path, phrase)
  }

  ghost predicate LeafRunsAt(leaf: Leaf, path: ByteString, phrase: seq<ByteString>) {
    leaf.path == path && leaf.value.Some? && InTokens(TokensOf(BoundedValue(leaf.value.value)), phrase)
  }

  function LeafStream(leaves: seq<Leaf>, path: ByteString): Stream {
    PathStream(LeafPieces(leaves), path)
  }

  /** The stream of the leaves, leaf by leaf. */
  lemma {:induction false} LeafStreamFront(leaves: seq<Leaf>, path: ByteString)
    ensures leaves == [] ==> LeafStream(leaves, path) == []
    ensures leaves != [] ==>
      LeafStream(leaves, path)
      == if leaves[0].path == path && leaves[0].value.Some?
         then Somes(TokensOf(BoundedValue(leaves[0].value.value))) + [None] + LeafStream(leaves[1..], path)
         else LeafStream(leaves[1..], path)
  {
    hide TokensOf, BoundedValue, Somes;
    if leaves == [] {
      assert LeafPieces(leaves) == [];
    } else {
      var first := LeafPiece(leaves[0]);
      assert LeafPieces(leaves) == [first] + LeafPieces(leaves[1..]);
      PathStreamJoin([first], LeafPieces(leaves[1..]), path);
      StreamSnoc([], first, path);
      assert [] + [first] == [first];
      hide PathStream;
      assert PathStream([], path) == [] by { NoStream(path); }
    }
  }

  lemma {:induction false} LeavesRun(leaves: seq<Leaf>, path: ByteString, phrase: seq<ByteString>)
    requires phrase != []
    ensures Runs(LeafStream(leaves, path), phrase) <==> LeafRuns(leaves, path, phrase)
  {
    LeafStreamFront(leaves, path);
    hide LeafStream, Run, BoundedValue, TokensOf, InTokens;
    if leaves == [] {
      NothingRuns(phrase);
    } else {
      LeavesRun(leaves[1..], path, phrase);
      LeafOrLater(leaves, path, phrase);
      hide LeafRuns;
      if leaves[0].path == path && leaves[0].value.Some? {
        RunsAroundGap(TokensOf(BoundedValue(leaves[0].value.value)), LeafStream(leaves[1..], path), phrase);
      }
    }
  }

  lemma {:induction false} NothingRuns(phrase: seq<ByteString>)
    requires phrase != []
    ensures !Runs([], phrase)
  {
  }

  lemma {:induction false} LeafOrLater(leaves: seq<Leaf>, path: ByteString, phrase: seq<ByteString>)
    requires leaves != []
    ensures LeafRuns(leaves, path, phrase) <==> LeafRunsAt(leaves[0], path, phrase) || LeafRuns(leaves[1..], path, phrase)
  {
    hide LeafRunsAt;
    if i :| 0 <= i < |leaves| && LeafRunsAt(leaves[i], path, phrase) {
      assert i > 0 ==> leaves[i] == leaves[1..][i - 1];
    }
    if i :| 0 <= i < |leaves[1..]| && LeafRunsAt(leaves[1..][i], path, phrase) {
      assert leaves[i + 1] == leaves[1..][i];
    }
  }

  /** The leaves' stream starts with a phrase exactly when the first value's text does. */
  lemma {:induction false} LeavesOpen(leaves: seq<Leaf>, path: ByteString, phrase: seq<ByteString>)
    requires phrase != []
    ensures Run(LeafStream(leaves, path), 0, phrase) <==>
            FirstValue(leaves, path).Some? && Within(TokensOf(FirstValue(leaves, path).value), 0, phrase)
  {
    LeafStreamFront(leaves, path);
    hide LeafStream, BoundedValue, TokensOf;
    if leaves != [] {
      if leaves[0].path == path && leaves[0].value.Some? {
        var tokens := TokensOf(BoundedValue(leaves[0].value.value));
        var said, rest := Somes(tokens) + [None], LeafStream(leaves[1..], path);
        assert (said + rest)[|tokens|] == None;
        hide Run;
        if Run(said + rest, 0, phrase) {
          GapNotInRun(said + rest, |tokens|, 0, phrase);
        }
        if |phrase| <= |tokens| {
          RunInFront(said, rest, 0, phrase);
          RunInFront(Somes(tokens), [None], 0, phrase);
          RunInTokens(tokens, 0, phrase);
        }
      } else {
        LeavesOpen(leaves[1..], path, phrase);
      }
    }
  }

  /** Across the end of the field's tokens. */
  ghost predicate SplitRuns(field: seq<ByteString>, rest: Stream, phrase: seq<ByteString>, n: nat) {
    0 < n < |phrase| && n <= |field| && Within(field, |field| - n, phrase[..n]) && Run(rest, 0, phrase[n..])
  }

  lemma {:induction false} FieldRuns(field: seq<ByteString>, rest: Stream, phrase: seq<ByteString>)
    requires phrase != []
    ensures Runs(Somes(field) + rest, phrase) <==>
            InTokens(field, phrase) || Runs(rest, phrase) || exists n: nat :: SplitRuns(field, rest, phrase, n)
  {
    var said := Somes(field);
    if start: nat :| Run(said + rest, start, phrase) {
      hide Run, Within;
      if start + |phrase| <= |field| {
        RunInFront(said, rest, start, phrase);
        RunInTokens(field, start, phrase);
      } else if start >= |field| {
        RunBehind(said, rest, start - |field|, phrase);
      } else {
        var n := |field| - start;
        RunAcross(said, rest, start, n, phrase);
        RunInTokens(field, start, phrase[..n]);
        assert SplitRuns(field, rest, phrase, n);
      }
    }
    hide Run, Within;
    if a: nat :| Within(field, a, phrase) {
      WithinFits(field, a, phrase);
      RunInFront(said, rest, a, phrase);
      RunInTokens(field, a, phrase);
    }
    if start: nat :| Run(rest, start, phrase) {
      RunBehind(said, rest, start, phrase);
    }
    if n: nat :| SplitRuns(field, rest, phrase, n) {
      RunAcross(said, rest, |field| - n, n, phrase);
      RunInTokens(field, |field| - n, phrase[..n]);
    }
  }

  // ---- phrases in records ----

  lemma {:induction false} SaidIsRun(records: seq<Record>, row: nat, path: ByteString, start: nat, phrase: seq<ByteString>)
    requires row < |records| && phrase != []
    ensures var r := records[row];
            PhraseSaidAt(ContentOf(records), Place(row, path), start, phrase) <==>
            Run(Somes(FieldTokens(r, path)) + LeafStream(IndexedLeaves(r), path), start, phrase)
  {
    var r := records[row];
    var stream := Somes(FieldTokens(r, path)) + LeafStream(IndexedLeaves(r), path);
    hide *;
    forall k: nat, token
      ensures Says(ContentOf(records), Place(row, path), k, token) <==> k < |stream| && stream[k] == Some(token)
    {
      SaidOnPath(records, row, path, k, token);
    }
    RunOfSaid(ContentOf(records), Place(row, path), stream, start, phrase);
  }

  lemma {:induction false} SaidOnPath(records: seq<Record>, row: nat, path: ByteString, k: nat, token: ByteString)
    requires row < |records|
    ensures var r := records[row];
            var stream := Somes(FieldTokens(r, path)) + LeafStream(IndexedLeaves(r), path);
            Says(ContentOf(records), Place(row, path), k, token) <==> k < |stream| && stream[k] == Some(token)
  {
    SaidOfRecord(records, row, path, k, token);
    hide Says, ContentOf, Somes, FieldTokens, PathStream, LeafPieces, IndexedLeaves;
  }

  lemma {:induction false} RunOfSaid(c: Content, place: Place, stream: Stream, start: nat, phrase: seq<ByteString>)
    requires phrase != []
    requires forall k: nat, token :: Says(c, place, k, token) <==> k < |stream| && stream[k] == Some(token)
    ensures PhraseSaidAt(c, place, start, phrase) <==> Run(stream, start, phrase)
  {
    hide Says;
    if PhraseSaidAt(c, place, start, phrase) {
      assert Says(c, place, start + (|phrase| - 1), phrase[|phrase| - 1]);
      forall k: nat | k < |phrase|
        ensures stream[start..start + |phrase|][k] == Some(phrase[k])
      {
        assert Says(c, place, start + k, phrase[k]);
      }
      assert stream[start..start + |phrase|] == Somes(phrase);
    }
    if Run(stream, start, phrase) {
      forall k: nat | k < |phrase|
        ensures Says(c, place, start + k, phrase[k])
      {
        RunSays(stream, start, phrase, k);
      }
    }
  }

  lemma {:induction false} FieldHasPhrase(r: Record, path: ByteString, phrase: seq<ByteString>)
    requires phrase != []
    ensures InTokens(FieldTokens(r, path), phrase) <==> exists text :: Named(r, path, text) && PhraseIn(text, phrase)
  {
    hide FieldText, Named, InTokens, PhraseIn, TokensOf;
    var field := FieldText(r, path);
    if field.None? {
      NoneInTokens(phrase);
    }
    if text :| Named(r, path, text) && PhraseIn(text, phrase) {
      NamedIs(r, path, text);
      PhraseIsRun(text, phrase);
    }
    if field.Some? {
      NamedIs(r, path, field.value);
      PhraseIsRun(field.value, phrase);
    }
  }

  lemma {:induction false} NoneInTokens(phrase: seq<ByteString>)
    requires phrase != []
    ensures !InTokens([], phrase)
  {
  }

  lemma {:induction false} LeavesHavePhrase(r: Record, path: ByteString, phrase: seq<ByteString>)
    requires phrase != []
    ensures LeafRuns(IndexedLeaves(r), path, phrase) <==> exists text :: LeafHasText(r, path, text) && PhraseIn(text, phrase)
  {
    var leaves := IndexedLeaves(r);
    hide IndexedLeaves, LeafAt, InTokens, PhraseIn, TokensOf, BoundedValue, CutText;
    if i :| 0 <= i < |leaves| && LeafRunsAt(leaves[i], path, phrase) {
      var value := leaves[i].value.value;
      IndexedIs(r, i, leaves[i]);
      CutIs(value, BoundedValue(value));
      PhraseIsRun(BoundedValue(value), phrase);
      assert LeafAt(r, i, Leaf(path, Some(value)));
      assert LeafHasText(r, path, BoundedValue(value));
    }
    if text :| LeafHasText(r, path, text) && PhraseIn(text, phrase) {
      var i: nat, value :| LeafAt(r, i, Leaf(path, Some(value))) && CutText(value, text);
      IndexedIs(r, i, Leaf(path, Some(value)));
      CutIs(value, text);
      PhraseIsRun(text, phrase);
      assert LeafRunsAt(leaves[i], path, phrase);
    }
  }

  lemma {:induction false} FirstValueAt(leaves: seq<Leaf>, path: ByteString) returns (i: nat)
    ensures match FirstValue(leaves, path)
            case None => forall j, value :: 0 <= j < |leaves| ==> leaves[j] != Leaf(path, Some(value))
            case Some(text) =>
              && i < |leaves| && leaves[i].path == path && leaves[i].value.Some? && text == BoundedValue(leaves[i].value.value)
              && forall j, value :: 0 <= j < i ==> leaves[j] != Leaf(path, Some(value))
  {
    hide BoundedValue;
    i := 0;
    if leaves != [] && !(leaves[0].path == path && leaves[0].value.Some?) {
      var k := FirstValueAt(leaves[1..], path);
      i := k + 1;
      assert forall j :: 0 < j < |leaves| ==> leaves[j] == leaves[1..][j - 1];
    }
  }

  lemma {:induction false} FirstLeafIs(r: Record, path: ByteString, text: ByteString)
    ensures FirstLeafText(r, path, text) <==> FirstValue(IndexedLeaves(r), path) == Some(text)
  {
    var leaves := IndexedLeaves(r);
    var first := FirstValueAt(leaves, path);
    forall i: nat, leaf
      ensures LeafAt(r, i, leaf) <==> i < |leaves| && leaves[i] == leaf
    {
      IndexedIs(r, i, leaf);
    }
    forall value, t
      ensures CutText(value, t) <==> t == BoundedValue(value)
    {
      CutIs(value, t);
    }
    hide IndexedLeaves, LeafAt, BoundedValue, CutText, FirstValue;
    assert FirstValue(leaves, path).Some? ==> LeafAt(r, first, Leaf(path, Some(leaves[first].value.value)));
    if FirstLeafText(r, path, text) {
      var i: nat, value :| LeafAt(r, i, Leaf(path, Some(value))) && CutText(value, text) && NoneEarlier(r, path, i);
      assert leaves[i] == Leaf(path, Some(value));
    }
    if FirstValue(leaves, path) == Some(text) {
      var value := leaves[first].value.value;
      assert LeafAt(r, first, Leaf(path, Some(value))) && CutText(value, text);
      assert NoneEarlier(r, path, first);
    }
  }

  lemma {:induction false} AcrossIs(r: Record, path: ByteString, phrase: seq<ByteString>, n: nat)
    ensures SplitRuns(FieldTokens(r, path), LeafStream(IndexedLeaves(r), path), phrase, n) <==> RunsOver(r, path, phrase, n)
  {
    if 0 < n < |phrase| {
      var front, back := phrase[..n], phrase[n..];
      LeavesOpen(IndexedLeaves(r), path, back);
      ClosesIs(r, path, front);
      OpensIs(r, path, back);
      hide *;
      NowSplit(r, path, phrase, n);
    }
  }

  lemma {:induction false} NowSplit(r: Record, path: ByteString, phrase: seq<ByteString>, n: nat)
    requires 0 < n < |phrase|
    ensures SplitRuns(FieldTokens(r, path), LeafStream(IndexedLeaves(r), path), phrase, n) <==>
      n <= |FieldTokens(r, path)| && Within(FieldTokens(r, path), |FieldTokens(r, path)| - n, phrase[..n])
      && Run(LeafStream(IndexedLeaves(r), path), 0, phrase[n..])
    ensures RunsOver(r, path, phrase, n) <==>
      && (exists field :: Named(r, path, field) && ClosesWith(field, phrase[..n]))
      && (exists leaf :: FirstLeafText(r, path, leaf) && OpensWith(leaf, phrase[n..]))
  {
    hide FieldTokens, LeafStream, IndexedLeaves, Within, Run, Named, ClosesWith, OpensWith, FirstLeafText;
  }

  lemma {:induction false} ClosesIs(r: Record, path: ByteString, front: seq<ByteString>)
    requires front != []
    ensures (exists field :: Named(r, path, field) && ClosesWith(field, front)) <==>
            |front| <= |FieldTokens(r, path)| && Within(FieldTokens(r, path), |FieldTokens(r, path)| - |front|, front)
  {
    hide FieldText, Named, Within, ClosesWith, TokensOf;
    if field :| Named(r, path, field) && ClosesWith(field, front) {
      NamedIs(r, path, field);
      PhraseCloses(field, front);
    }
    if FieldText(r, path).Some? {
      NamedIs(r, path, FieldText(r, path).value);
      PhraseCloses(FieldText(r, path).value, front);
    }
  }

  lemma {:induction false} OpensIs(r: Record, path: ByteString, back: seq<ByteString>)
    requires back != []
    ensures (exists leaf :: FirstLeafText(r, path, leaf) && OpensWith(leaf, back)) <==>
            FirstValue(IndexedLeaves(r), path).Some? && Within(TokensOf(FirstValue(IndexedLeaves(r), path).value), 0, back)
  {
    hide FirstLeafText, Within, OpensWith, TokensOf, IndexedLeaves, FirstValue;
    if leaf :| FirstLeafText(r, path, leaf) && OpensWith(leaf, back) {
      FirstLeafIs(r, path, leaf);
      PhraseOpens(leaf, back);
    }
    if FirstValue(IndexedLeaves(r), path).Some? {
      FirstLeafIs(r, path, FirstValue(IndexedLeaves(r), path).value);
      PhraseOpens(FirstValue(IndexedLeaves(r), path).value, back);
    }
  }

  /** A phrase is said on a path of the contents exactly when the record has it there. */
  lemma {:induction false} PhrasesSaid(records: seq<Record>, row: nat, path: ByteString, phrase: seq<ByteString>)
    requires row < |records| && phrase != []
    ensures (exists start: nat :: PhraseSaidAt(ContentOf(records), Place(row, path), start, phrase)) <==>
            HasPhrase(records[row], path, phrase)
  {
    hide *;
    var r := records[row];
    var field, rest := FieldTokens(r, path), LeafStream(IndexedLeaves(r), path);
    SomewhereSaid(records, row, path, phrase, Somes(field) + rest) by {
      forall start: nat
        ensures PhraseSaidAt(ContentOf(records), Place(row, path), start, phrase) <==> Run(Somes(field) + rest, start, phrase)
      {
        SaidIsRun(records, row, path, start, phrase);
      }
    }
    FieldRuns(field, rest, phrase);
    FieldHasPhrase(r, path, phrase);
    LeavesRun(IndexedLeaves(r), path, phrase);
    LeavesHavePhrase(r, path, phrase);
    forall n: nat
      ensures SplitRuns(field, rest, phrase, n) <==> RunsOver(r, path, phrase, n)
    {
      AcrossIs(r, path, phrase, n);
    }
    PhraseParts(r, path, phrase);
  }

  lemma {:induction false} SomewhereSaid(records: seq<Record>, row: nat, path: ByteString, phrase: seq<ByteString>, stream: Stream)
    requires forall start: nat :: PhraseSaidAt(ContentOf(records), Place(row, path), start, phrase) <==> Run(stream, start, phrase)
    ensures (exists start: nat :: PhraseSaidAt(ContentOf(records), Place(row, path), start, phrase)) <==> Runs(stream, phrase)
  {
    hide PhraseSaidAt, Run, ContentOf;
    if start: nat :| Run(stream, start, phrase) {
      assert PhraseSaidAt(ContentOf(records), Place(row, path), start, phrase);
    }
  }

  lemma {:induction false} PhraseParts(r: Record, path: ByteString, phrase: seq<ByteString>)
    ensures HasPhrase(r, path, phrase) <==>
      || (exists text :: Named(r, path, text) && PhraseIn(text, phrase))
      || (exists text :: LeafHasText(r, path, text) && PhraseIn(text, phrase))
      || (exists n: nat :: RunsOver(r, path, phrase, n))
  {
    hide Named, LeafHasText, PhraseIn, RunsOver;
    if text :| Named(r, path, text) && PhraseIn(text, phrase) {
      assert HasText(r, path, text);
    }
    if text :| LeafHasText(r, path, text) && PhraseIn(text, phrase) {
      assert HasText(r, path, text);
    }
  }

  lemma {:induction false} OneWordPhrase(r: Record, path: ByteString, token: ByteString)
    ensures HasPhrase(r, path, [token]) <==> HasWord(r, path, token)
  {
    hide HasText, RunsOver;
    assert forall n: nat :: !RunsOver(r, path, [token], n) by { NeedsTwo(r, path, token); }
    forall text
      ensures PhraseIn(text, [token]) <==> HasToken(text, token)
    {
      SingleWord(text, token);
    }
    hide PhraseIn, HasToken;
  }

  lemma {:induction false} NeedsTwo(r: Record, path: ByteString, token: ByteString)
    ensures forall n: nat :: !RunsOver(r, path, [token], n)
  {
  }

  lemma {:induction false} SingleWord(text: ByteString, token: ByteString)
    ensures PhraseIn(text, [token]) <==> HasToken(text, token)
  {
    hide TokenStart;
    if i: nat :| TokenStart(text, i, token) {
      var starts: seq<nat> := [i];
      assert Following(text, starts, [token]);
    }
    if starts :| Following(text, starts, [token]) {
      assert TokenStart(text, starts[0], [token][0]);
    }
  }

  // ---- the scan ----

  lemma {:induction false} PhraseMeans(records: seq<Record>, row: nat, field: SearchField, phrase: seq<ByteString>)
    requires row < |records| && phrase != []
    ensures PhraseSaid(ContentOf(records), row, field, phrase) <==> PhraseFound(records[row], field, phrase)
  {
    hide PhraseSaidAt, ContentOf, MatchesPath, Under, HasPhrase;
    if path, start: nat :| MatchesPath(field, path) && PhraseSaidAt(ContentOf(records), Place(row, path), start, phrase) {
      MatchesUnder(field, path);
      PhrasesSaid(records, row, path, phrase);
    }
    if path :| Under(field, path) && HasPhrase(records[row], path, phrase) {
      MatchesUnder(field, path);
      PhrasesSaid(records, row, path, phrase);
      var start: nat :| PhraseSaidAt(ContentOf(records), Place(row, path), start, phrase);
    }
  }

  lemma {:induction false} WordMeans(records: seq<Record>, row: nat, field: SearchField, token: ByteString)
    requires row < |records|
    ensures TokenSaid(ContentOf(records), row, field, token) <==> WordFound(records[row], field, token)
  {
    PhraseMeans(records, row, field, [token]);
    hide ContentOf, MatchesPath, Under, HasPhrase, HasWord, Says;
    forall path
      ensures HasPhrase(records[row], path, [token]) <==> HasWord(records[row], path, token)
    {
      OneWordPhrase(records[row], path, token);
    }
    if path, k: nat :| MatchesPath(field, path) && Says(ContentOf(records), Place(row, path), k, token) {
      assert PhraseSaidAt(ContentOf(records), Place(row, path), k, [token]);
    }
    if path, start: nat :| MatchesPath(field, path) && PhraseSaidAt(ContentOf(records), Place(row, path), start, [token]) {
      assert Says(ContentOf(records), Place(row, path), start + 0, [token][0]);
    }
  }

  lemma {:induction false} ValueMeans(records: seq<Record>, row: nat, field: SearchField, value: ByteString)
    requires row < |records|
    ensures ValueSaid(ContentOf(records), row, field, value) <==> ValueFound(records[row], field, value)
  {
    hide ContentOf, MatchesPath, Under, HasValue;
    forall path
      ensures MatchesPath(field, path) && (Place(row, path), value) in ContentOf(records).exacts <==>
              Under(field, path) && HasValue(records[row], path, value)
    {
      MatchesUnder(field, path);
      ValuesIndexed(records, row, path, value);
    }
  }

  lemma {:induction false} KeyMeans(records: seq<Record>, row: nat, pattern: ByteString)
    requires row < |records|
    ensures KeySaid(ContentOf(records), row, pattern) <==> KeyFound(records[row], pattern)
  {
    hide ContentOf, LooksForKey, KeyHit, HasPath;
    forall path
      ensures LooksForKey(path, pattern) && Place(row, path) in ContentOf(records).paths <==>
              KeyHit(pattern, path) && HasPath(records[row], path)
    {
      LooksForKeyExact(path, pattern);
      PathsIndexed(records, row, path);
    }
  }

  lemma {:induction false} QueryMeans(records: seq<Record>, row: nat, field: SearchField, query: SearchQuery)
    requires row < |records| && ValidQuery(query)
    ensures QuerySaid(ContentOf(records), row, field, query) <==> Matches(records[row], Text(field, query))
  {
    hide ContentOf, TokenSaid, PhraseSaid, WordFound, PhraseFound, IsToken;
    forall i | 0 <= i < |query.terms|
      ensures TokenSaid(ContentOf(records), row, field, query.terms[i]) <==> WordFound(records[row], field, query.terms[i])
    {
      WordMeans(records, row, field, query.terms[i]);
    }
    forall i | 0 <= i < |query.phrases|
      ensures PhraseSaid(ContentOf(records), row, field, query.phrases[i]) <==> PhraseFound(records[row], field, query.phrases[i])
    {
      assert query.phrases[i] in query.phrases;
      PhraseMeans(records, row, field, query.phrases[i]);
    }
  }

  /** The scan finds a row exactly when its record matches, for every predicate. */
  lemma {:induction false} ScanMeans(records: seq<Record>, row: nat, p: SearchPredicate)
    requires row < |records| && QueriesValid(p)
    ensures Eval(p, leaf => LeafSaid(ContentOf(records), row, leaf)) <==> Matches(records[row], p)
  {
    hide ContentOf, QuerySaid, ValueSaid, KeySaid, ValueFound, KeyFound, WordFound, PhraseFound, ValidQuery;
    var leaf := q => LeafSaid(ContentOf(records), row, q);
    match p
    case And(children) =>
      forall i | 0 <= i < |children|
        ensures Eval(children[i], q => LeafSaid(ContentOf(records), row, q)) <==> Matches(records[row], children[i])
      {
        ScanMeans(records, row, children[i]);
      }
    case Or(children) =>
      forall i | 0 <= i < |children|
        ensures Eval(children[i], q => LeafSaid(ContentOf(records), row, q)) <==> Matches(records[row], children[i])
      {
        ScanMeans(records, row, children[i]);
      }
    case Not(child) => ScanMeans(records, row, child);
    case Text(field, query) => QueryMeans(records, row, field, query);
    case ExactValue(field, value) => ValueMeans(records, row, field, value);
    case JsonKey(pattern) => KeyMeans(records, row, pattern);
  }
}
