/** The search predicate language: fields, tokenised queries and boolean combinations. */
module SearchPredicates {
  import opened Bytes

  const MIN_TOKEN_BYTES: nat := 2
  const MAX_TOKEN_BYTES: nat := 64

  datatype SearchField = AllPaths | ExactPath(path: ByteString) | PathPrefix(prefix: ByteString)

  datatype SearchQuery = SearchQuery(terms: seq<ByteString>, phrases: seq<seq<ByteString>>)

  datatype SearchPredicate =
    | And(children: seq<SearchPredicate>)
    | Or(children: seq<SearchPredicate>)
    | Not(child: SearchPredicate)
    | Text(field: SearchField, query: SearchQuery)
    | ExactValue(field: SearchField, value: ByteString)
    | JsonKey(pattern: ByteString)

  /** What a predicate says, given what its leaves say. */
  predicate Eval(p: SearchPredicate, leaf: SearchPredicate -> bool) {
    match p
    case And(children) => forall i :: 0 <= i < |children| ==> Eval(children[i], leaf)
    case Or(children) => exists i :: 0 <= i < |children| && Eval(children[i], leaf)
    case Not(child) => !Eval(child, leaf)
    case _ => leaf(p)
  }

  /** `matches_path`: everything, one path, or a path and what hangs below it. */
  predicate MatchesPath(field: SearchField, path: ByteString) {
    match field
    case AllPaths => true
    case ExactPath(expected) => path == expected
    case PathPrefix(prefix) => path == prefix || (prefix <= path && path[|prefix|..] != [] && path[|prefix|] == '.' as int)
  }

  // ---- tokens ----

  predicate Alphanumeric(b: Byte) {
    48 <= b <= 57 || 65 <= b <= 90 || 97 <= b <= 122
  }

  function Lower(b: Byte): Byte {
    if 65 <= b <= 90 then b + 32 else b
  }

  predicate IsStopWord(token: ByteString) {
    token in [Ascii("a"), Ascii("an"), Ascii("and"), Ascii("are"), Ascii("as"), Ascii("at"), Ascii("be"), Ascii("by"),
              Ascii("for"), Ascii("from"), Ascii("in"), Ascii("is"), Ascii("it"), Ascii("of"), Ascii("on"), Ascii("or"),
              Ascii("the"), Ascii("to"), Ascii("with")]
  }

  predicate Kept(token: ByteString) {
    |token| >= MIN_TOKEN_BYTES && !IsStopWord(token)
  }

  /** The longest alphanumeric run at the front. */
  function RunLength(text: ByteString): (n: nat)
    ensures n <= |text|
  {
    if text == [] || !Alphanumeric(text[0]) then 0 else 1 + RunLength(text[1..])
  }

  function LowerAll(text: ByteString): ByteString {
    seq(|text|, i requires 0 <= i < |text| => Lower(text[i]))
  }

  /** A run's token: lower-cased and cut at the length limit. */
  function RunToken(run: ByteString): ByteString {
    LowerAll(if |run| <= MAX_TOKEN_BYTES then run else run[..MAX_TOKEN_BYTES])
  }

  /** Every maximal alphanumeric run, in order, as a token unless too short or a stop word. */
  function TokensOf(text: ByteString): seq<ByteString>
    decreases |text|
  {
    if text == [] then []
    else
      var n := RunLength(text);
      if n == 0 then TokensOf(text[1..])
      else
        var token := RunToken(text[..n]);
        (if Kept(token) then [token] else []) + TokensOf(text[n..])
  }

  /** The loop state after a partial run: what the finished text will add. */
  function PendingTokens(current: ByteString, text: ByteString): seq<ByteString>
    decreases |text|
  {
    if text == [] then if Kept(current) then [current] else []
    else if Alphanumeric(text[0]) then
      PendingTokens(if |current| < MAX_TOKEN_BYTES then current + [Lower(text[0])] else current, text[1..])
    else (if Kept(current) then [current] else []) + PendingTokens([], text[1..])
  }

  lemma {:induction false} PendingIsRun(run: ByteString, text: ByteString)
    requires forall i :: 0 <= i < |run| ==> Alphanumeric(run[i])
    ensures PendingTokens(RunToken(run), text) == PendingTokens([], run + text)
    decreases |run|
  {
    hide IsStopWord;
    if run == [] {
      assert run + text == text && RunToken(run) == [];
    } else {
      var front := run[..|run| - 1];
      var last := run[|run| - 1];
      var longer := [last] + text;
      PendingIsRun(front, longer);
      assert longer[1..] == text;
      assert front + longer == run + text;
      assert RunToken(run) == if |RunToken(front)| < MAX_TOKEN_BYTES then RunToken(front) + [Lower(last)] else RunToken(front);
    }
  }

  /** At a separator or the end, the pending run is finished. */
  lemma {:induction false} RunEnds(current: ByteString, text: ByteString)
    requires text != [] ==> !Alphanumeric(text[0])
    ensures PendingTokens(current, text) == (if Kept(current) then [current] else []) + PendingTokens([], text)
    ensures text != [] ==> PendingTokens([], text) == PendingTokens([], text[1..])
  {
    hide IsStopWord;
    assert !Kept([]);
    if text == [] {
      assert PendingTokens([], text) == [];
    }
  }

  lemma {:induction false} PendingIsTokens(text: ByteString)
    ensures PendingTokens([], text) == TokensOf(text)
    decreases |text|
  {
    hide PendingTokens, Kept, RunToken;
    if text == [] {
      RunEnds([], text);
      NothingKept(text);
    } else {
      var n := RunLength(text);
      if n == 0 {
        PendingIsTokens(text[1..]);
        RunEnds([], text);
      } else {
        RunIsAlphanumeric(text);
        var run, rest := text[..n], text[n..];
        assert text == run + rest;
        PendingIsRun(run, rest);
        RunEnds(RunToken(run), rest);
        PendingIsTokens(rest);
      }
    }
  }

  lemma {:induction false} NothingKept(text: ByteString)
    requires text == []
    ensures PendingTokens([], text) == []
  {
  }

  lemma {:induction false} RunIsAlphanumeric(text: ByteString)
    ensures forall i :: 0 <= i < RunLength(text) ==> Alphanumeric(text[i])
    ensures RunLength(text) < |text| ==> !Alphanumeric(text[RunLength(text)])
  {
    if text != [] && Alphanumeric(text[0]) {
      RunIsAlphanumeric(text[1..]);
      forall i | 0 <= i < RunLength(text)
        ensures Alphanumeric(text[i])
      {
        assert i > 0 ==> text[i] == text[1..][i - 1];
      }
    }
  }

  lemma {:induction false} PendingStep(current: ByteString, text: ByteString, i: nat)
    requires i < |text|
    ensures PendingTokens(current, text[i..])
         == if Alphanumeric(text[i]) then
              PendingTokens(if |current| < MAX_TOKEN_BYTES then current + [Lower(text[i])] else current, text[i + 1..])
            else (if Kept(current) then [current] else []) + PendingTokens([], text[i + 1..])
  {
    assert text[i..][1..] == text[i + 1..];
  }

  /** `tokens_for_text`. */
  method TokensForText(text: ByteString) returns (tokens: seq<ByteString>)
    ensures tokens == TokensOf(text)
  {
    tokens := [];
    var current: ByteString := [];
    PendingIsTokens(text);
    assert text[0..] == text;
    hide *;
    for i := 0 to |text|
      invariant tokens + PendingTokens(current, text[i..]) == TokensOf(text)
    {
      PendingStep(current, text, i);
      ghost var rest := PendingTokens([], text[i + 1..]);
      if Alphanumeric(text[i]) {
        if |current| < MAX_TOKEN_BYTES {
          current := current + [Lower(text[i])];
        }
      } else {
        if Kept(current) {
          assert tokens + ([current] + rest) == (tokens + [current]) + rest;
          tokens := tokens + [current];
        } else {
          assert [] + rest == rest;
        }
        current := [];
      }
    }
    NothingPending(current);
    assert text[|text|..] == [];
    if Kept(current) {
      tokens := tokens + [current];
    }
  }

  lemma {:induction false} NothingPending(current: ByteString)
    ensures PendingTokens(current, []) == if Kept(current) then [current] else []
  {
  }

  /** What the index relies on: a token has no separator byte and no `=`. */
  predicate IsToken(token: ByteString) {
    && MIN_TOKEN_BYTES <= |token| <= MAX_TOKEN_BYTES
    && !IsStopWord(token)
    && forall i :: 0 <= i < |token| ==> 48 <= token[i] <= 57 || 97 <= token[i] <= 122
  }

  lemma {:induction false} TokensAreTokens(text: ByteString)
    ensures forall t :: t in TokensOf(text) ==> IsToken(t)
    decreases |text|
  {
    if text != [] {
      var n := RunLength(text);
      if n == 0 {
        TokensAreTokens(text[1..]);
      } else {
        RunIsAlphanumeric(text);
        TokensAreTokens(text[n..]);
        assert forall i :: 0 <= i < |RunToken(text[..n])| ==> RunToken(text[..n])[i] == Lower(text[i]);
      }
    }
  }

  // ---- queries ----

  /** The text up to the next double quote and what follows the quote. */
  function Quoted(text: ByteString): (r: (ByteString, ByteString))
    ensures |r.0| + |r.1| <= |text|
  {
    if text == [] then ([], [])
    else if text[0] == 34 then ([], text[1..])
    else
      var (inside, rest) := Quoted(text[1..]);
      ([text[0]] + inside, rest)
  }

  function Unquoted(text: ByteString): ByteString
    decreases |text|
  {
    if text == [] then []
    else if text[0] != 34 then [text[0]] + Unquoted(text[1..])
    else [32] + Unquoted(Quoted(text[1..]).1)
  }

  function Phrases(text: ByteString): seq<seq<ByteString>>
    decreases |text|
  {
    if text == [] then []
    else if text[0] != 34 then Phrases(text[1..])
    else
      var (inside, rest) := Quoted(text[1..]);
      (if TokensOf(inside) != [] then [TokensOf(inside)] else []) + Phrases(rest)
  }

  function Dedup(terms: seq<ByteString>): seq<ByteString> {
    if terms == [] then []
    else
      var front := Dedup(terms[..|terms| - 1]);
      if terms[|terms| - 1] in front then front else front + [terms[|terms| - 1]]
  }

  function ParseQuery(text: ByteString): SearchQuery {
    SearchQuery(Dedup(TokensOf(Unquoted(text))), Phrases(text))
  }

  /** The inner loop of `SearchQuery::parse`: reads up to and including the closing quote. */
  method ReadQuoted(text: ByteString) returns (phrase: ByteString, rest: ByteString)
    ensures (phrase, rest) == Quoted(text)
  {
    phrase, rest := [], text;
    assert phrase + Quoted(rest).0 == Quoted(rest).0;
    while rest != []
      invariant Quoted(text) == (phrase + Quoted(rest).0, Quoted(rest).1)
      decreases |rest|
    {
      var ch := rest[0];
      rest := rest[1..];
      if ch == 34 {
        assert phrase + [] == phrase;
        return;
      }
      assert phrase + ([ch] + Quoted(rest).0) == (phrase + [ch]) + Quoted(rest).0;
      phrase := phrase + [ch];
    }
    assert phrase + [] == phrase;
  }

  /** `SearchQuery::parse`. */
  method Parse(text: ByteString) returns (query: SearchQuery)
    ensures query == ParseQuery(text)
  {
    var phrases, unquoted, rest := [], [], text;
    hide TokensOf, Quoted, Dedup;
    while rest != []
      invariant unquoted + Unquoted(rest) == Unquoted(text)
      invariant phrases + Phrases(rest) == Phrases(text)
      decreases |rest|
    {
      var ch := rest[0];
      if ch != 34 {
        assert unquoted + ([ch] + Unquoted(rest[1..])) == (unquoted + [ch]) + Unquoted(rest[1..]);
        unquoted := unquoted + [ch];
        rest := rest[1..];
      } else {
        var phrase, after := ReadQuoted(rest[1..]);
        var tokens := TokensForText(phrase);
        if tokens != [] {
          assert phrases + ([tokens] + Phrases(after)) == (phrases + [tokens]) + Phrases(after);
          phrases := phrases + [tokens];
        }
        assert unquoted + ([32] + Unquoted(after)) == (unquoted + [32]) + Unquoted(after);
        unquoted := unquoted + [32];
        rest := after;
      }
    }
    assert unquoted + Unquoted([]) == unquoted && phrases + Phrases([]) == phrases;
    var terms := TokensForText(unquoted);
    query := SearchQuery(Dedup(terms), phrases);
  }

  predicate ValidQuery(query: SearchQuery) {
    && (forall t :: t in query.terms ==> IsToken(t))
    && (forall p :: p in query.phrases ==> p != [] && forall t :: t in p ==> IsToken(t))
  }

  lemma {:induction false} PhrasesValid(text: ByteString)
    ensures forall p :: p in Phrases(text) ==> p != [] && forall t :: t in p ==> IsToken(t)
    decreases |text|
  {
    if text != [] {
      if text[0] != 34 {
        PhrasesValid(text[1..]);
      } else {
        var (inside, rest) := Quoted(text[1..]);
        TokensAreTokens(inside);
        PhrasesValid(rest);
      }
    }
  }

  lemma {:induction false} DedupKeepsMembers(terms: seq<ByteString>)
    ensures forall t :: t in Dedup(terms) <==> t in terms
    ensures forall i, j :: 0 <= i < j < |Dedup(terms)| ==> Dedup(terms)[i] != Dedup(terms)[j]
  {
    if terms != [] {
      var n := |terms| - 1;
      DedupKeepsMembers(terms[..n]);
      assert terms == terms[..n] + [terms[n]];
    }
  }

  /** Parsed queries hold only tokens the index can contain, and no empty phrase. */
  lemma {:induction false} ParsedQueriesValid(text: ByteString)
    ensures ValidQuery(ParseQuery(text))
  {
    TokensAreTokens(Unquoted(text));
    DedupKeepsMembers(TokensOf(Unquoted(text)));
    PhrasesValid(text);
  }
}
