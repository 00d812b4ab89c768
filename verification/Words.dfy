/**
 What the words and phrases of a text are, read off the text alone; tokenising is shown to
 find exactly these (src/search/predicate.rs).
 */
module Words {
  import opened Bytes
  import opened SearchPredicates

  // ---- words ----

  predicate Between(b: Byte, low: char, high: char) {
    low as int <= b <= high as int
  }

  predicate WordByte(b: Byte) {
    Between(b, '0', '9') || Between(b, 'a', 'z') || Between(b, 'A', 'Z')
  }

  /** `text[i..j]` is a run of ASCII letters and digits that cannot be made longer. */
  predicate WordAt(text: ByteString, i: nat, j: nat) {
    && i < j <= |text| && (forall k :: i <= k < j ==> WordByte(text[k]))
    && (i > 0 ==> !WordByte(text[i - 1])) && (j < |text| ==> !WordByte(text[j]))
  }

  /** The token is the word in lower case, at most 64 bytes of it. */
  predicate Spells(text: ByteString, i: nat, j: nat, token: ByteString)
    requires i <= j <= |text|
  {
    && |token| == (if j - i < 64 then j - i else 64)
    && forall k :: 0 <= k < |token| ==>
         token[k] == if Between(text[i + k], 'A', 'Z') then text[i + k] + ('a' as int - 'A' as int) else text[i + k]
  }

  /** The words no index holds, by length. */
  predicate CommonWord(token: ByteString) {
    match |token|
    case 1 => token == Ascii("a")
    case 2 => token in {Ascii("an"), Ascii("as"), Ascii("at"), Ascii("be"), Ascii("by"), Ascii("in"),
                        Ascii("is"), Ascii("it"), Ascii("of"), Ascii("on"), Ascii("or"), Ascii("to")}
    case 3 => token in {Ascii("and"), Ascii("are"), Ascii("for"), Ascii("the")}
    case 4 => token in {Ascii("from"), Ascii("with")}
    case _ => false
  }

  predicate TokenAt(text: ByteString, i: nat, j: nat, token: ByteString) {
    WordAt(text, i, j) && Spells(text, i, j, token) && |token| >= 2 && !CommonWord(token)
  }

  /** An indexed word starts at `i`. */
  ghost predicate TokenStart(text: ByteString, i: nat, token: ByteString) {
    exists j: nat :: TokenAt(text, i, j, token)
  }

  ghost predicate HasToken(text: ByteString, token: ByteString) {
    exists i: nat :: TokenStart(text, i, token)
  }

  /** These are all the indexed words of the text, in order, with their places. */
  ghost predicate Tokenized(text: ByteString, tokens: seq<ByteString>, starts: seq<nat>) {
    StartAt(text, tokens, starts) && Ascends(starts) && Complete(text, starts)
  }

  ghost predicate StartAt(text: ByteString, tokens: seq<ByteString>, starts: seq<nat>) {
    |starts| == |tokens| && forall k :: 0 <= k < |tokens| ==> TokenStart(text, starts[k], tokens[k])
  }

  ghost predicate Ascends(starts: seq<nat>) {
    forall k, l :: 0 <= k < l < |starts| ==> starts[k] < starts[l]
  }

  /** Every indexed word starts at one of the places. */
  ghost predicate Complete(text: ByteString, starts: seq<nat>) {
    forall i: nat, token :: TokenStart(text, i, token) ==> Listed(starts, i)
  }

  ghost predicate Listed(starts: seq<nat>, i: nat) {
    exists k :: 0 <= k < |starts| && starts[k] == i
  }

  lemma {:induction false} StopWordsByLength(token: ByteString)
    ensures IsStopWord(token) <==> CommonWord(token)
  {
    assert |Ascii("a")| == 1;
    assert |Ascii("an")| == |Ascii("as")| == |Ascii("at")| == |Ascii("be")| == |Ascii("by")| == |Ascii("in")| == 2;
    assert |Ascii("is")| == |Ascii("it")| == |Ascii("of")| == |Ascii("on")| == |Ascii("or")| == |Ascii("to")| == 2;
    assert |Ascii("and")| == |Ascii("are")| == |Ascii("for")| == |Ascii("the")| == 3;
    assert |Ascii("from")| == |Ascii("with")| == 4;
    hide Ascii;
  }

  lemma {:induction false} WordEnd(text: ByteString, i: nat, j: nat, k: nat)
    requires WordAt(text, i, j) && WordAt(text, i, k)
    ensures j == k
  {
  }

  lemma {:induction false} OneToken(text: ByteString, i: nat, a: ByteString, b: ByteString)
    requires TokenStart(text, i, a) && TokenStart(text, i, b)
    ensures a == b
  {
    hide CommonWord;
    var j: nat :| TokenAt(text, i, j, a);
    var k: nat :| TokenAt(text, i, k, b);
    WordEnd(text, i, j, k);
  }

  /** Cutting at a place inside no word moves the words behind it, and nothing else. */
  lemma {:induction false} StartBehind(text: ByteString, n: nat, i: nat, token: ByteString)
    requires n <= |text| && (0 < n < |text| ==> !WordByte(text[n - 1]) || !WordByte(text[n]))
    ensures TokenStart(text[n..], i, token) <==> TokenStart(text, n + i, token)
  {
    var rest := text[n..];
    hide CommonWord, WordByte;
    if j: nat :| TokenAt(rest, i, j, token) {
      assert rest[i] == text[n + i] && (i > 0 ==> rest[i - 1] == text[n + i - 1]);
      assert forall k :: n + i <= k < n + j ==> text[k] == rest[k - n];
      assert TokenAt(text, n + i, n + j, token);
    }
    if TokenStart(text, n + i, token) {
      var at: nat := n + i;
      var j: nat :| TokenAt(text, at, j, token);
      assert forall k :: 0 <= k < |rest| ==> rest[k] == text[n + k];
      assert TokenAt(rest, i, j - n, token);
    }
  }

  lemma {:induction false} NoneInside(text: ByteString, n: nat, i: nat, token: ByteString)
    requires 0 < i < n <= |text| && forall k :: 0 <= k < n ==> WordByte(text[k])
    ensures !TokenStart(text, i, token)
  {
  }

  /** The first run, if it is worth indexing, is the token at the front. */
  lemma {:induction false} FrontRun(text: ByteString)
    requires RunLength(text) > 0
    ensures var n, token := RunLength(text), RunToken(text[..RunLength(text)]);
      && (Kept(token) ==> TokenStart(text, 0, token))
      && (forall t :: TokenStart(text, 0, t) ==> Kept(token) && t == token)
      && (forall k :: 0 <= k < n ==> WordByte(text[k])) && (n < |text| ==> !WordByte(text[n]))
  {
    var n := RunLength(text);
    var token := RunToken(text[..n]);
    RunIsAlphanumeric(text);
    StopWordsByLength(token);
    hide IsStopWord, CommonWord;
    assert WordAt(text, 0, n) && Spells(text, 0, n, token);
    assert Kept(token) ==> TokenAt(text, 0, n, token);
    forall t | TokenStart(text, 0, t)
      ensures Kept(token) && t == token
    {
      var j: nat :| TokenAt(text, 0, j, t);
      WordEnd(text, 0, j, n);
      assert t == token;
    }
  }

  lemma {:induction false} NoFrontRun(text: ByteString, i: nat, token: ByteString)
    requires text != [] && RunLength(text) == 0 && TokenStart(text, i, token)
    ensures i > 0
  {
  }

  function Shifted(starts: seq<nat>, n: nat): seq<nat> {
    seq(|starts|, k requires 0 <= k < |starts| => n + starts[k])
  }

  /** The tokens are the indexed words of the text, all of them, in order. */
  lemma {:induction false} TokensAreWords(text: ByteString) returns (starts: seq<nat>)
    ensures Tokenized(text, TokensOf(text), starts)
    decreases |text|
  {
    if text == [] {
      starts := [];
    } else {
      var n := if RunLength(text) == 0 then 1 else RunLength(text);
      var rest := TokensAreWords(text[n..]);
      var front := FrontTokens(text);
      TokensUnfold(text);
      starts := (if front == [] then [] else [0]) + Shifted(rest, n);
      hide *;
      CutOutside(text, n);
      FrontIsWord(text);
      StartsBehind(text, n, front, TokensOf(text[n..]), rest);
      ShiftedAscends(n, front != [], rest);
      CompleteBehind(text, n, front != [], rest);
      NowTokenized(text, starts);
    }
  }

  lemma {:induction false} NowTokenized(text: ByteString, starts: seq<nat>)
    requires StartAt(text, TokensOf(text), starts) && Ascends(starts) && Complete(text, starts)
    ensures Tokenized(text, TokensOf(text), starts)
  {
  }

  /** What the first run of the text, if there is one, becomes. */
  function FrontTokens(text: ByteString): seq<ByteString> {
    if RunLength(text) > 0 && Kept(RunToken(text[..RunLength(text)])) then [RunToken(text[..RunLength(text)])] else []
  }

  lemma {:induction false} TokensUnfold(text: ByteString)
    requires text != []
    ensures TokensOf(text) == FrontTokens(text) + TokensOf(text[if RunLength(text) == 0 then 1 else RunLength(text)..])
  {
    hide Kept, RunToken;
    assert [] + TokensOf(text[1..]) == TokensOf(text[1..]);
  }

  lemma {:induction false} FrontIsWord(text: ByteString)
    requires text != []
    ensures |FrontTokens(text)| <= 1
    ensures FrontTokens(text) != [] ==> TokenStart(text, 0, FrontTokens(text)[0])
    ensures forall i: nat, token :: TokenStart(text, i, token) && i < (if RunLength(text) == 0 then 1 else RunLength(text)) ==>
      i == 0 && FrontTokens(text) != []
  {
    hide Kept, RunToken, TokenStart, WordByte;
    var n := RunLength(text);
    if n > 0 {
      FrontRun(text);
    }
    forall i: nat, token | TokenStart(text, i, token) && i < (if n == 0 then 1 else n)
      ensures i == 0 && FrontTokens(text) != []
    {
      FrontStart(text, if n == 0 then 1 else n, i, token);
    }
  }

  lemma {:induction false} StartsBehind(text: ByteString, n: nat, front: seq<ByteString>, tokens: seq<ByteString>, rest: seq<nat>)
    requires n <= |text| && (0 < n < |text| ==> !WordByte(text[n - 1]) || !WordByte(text[n])) && |front| <= 1
    requires Tokenized(text[n..], tokens, rest) && (front != [] ==> TokenStart(text, 0, front[0]))
    ensures StartAt(text, front + tokens, (if front == [] then [] else [0]) + Shifted(rest, n))
  {
    hide TokenStart, WordByte, Ascends, Complete;
    forall k | 0 <= k < |tokens|
      ensures TokenStart(text, Shifted(rest, n)[k], tokens[k])
    {
      StartBehind(text, n, rest[k], tokens[k]);
    }
    StartsJoin(text, front, if front == [] then [] else [0], tokens, Shifted(rest, n));
  }

  lemma {:induction false} StartsJoin(text: ByteString, a: seq<ByteString>, x: seq<nat>, b: seq<ByteString>, y: seq<nat>)
    requires StartAt(text, a, x) && StartAt(text, b, y)
    ensures StartAt(text, a + b, x + y)
  {
    hide TokenStart;
  }

  lemma {:induction false} ShiftedAscends(n: nat, front: bool, rest: seq<nat>)
    requires n > 0 && Ascends(rest)
    ensures Ascends((if front then [0] else []) + Shifted(rest, n))
  {
  }

  lemma {:induction false} CompleteBehind(text: ByteString, n: nat, front: bool, rest: seq<nat>)
    requires n <= |text| && (0 < n < |text| ==> !WordByte(text[n - 1]) || !WordByte(text[n]))
    requires Complete(text[n..], rest)
    requires forall i: nat, token :: TokenStart(text, i, token) && i < n ==> i == 0 && front
    ensures Complete(text, (if front then [0] else []) + Shifted(rest, n))
  {
    var starts := (if front then [0] else []) + Shifted(rest, n);
    hide TokenStart, WordByte;
    forall i: nat, token | TokenStart(text, i, token)
      ensures Listed(starts, i)
    {
      if i >= n {
        StartBehind(text, n, i - n, token);
        var k :| 0 <= k < |rest| && rest[k] == i - n;
        assert starts[(if front then 1 else 0) + k] == i;
      } else {
        assert starts[0] == i;
      }
    }
  }

  lemma {:induction false} CutOutside(text: ByteString, n: nat)
    requires 0 < n <= |text| && n == (if RunLength(text) == 0 then 1 else RunLength(text))
    ensures 0 < n < |text| ==> !WordByte(text[n - 1]) || !WordByte(text[n])
  {
    RunIsAlphanumeric(text);
  }

  lemma {:induction false} FrontStart(text: ByteString, n: nat, i: nat, token: ByteString)
    requires i < n <= |text| && n == (if RunLength(text) == 0 then 1 else RunLength(text)) && TokenStart(text, i, token)
    requires RunLength(text) > 0 ==> forall k :: 0 <= k < n ==> WordByte(text[k])
    ensures i == 0 && RunLength(text) > 0
  {
    if RunLength(text) == 0 {
      NoFrontRun(text, i, token);
    } else if i > 0 {
      NoneInside(text, n, i, token);
    }
  }

  // ---- phrases ----

  /** The indexed words at these places follow one another with no other between them. */
  ghost predicate Following(text: ByteString, starts: seq<nat>, phrase: seq<ByteString>) {
    && |starts| == |phrase|
    && (forall k :: 0 <= k < |phrase| ==> TokenStart(text, starts[k], phrase[k]))
    && (forall k :: 0 < k < |phrase| ==> starts[k - 1] < starts[k] && NoStartWithin(text, starts[k - 1] + 1, starts[k]))
  }

  ghost predicate NoStartWithin(text: ByteString, lo: nat, hi: nat) {
    forall i: nat, token :: lo <= i < hi ==> !TokenStart(text, i, token)
  }

  /** The phrase stands in the text, with nothing but unindexed words between its words. */
  ghost predicate PhraseIn(text: ByteString, phrase: seq<ByteString>) {
    exists starts :: Following(text, starts, phrase)
  }

  /** The text starts with the phrase. */
  ghost predicate OpensWith(text: ByteString, phrase: seq<ByteString>) {
    exists starts: seq<nat> :: Following(text, starts, phrase) && (starts != [] ==> NoStartWithin(text, 0, starts[0]))
  }

  /** The text ends with the phrase. */
  ghost predicate ClosesWith(text: ByteString, phrase: seq<ByteString>) {
    exists starts: seq<nat> :: Following(text, starts, phrase)
      && (starts != [] ==> NoStartWithin(text, starts[|starts| - 1] + 1, |text|))
  }

  ghost predicate Within(tokens: seq<ByteString>, a: nat, phrase: seq<ByteString>) {
    a + |phrase| <= |tokens| && tokens[a..a + |phrase|] == phrase
  }

  ghost predicate InTokens(tokens: seq<ByteString>, phrase: seq<ByteString>) {
    exists a: nat :: Within(tokens, a, phrase)
  }

  lemma {:induction false} StartInText(text: ByteString, i: nat, token: ByteString)
    requires TokenStart(text, i, token)
    ensures i < |text|
  {
  }

  /** A word behind place `a`, with none between, has the next place. */
  lemma {:induction false} NextPlace(text: ByteString, tokens: seq<ByteString>, starts: seq<nat>, a: nat, i: nat, token: ByteString)
    requires Tokenized(text, tokens, starts) && a < |starts| && starts[a] < i
    requires TokenStart(text, i, token) && NoStartWithin(text, starts[a] + 1, i)
    ensures a + 1 < |starts| && starts[a + 1] == i && tokens[a + 1] == token
  {
    hide TokenStart;
    assert Listed(starts, i);
    var b :| 0 <= b < |starts| && starts[b] == i;
    assert b > a;
    assert TokenStart(text, starts[a + 1], tokens[a + 1]);
    assert starts[a + 1] <= starts[b];
    assert starts[a + 1] >= i;
    OneToken(text, i, token, tokens[b]);
  }

  /** Words that follow one another are neighbours in the list of tokens. */
  lemma {:induction false} Neighbours(text: ByteString, tokens: seq<ByteString>, starts: seq<nat>, places: seq<nat>, phrase: seq<ByteString>, a: nat, n: nat)
    requires Tokenized(text, tokens, starts) && Following(text, places, phrase) && n < |phrase|
    requires a < |starts| && starts[a] == places[0]
    ensures a + n < |starts| && starts[a + n] == places[n] && tokens[a + n] == phrase[n]
  {
    hide TokenStart, Complete, Ascends;
    if n == 0 {
      OneToken(text, places[0], tokens[a], phrase[0]);
    } else {
      Neighbours(text, tokens, starts, places, phrase, a, n - 1);
      NextPlace(text, tokens, starts, a + (n - 1), places[n], phrase[n]);
    }
  }

  lemma {:induction false} FollowersWithin(text: ByteString, tokens: seq<ByteString>, starts: seq<nat>, places: seq<nat>, phrase: seq<ByteString>) returns (a: nat)
    requires Tokenized(text, tokens, starts) && Following(text, places, phrase) && phrase != []
    ensures Within(tokens, a, phrase) && starts[a] == places[0] && starts[a + |phrase| - 1] == places[|phrase| - 1]
  {
    hide TokenStart;
    assert TokenStart(text, places[0], phrase[0]);
    assert Listed(starts, places[0]);
    a :| 0 <= a < |starts| && starts[a] == places[0];
    hide *;
    FollowingSize(text, places, phrase);
    TokenizedSize(text, tokens, starts);
    Neighbours(text, tokens, starts, places, phrase, a, |phrase| - 1);
    forall n | 0 <= n < |phrase|
      ensures tokens[a + n] == phrase[n]
    {
      Neighbours(text, tokens, starts, places, phrase, a, n);
    }
    assert tokens[a..a + |phrase|] == phrase;
    NowWithin(tokens, a, phrase);
  }

  lemma {:induction false} NowWithin(tokens: seq<ByteString>, a: nat, phrase: seq<ByteString>)
    requires a + |phrase| <= |tokens| && tokens[a..a + |phrase|] == phrase
    ensures Within(tokens, a, phrase)
  {
  }

  lemma {:induction false} FollowingSize(text: ByteString, places: seq<nat>, phrase: seq<ByteString>)
    requires Following(text, places, phrase)
    ensures |places| == |phrase|
  {
  }

  lemma {:induction false} TokenizedSize(text: ByteString, tokens: seq<ByteString>, starts: seq<nat>)
    requires Tokenized(text, tokens, starts)
    ensures |tokens| == |starts|
  {
  }

  lemma {:induction false} OutsideGap(starts: seq<nat>, k: nat, i: nat)
    requires Ascends(starts) && 0 < k < |starts| && starts[k - 1] < i < starts[k]
    ensures !Listed(starts, i)
  {
  }

  lemma {:induction false} NothingBefore(text: ByteString, tokens: seq<ByteString>, starts: seq<nat>, a: nat)
    requires StartAt(text, tokens, starts) && Ascends(starts) && a < |starts| && NoStartWithin(text, 0, starts[a])
    ensures a == 0
  {
    hide TokenStart;
    assert TokenStart(text, starts[0], tokens[0]);
  }

  /** Between two neighbouring places no word starts. */
  lemma {:induction false} NothingBetween(text: ByteString, tokens: seq<ByteString>, starts: seq<nat>, k: nat)
    requires Tokenized(text, tokens, starts) && 0 < k < |starts|
    ensures starts[k - 1] < starts[k] && NoStartWithin(text, starts[k - 1] + 1, starts[k])
  {
    hide TokenStart;
    forall i: nat, token | starts[k - 1] + 1 <= i < starts[k]
      ensures !TokenStart(text, i, token)
    {
      OutsideGap(starts, k, i);
    }
  }

  lemma {:induction false} NothingOutside(text: ByteString, tokens: seq<ByteString>, starts: seq<nat>)
    requires Tokenized(text, tokens, starts) && tokens != []
    ensures NoStartWithin(text, 0, starts[0]) && NoStartWithin(text, starts[|starts| - 1] + 1, |text|)
  {
    hide TokenStart;
    forall i: nat, token | TokenStart(text, i, token)
      ensures starts[0] <= i <= starts[|starts| - 1]
    {
      assert Listed(starts, i);
      var b :| 0 <= b < |starts| && starts[b] == i;
    }
  }

  /** And neighbours in the list follow one another in the text. */
  lemma {:induction false} NeighboursFollow(text: ByteString, tokens: seq<ByteString>, starts: seq<nat>, phrase: seq<ByteString>, a: nat)
    requires Tokenized(text, tokens, starts) && Within(tokens, a, phrase)
    ensures Following(text, starts[a..a + |phrase|], phrase)
  {
    hide TokenStart, Complete, Ascends, NoStartWithin;
    var places := starts[a..a + |phrase|];
    forall k | 0 <= k < |phrase|
      ensures TokenStart(text, places[k], phrase[k])
    {
      assert phrase[k] == tokens[a..a + |phrase|][k] == tokens[a + k];
    }
    forall k | 0 < k < |phrase|
      ensures places[k - 1] < places[k] && NoStartWithin(text, places[k - 1] + 1, places[k])
    {
      NothingBetween(text, tokens, starts, a + k);
    }
  }

  /** A phrase stands in the text exactly where its words are neighbours among the tokens. */
  lemma {:induction false} PhraseIsRun(text: ByteString, phrase: seq<ByteString>)
    requires phrase != []
    ensures PhraseIn(text, phrase) <==> InTokens(TokensOf(text), phrase)
  {
    var tokens := TokensOf(text);
    var starts := TokensAreWords(text);
    hide TokensOf, TokenStart, Following, Within;
    if PhraseIn(text, phrase) {
      var places :| Following(text, places, phrase);
      var a := FollowersWithin(text, tokens, starts, places, phrase);
    }
    if a: nat :| Within(tokens, a, phrase) {
      WithinSome(tokens, a, phrase);
      NeighboursFollow(text, tokens, starts, phrase, a);
      assert Following(text, starts[a..a + |phrase|], phrase);
    }
  }

  /** It opens the text exactly when the tokens start with it. */
  lemma {:induction false} PhraseOpens(text: ByteString, phrase: seq<ByteString>)
    requires phrase != []
    ensures OpensWith(text, phrase) <==> Within(TokensOf(text), 0, phrase)
  {
    var tokens := TokensOf(text);
    var starts := TokensAreWords(text);
    hide TokensOf, TokenStart, Following, Within, Complete;
    if OpensWith(text, phrase) {
      var places: seq<nat> :| Following(text, places, phrase) && (places != [] ==> NoStartWithin(text, 0, places[0]));
      var a := FollowersWithin(text, tokens, starts, places, phrase);
      FollowingSize(text, places, phrase);
      WithinSome(tokens, a, phrase);
      NothingBefore(text, tokens, starts, a);
    }
    if Within(tokens, 0, phrase) {
      NeighboursFollow(text, tokens, starts, phrase, 0);
      WithinSome(tokens, 0, phrase);
      NothingOutside(text, tokens, starts);
      FirstPlace(tokens, starts, phrase);
    }
  }

  lemma {:induction false} WithinSome(tokens: seq<ByteString>, a: nat, phrase: seq<ByteString>)
    requires Within(tokens, a, phrase) && phrase != []
    ensures tokens != [] && a + |phrase| <= |tokens|
  {
  }

  lemma {:induction false} FirstPlace(tokens: seq<ByteString>, starts: seq<nat>, phrase: seq<ByteString>)
    requires Within(tokens, 0, phrase) && phrase != [] && |starts| == |tokens|
    ensures starts[0..0 + |phrase|] != [] && starts[0..0 + |phrase|][0] == starts[0]
  {
  }

  /** It closes the text exactly when the tokens end with it. */
  lemma {:induction false} PhraseCloses(text: ByteString, phrase: seq<ByteString>)
    requires phrase != []
    ensures ClosesWith(text, phrase) <==> |phrase| <= |TokensOf(text)| && Within(TokensOf(text), |TokensOf(text)| - |phrase|, phrase)
  {
    var tokens := TokensOf(text);
    var starts := TokensAreWords(text);
    hide TokensOf, TokenStart, Following, Within, Complete;
    if ClosesWith(text, phrase) {
      var places: seq<nat> :| Following(text, places, phrase)
        && (places != [] ==> NoStartWithin(text, places[|places| - 1] + 1, |text|));
      var a := FollowersWithin(text, tokens, starts, places, phrase);
      FollowingSize(text, places, phrase);
      WithinSome(tokens, a, phrase);
      var end := a + |phrase|;
      if end < |tokens| {
        assert starts[end - 1] < starts[end] && TokenStart(text, starts[end], tokens[end]);
        StartInText(text, starts[end], tokens[end]);
      }
    }
    if |phrase| <= |tokens| && Within(tokens, |tokens| - |phrase|, phrase) {
      var a := |tokens| - |phrase|;
      NeighboursFollow(text, tokens, starts, phrase, a);
      NothingOutside(text, tokens, starts);
      assert starts[a..a + |phrase|][|phrase| - 1] == starts[|starts| - 1];
    }
  }

  lemma {:induction false} TokenIsMember(text: ByteString, token: ByteString)
    ensures HasToken(text, token) <==> token in TokensOf(text)
  {
    var tokens := TokensOf(text);
    var starts := TokensAreWords(text);
    hide TokensOf, TokenStart;
    if i: nat :| TokenStart(text, i, token) {
      assert Listed(starts, i);
      var b :| 0 <= b < |starts| && starts[b] == i;
      OneToken(text, i, token, tokens[b]);
    }
    if token in tokens {
      var k :| 0 <= k < |tokens| && tokens[k] == token;
      assert TokenStart(text, starts[k], tokens[k]);
    }
  }

  /** The phrase is all the indexed words of the text. */
  ghost predicate Spelled(text: ByteString, phrase: seq<ByteString>) {
    exists starts: seq<nat> :: Tokenized(text, phrase, starts)
  }

  lemma {:induction false} SpelledIsTokens(text: ByteString, phrase: seq<ByteString>)
    requires phrase != []
    ensures Spelled(text, phrase) <==> phrase == TokensOf(text)
  {
    var tokens := TokensOf(text);
    var starts := TokensAreWords(text);
    hide TokensOf, TokenStart, Following, Within;
    if Spelled(text, phrase) {
      var places: seq<nat> :| Tokenized(text, phrase, places);
      SameTokens(text, tokens, starts, phrase, places);
    }
  }

  lemma {:induction false} SameTokens(text: ByteString, tokens: seq<ByteString>, starts: seq<nat>, phrase: seq<ByteString>, places: seq<nat>)
    requires Tokenized(text, tokens, starts) && Tokenized(text, phrase, places) && phrase != []
    ensures tokens == phrase
  {
    hide TokenStart, Within, Complete;
    TokenizedSize(text, phrase, places);
    assert phrase[0..0 + |phrase|] == phrase && places[0..0 + |phrase|] == places;
    NowWithin(phrase, 0, phrase);
    NeighboursFollow(text, phrase, places, phrase, 0);
    NothingOutside(text, phrase, places);
    var a := FollowersWithin(text, tokens, starts, places, phrase);
    WithinSome(tokens, a, phrase);
    NothingBefore(text, tokens, starts, a);
    NothingAfter(text, tokens, starts, |phrase|);
    WholeWithin(tokens, phrase);
  }

  lemma {:induction false} NothingAfter(text: ByteString, tokens: seq<ByteString>, starts: seq<nat>, n: nat)
    requires StartAt(text, tokens, starts) && Ascends(starts) && 0 < n <= |starts|
    requires NoStartWithin(text, starts[n - 1] + 1, |text|)
    ensures n == |starts|
  {
    if n < |starts| {
      assert TokenStart(text, starts[n], tokens[n]);
      StartInText(text, starts[n], tokens[n]);
    }
  }

  lemma {:induction false} WholeWithin(tokens: seq<ByteString>, phrase: seq<ByteString>)
    requires Within(tokens, 0, phrase) && |phrase| == |tokens|
    ensures tokens == phrase
  {
    assert tokens[0..0 + |phrase|] == tokens;
  }
}
