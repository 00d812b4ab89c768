/**
 What a query text asks for, read off its quotes: query parsing is shown to find exactly
 this (src/search/predicate.rs).
 */
module QueryText {
  import opened Bytes
  import opened SearchPredicates
  import opened Words

  const QUOTE: Byte := '"' as int

  function QuotesBefore(text: ByteString, n: nat): nat
    requires n <= |text|
  {
    if n == 0 then 0 else QuotesBefore(text, n - 1) + if text[n - 1] == QUOTE then 1 else 0
  }

  /** An indexed word with an even number of quotes before it. */
  ghost predicate UnquotedWord(text: ByteString, token: ByteString) {
    exists i: nat :: i <= |text| && QuotesBefore(text, i) % 2 == 0 && TokenStart(text, i, token)
  }

  /** From an opening quote to the next, or to the end. */
  ghost predicate QuotedAt(text: ByteString, a: nat, b: nat) {
    && 0 < a <= b <= |text| && text[a - 1] == QUOTE && QuotesBefore(text, a) % 2 == 1
    && (forall k :: a <= k < b ==> text[k] != QUOTE) && (b < |text| ==> text[b] == QUOTE)
  }

  /** The indexed words of a quoted stretch, if there are any. */
  ghost predicate QuotedPhrase(text: ByteString, phrase: seq<ByteString>) {
    exists a: nat, b: nat :: QuotedAt(text, a, b) && phrase != [] && Spelled(text[a..b], phrase)
  }

  lemma {:induction false} QuotedSplit(text: ByteString)
    ensures var (inside, rest) := Quoted(text);
      && (forall k :: 0 <= k < |inside| ==> inside[k] != QUOTE)
      && (if QUOTE in text then text == inside + [QUOTE] + rest else text == inside && rest == [])
  {
    if text != [] && text[0] != QUOTE {
      QuotedSplit(text[1..]);
      assert text == [text[0]] + text[1..];
    }
  }

  lemma {:induction false} CountAppend(a: ByteString, b: ByteString, n: nat)
    requires n <= |b|
    ensures QuotesBefore(a + b, |a| + n) == QuotesBefore(a, |a|) + QuotesBefore(b, n)
  {
    if n > 0 {
      CountAppend(a, b, n - 1);
    } else {
      CountFront(a, b, |a|);
    }
  }

  lemma {:induction false} CountFront(a: ByteString, b: ByteString, n: nat)
    requires n <= |a|
    ensures QuotesBefore(a + b, n) == QuotesBefore(a, n)
  {
    if n > 0 {
      CountFront(a, b, n - 1);
    }
  }

  lemma {:induction false} CountNone(text: ByteString, n: nat)
    requires n <= |text| && forall k :: 0 <= k < n ==> text[k] != QUOTE
    ensures QuotesBefore(text, n) == 0
  {
    if n > 0 {
      CountNone(text, n - 1);
    }
  }

  /** Before a separator, words are those of the front. */
  lemma {:induction false} StartBefore(front: ByteString, sep: Byte, rest: ByteString, i: nat, token: ByteString)
    requires !WordByte(sep) && i <= |front|
    ensures TokenStart(front + [sep] + rest, i, token) <==> TokenStart(front, i, token)
  {
    var text := front + [sep] + rest;
    assert text[|front|] == sep && forall k :: 0 <= k < |front| ==> text[k] == front[k];
    hide CommonWord, WordByte;
    if j: nat :| TokenAt(text, i, j, token) {
      assert TokenAt(front, i, j, token);
    }
    if j: nat :| TokenAt(front, i, j, token) {
      assert TokenAt(text, i, j, token);
    }
  }

  lemma {:induction false} StartAfter(front: ByteString, sep: Byte, rest: ByteString, i: nat, token: ByteString)
    requires !WordByte(sep)
    ensures TokenStart(front + [sep] + rest, |front| + 1 + i, token) <==> TokenStart(rest, i, token)
  {
    var text := front + [sep] + rest;
    assert text[|front| + 1..] == rest;
    StartBehind(text, |front| + 1, i, token);
  }

  lemma {:induction false} SeparatedTokens(front: ByteString, sep: Byte, rest: ByteString, token: ByteString)
    requires !WordByte(sep)
    ensures HasToken(front + [sep] + rest, token) <==> HasToken(front, token) || HasToken(rest, token)
  {
    var text := front + [sep] + rest;
    hide TokenStart, WordByte;
    if i: nat :| TokenStart(text, i, token) {
      if i <= |front| {
        StartBefore(front, sep, rest, i, token);
      } else {
        StartAfter(front, sep, rest, i - |front| - 1, token);
      }
    }
    if i: nat :| TokenStart(front, i, token) {
      StartInText(front, i, token);
      StartBefore(front, sep, rest, i, token);
    }
    if i: nat :| TokenStart(rest, i, token) {
      StartAfter(front, sep, rest, i, token);
    }
  }

  lemma {:induction false} UnquotedFront(text: ByteString)
    ensures Unquoted(text) == if QUOTE in text then Quoted(text).0 + [32] + Unquoted(Quoted(Quoted(text).1).1) else text
    ensures Phrases(text) == if QUOTE in text then Phrases([QUOTE] + Quoted(text).1) else []
  {
    if text != [] && text[0] != QUOTE {
      UnquotedFront(text[1..]);
      assert text == [text[0]] + text[1..];
    } else if text != [] {
      assert text == [QUOTE] + text[1..];
      assert [] + [32] + Unquoted(Quoted(text[1..]).1) == [32] + Unquoted(Quoted(text[1..]).1);
    }
  }

  lemma {:induction false} PhrasesFront(tail: ByteString)
    ensures Phrases([QUOTE] + tail)
         == (if TokensOf(Quoted(tail).0) != [] then [TokensOf(Quoted(tail).0)] else []) + Phrases(Quoted(tail).1)
  {
    assert ([QUOTE] + tail)[1..] == tail;
    hide TokensOf, Quoted;
  }

  /** A text with a quote: what is before it, what is inside, and what follows the closing quote. */
  ghost predicate Parts(text: ByteString, front: ByteString, inside: ByteString, rest: ByteString, closed: bool) {
    && text == front + [QUOTE] + (if closed then inside + [QUOTE] + rest else inside)
    && (forall k :: 0 <= k < |front| ==> front[k] != QUOTE) && (forall k :: 0 <= k < |inside| ==> inside[k] != QUOTE)
    && (!closed ==> rest == [])
  }

  lemma {:induction false} PartsOf(text: ByteString) returns (closed: bool)
    requires QUOTE in text
    ensures var (front, tail) := Quoted(text); var (inside, rest) := Quoted(tail);
            Parts(text, front, inside, rest, closed)
  {
    var (front, tail) := Quoted(text);
    QuotedSplit(text);
    QuotedSplit(tail);
    closed := QUOTE in tail;
  }

  /** How many quotes stand before each place. */
  lemma {:induction false} PartsCount(text: ByteString, front: ByteString, inside: ByteString, rest: ByteString, closed: bool, i: nat)
    requires Parts(text, front, inside, rest, closed) && i <= |text|
    ensures i <= |front| ==> QuotesBefore(text, i) == 0
    ensures |front| < i <= |front| + 1 + |inside| ==> QuotesBefore(text, i) == 1
    ensures var h := |front| + 1 + |inside| + 1; closed && i >= h ==> QuotesBefore(text, i) == 2 + QuotesBefore(rest, i - h)
  {
    var tail := if closed then inside + [QUOTE] + rest else inside;
    CountNone(front, |front|);
    if i <= |front| {
      CountNone(text, i);
    } else {
      assert text == (front + [QUOTE]) + tail;
      CountAppend(front + [QUOTE], tail, i - |front| - 1);
      CountFront(front, [QUOTE], |front|);
      assert QuotesBefore(front + [QUOTE], |front| + 1) == 1;
      var n := i - |front| - 1;
      if n <= |inside| {
        CountNone(tail, n);
      } else {
        assert tail == (inside + [QUOTE]) + rest;
        CountAppend(inside + [QUOTE], rest, n - |inside| - 1);
        CountFront(inside, [QUOTE], |inside|);
        CountNone(inside, |inside|);
        assert QuotesBefore(inside + [QUOTE], |inside| + 1) == 1;
      }
    }
  }

  lemma {:induction false} QuoteIsNoWord()
    ensures !WordByte(QUOTE) && !WordByte(32)
  {
  }

  /** The unquoted words of a text with a quote. */
  lemma {:induction false} UnquotedParts(text: ByteString, front: ByteString, inside: ByteString, rest: ByteString, closed: bool, token: ByteString)
    requires Parts(text, front, inside, rest, closed)
    ensures UnquotedWord(text, token) <==> HasToken(front, token) || UnquotedWord(rest, token)
  {
    QuoteIsNoWord();
    hide TokenStart, WordByte, QuotesBefore;
    var tail := if closed then inside + [QUOTE] + rest else inside;
    var h := |front| + 1 + |inside| + 1;
    if i: nat :| i <= |text| && QuotesBefore(text, i) % 2 == 0 && TokenStart(text, i, token) {
      PartsCount(text, front, inside, rest, closed, i);
      if i <= |front| {
        StartBefore(front, QUOTE, tail, i, token);
      } else {
        assert closed && i >= h;
        BehindQuotes(front, inside, rest, i - h, token);
        assert QuotesBefore(rest, i - h) % 2 == 0;
      }
    }
    if i: nat :| TokenStart(front, i, token) {
      StartInText(front, i, token);
      StartBefore(front, QUOTE, tail, i, token);
      PartsCount(text, front, inside, rest, closed, i);
    }
    if i: nat :| i <= |rest| && QuotesBefore(rest, i) % 2 == 0 && TokenStart(rest, i, token) {
      StartInText(rest, i, token);
      BehindQuotes(front, inside, rest, i, token);
      PartsCount(text, front, inside, rest, closed, h + i);
    }
  }

  lemma {:induction false} BehindQuotes(front: ByteString, inside: ByteString, rest: ByteString, i: nat, token: ByteString)
    ensures TokenStart(front + [QUOTE] + (inside + [QUOTE] + rest), |front| + 1 + |inside| + 1 + i, token) <==> TokenStart(rest, i, token)
  {
    QuoteIsNoWord();
    hide TokenStart, WordByte;
    StartAfter(front, QUOTE, inside + [QUOTE] + rest, |inside| + 1 + i, token);
    StartAfter(inside, QUOTE, rest, i, token);
  }

  /** The quoted phrases of a text with a quote. */
  lemma {:induction false} QuotedParts(text: ByteString, front: ByteString, inside: ByteString, rest: ByteString, closed: bool, phrase: seq<ByteString>)
    requires Parts(text, front, inside, rest, closed)
    ensures QuotedPhrase(text, phrase) <==> (phrase != [] && Spelled(inside, phrase)) || QuotedPhrase(rest, phrase)
  {
    hide Spelled, QuotesBefore;
    var h := |front| + 1 + |inside| + 1;
    if a: nat, b: nat :| QuotedAt(text, a, b) && phrase != [] && Spelled(text[a..b], phrase) {
      PartsCount(text, front, inside, rest, closed, a);
      if a <= |front| + 1 + |inside| {
        FirstStretch(text, front, inside, rest, closed, a, b);
      } else {
        assert closed && a >= h;
        LaterStretch(text, front, inside, rest, a - h, b - h);
      }
    }
    if phrase != [] && Spelled(inside, phrase) {
      PartsCount(text, front, inside, rest, closed, |front| + 1);
      FirstIsStretch(text, front, inside, rest, closed);
    }
    if a: nat, b: nat :| QuotedAt(rest, a, b) && phrase != [] && Spelled(rest[a..b], phrase) {
      PartsCount(text, front, inside, rest, closed, h + a);
      LaterStretch(text, front, inside, rest, a, b);
    }
  }

  lemma {:induction false} FirstStretch(text: ByteString, front: ByteString, inside: ByteString, rest: ByteString, closed: bool, a: nat, b: nat)
    requires Parts(text, front, inside, rest, closed) && QuotedAt(text, a, b) && a <= |front| + 1 + |inside|
    ensures a == |front| + 1 && text[a..b] == inside
  {
    hide QuotesBefore;
    forall k | 0 <= k < |front| + 1 + |inside| && k != |front|
      ensures text[k] != QUOTE
    {
      assert text[k] == if k < |front| then front[k] else inside[k - |front| - 1];
    }
    assert a - 1 == |front|;
    var end := a + |inside|;
    assert forall k :: a <= k < end ==> text[k] == inside[k - a];
    assert closed ==> text[end] == QUOTE;
    assert b == end;
  }

  lemma {:induction false} FirstIsStretch(text: ByteString, front: ByteString, inside: ByteString, rest: ByteString, closed: bool)
    requires Parts(text, front, inside, rest, closed) && QuotesBefore(text, |front| + 1) == 1
    ensures var a := |front| + 1; QuotedAt(text, a, a + |inside|) && text[a..a + |inside|] == inside
  {
    hide QuotesBefore;
    var a := |front| + 1;
    assert forall k :: a <= k < a + |inside| ==> text[k] == inside[k - a];
    assert closed ==> text[a + |inside|] == QUOTE;
  }

  lemma {:induction false} LaterStretch(text: ByteString, front: ByteString, inside: ByteString, rest: ByteString, a: int, b: int)
    requires Parts(text, front, inside, rest, true) && 0 <= a <= b <= |rest|
    requires var h := |front| + 1 + |inside| + 1; QuotesBefore(text, h + a) == 2 + QuotesBefore(rest, a)
    ensures var h := |front| + 1 + |inside| + 1;
            (QuotedAt(text, h + a, h + b) <==> QuotedAt(rest, a, b)) && text[h + a..h + b] == rest[a..b]
  {
    hide QuotesBefore;
    var head := front + [QUOTE] + inside + [QUOTE];
    assert text == head + rest;
    if a == 0 {
      CountNone(rest, 0);
    }
    MovedStretch(head, rest, a, b);
  }

  lemma {:induction false} MovedStretch(head: ByteString, rest: ByteString, a: nat, b: nat)
    requires a <= b <= |rest| && head != [] && head[|head| - 1] == QUOTE
    requires QuotesBefore(head + rest, |head| + a) == 2 + QuotesBefore(rest, a) && (a == 0 ==> QuotesBefore(rest, a) == 0)
    ensures QuotedAt(head + rest, |head| + a, |head| + b) <==> QuotedAt(rest, a, b)
    ensures (head + rest)[|head| + a..|head| + b] == rest[a..b]
  {
    hide QuotesBefore;
    var text := head + rest;
    assert forall k :: 0 <= k < |rest| ==> text[|head| + k] == rest[k];
    if QuotedAt(text, |head| + a, |head| + b) {
      assert forall k :: a <= k < b ==> rest[k] == text[|head| + k];
    }
  }

  lemma {:induction false} NoQuotes(text: ByteString, token: ByteString, phrase: seq<ByteString>)
    requires QUOTE !in text
    ensures UnquotedWord(text, token) <==> HasToken(text, token)
    ensures !QuotedPhrase(text, phrase)
  {
    hide TokenStart, Spelled;
    forall i: nat | i <= |text|
      ensures QuotesBefore(text, i) == 0
    {
      CountNone(text, i);
    }
    if i: nat :| TokenStart(text, i, token) {
      StartInText(text, i, token);
    }
  }

  /** The terms of a query are the indexed words outside quotes; its phrases are the quoted stretches. */
  lemma {:induction false} QueryReads(text: ByteString, token: ByteString, phrase: seq<ByteString>)
    ensures HasToken(Unquoted(text), token) <==> UnquotedWord(text, token)
    ensures phrase in Phrases(text) <==> QuotedPhrase(text, phrase)
    decreases |text|
  {
    UnquotedFront(text);
    if QUOTE !in text {
      NoQuotes(text, token, phrase);
    } else {
      var (front, tail) := Quoted(text);
      var (inside, rest) := Quoted(tail);
      var closed := PartsOf(text);
      PhrasesFront(tail);
      assert |rest| < |text|;
      QuoteIsNoWord();
      hide *;
      QueryReads(rest, token, phrase);
      UnquotedParts(text, front, inside, rest, closed, token);
      SeparatedTokens(front, 32, Unquoted(rest), token);
      QuotedParts(text, front, inside, rest, closed, phrase);
      if phrase != [] {
        SpelledIsTokens(inside, phrase);
      }
      PhraseListed(inside, Phrases(rest), phrase);
      NoEmptyPhrase(rest);
    }
  }

  lemma {:induction false} PhraseListed(inside: ByteString, others: seq<seq<ByteString>>, phrase: seq<ByteString>)
    ensures phrase in (if TokensOf(inside) != [] then [TokensOf(inside)] else []) + others <==>
            (phrase != [] && phrase == TokensOf(inside)) || phrase in others
  {
    hide TokensOf;
  }

  lemma {:induction false} NoEmptyPhrase(text: ByteString)
    ensures [] !in Phrases(text)
  {
    PhrasesValid(text);
    hide IsToken;
  }

  lemma {:induction false} ParsedTerms(text: ByteString, token: ByteString)
    ensures token in ParseQuery(text).terms <==> UnquotedWord(text, token)
  {
    DedupKeepsMembers(TokensOf(Unquoted(text)));
    TokenIsMember(Unquoted(text), token);
    QueryReads(text, token, []);
    hide TokensOf, Unquoted, UnquotedWord, HasToken;
  }

  lemma {:induction false} ParsedPhrases(text: ByteString, phrase: seq<ByteString>)
    ensures phrase in ParseQuery(text).phrases <==> QuotedPhrase(text, phrase)
  {
    QueryReads(text, [], phrase);
    hide TokensOf, Unquoted, Phrases, QuotedPhrase;
  }
}
