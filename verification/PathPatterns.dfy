/**
 What a key pattern with wildcards means, and which paths the search's greedy matching
 accepts (src/search/mod.rs).
 */
module PathPatterns {
  import opened Wrappers
  import opened Bytes
  import opened SearchEvaluation

  predicate Wild(b: Byte) {
    b == '*' as int || b == '%' as int
  }

  /** The path spells the pattern, each wildcard standing for any bytes. */
  ghost predicate Glob(pattern: ByteString, path: ByteString)
    decreases |pattern|
  {
    if pattern == [] then path == []
    else if Wild(pattern[0]) then exists n: nat :: n <= |path| && Glob(pattern[1..], path[n..])
    else path != [] && path[0] == pattern[0] && Glob(pattern[1..], path[1..])
  }

  predicate EndsWild(pattern: ByteString) {
    pattern != [] && Wild(pattern[|pattern| - 1])
  }

  /** What the search accepts: a path that spells the pattern and, unless that ends with a wildcard, of which no shorter front does. */
  ghost predicate KeyHit(pattern: ByteString, path: ByteString) {
    Glob(pattern, path) && (EndsWild(pattern) || forall n: nat :: n < |path| ==> !Glob(pattern, path[..n]))
  }

  // ---- patterns as parts between wildcards ----

  predicate StandsAt(text: ByteString, part: ByteString, n: nat) {
    n + |part| <= |text| && text[n..n + |part|] == part
  }

  /** The parts stand between `lo` and `hi` one after the other, each behind a gap, and end at `hi`. */
  ghost predicate Chain(parts: seq<ByteString>, text: ByteString, lo: nat, hi: nat)
    decreases |parts|
  {
    if parts == [] then lo == hi
    else exists n: nat :: lo <= n && n + |parts[0]| <= hi && StandsAt(text, parts[0], n) && Chain(parts[1..], text, n + |parts[0]|, hi)
  }

  predicate OneStar(pattern: ByteString) {
    '%' as int !in pattern
  }

  lemma {:induction false} NormalGlob(pattern: ByteString, path: ByteString)
    ensures Glob(pattern, path) <==> Glob(NormalizePattern(pattern), path)
    decreases |pattern|
  {
    if pattern != [] {
      var normal := NormalizePattern(pattern);
      assert normal[1..] == NormalizePattern(pattern[1..]);
      if Wild(pattern[0]) {
        forall n: nat | n <= |path|
          ensures Glob(pattern[1..], path[n..]) <==> Glob(normal[1..], path[n..])
        {
          NormalGlob(pattern[1..], path[n..]);
        }
      } else if path != [] {
        NormalGlob(pattern[1..], path[1..]);
      }
    }
  }

  lemma {:induction false} PartsSome(pattern: ByteString)
    ensures SplitAtStars(pattern) != []
  {
  }

  /** The stretch of the path between `lo` and `hi` starts with the first part and has the others behind it. */
  ghost predicate PartsMatch(parts: seq<ByteString>, path: ByteString, lo: nat, hi: nat)
    requires parts != []
  {
    lo + |parts[0]| <= hi && StandsAt(path, parts[0], lo) && Chain(parts[1..], path, lo + |parts[0]|, hi)
  }

  lemma {:induction false} GapFirst(rest: seq<ByteString>, path: ByteString, lo: nat, hi: nat)
    requires rest != [] && lo <= hi <= |path|
    ensures PartsMatch([[]] + rest, path, lo, hi) <==> exists n: nat :: lo <= n <= hi && PartsMatch(rest, path, n, hi)
  {
    var parts := [[]] + rest;
    assert parts[1..] == rest && StandsAt(path, [], lo);
    hide StandsAt;
    assert PartsMatch(parts, path, lo, hi) <==> Chain(rest, path, lo, hi);
    if Chain(rest, path, lo, hi) {
      var n: nat :| lo <= n && n + |rest[0]| <= hi && StandsAt(path, rest[0], n) && Chain(rest[1..], path, n + |rest[0]|, hi);
      assert PartsMatch(rest, path, n, hi);
    }
    if n: nat :| lo <= n <= hi && PartsMatch(rest, path, n, hi) {
      assert StandsAt(path, rest[0], n);
    }
  }

  lemma {:induction false} LetterFirst(byte: Byte, rest: seq<ByteString>, path: ByteString, lo: nat, hi: nat)
    requires rest != [] && lo <= hi <= |path|
    ensures PartsMatch([[byte] + rest[0]] + rest[1..], path, lo, hi) <==>
            lo < hi && path[lo] == byte && PartsMatch(rest, path, lo + 1, hi)
  {
    var first := [byte] + rest[0];
    assert ([first] + rest[1..])[1..] == rest[1..];
    hide Chain;
    if lo < hi && lo + |first| <= |path| {
      assert path[lo..lo + |first|] == [path[lo]] + path[lo + 1..lo + |first|];
    }
  }

  /** Spelling a pattern is starting with its first part and having the others behind it. */
  lemma {:induction false} GlobParts(pattern: ByteString, path: ByteString, lo: nat, hi: nat)
    requires OneStar(pattern) && lo <= hi <= |path|
    ensures SplitAtStars(pattern) != [] && (Glob(pattern, path[lo..hi]) <==> PartsMatch(SplitAtStars(pattern), path, lo, hi))
    decreases |pattern|
  {
    var text := path[lo..hi];
    if pattern == [] {
      assert StandsAt(path, [], lo);
    } else {
      var rest := SplitAtStars(pattern[1..]);
      PartsSome(pattern[1..]);
      hide PartsMatch;
      if pattern[0] == STAR {
        GapFirst(rest, path, lo, hi);
        forall n: nat | n <= |text|
          ensures Glob(pattern[1..], text[n..]) <==> PartsMatch(rest, path, lo + n, hi)
        {
          GlobParts(pattern[1..], path, lo + n, hi);
          assert text[n..] == path[lo + n..hi];
        }
        StarUnfolds(pattern, path, rest, lo, hi);
      } else {
        LetterFirst(pattern[0], rest, path, lo, hi);
        if lo < hi {
          GlobParts(pattern[1..], path, lo + 1, hi);
          assert text[1..] == path[lo + 1..hi];
        }
      }
    }
  }

  lemma {:induction false} StarUnfolds(pattern: ByteString, path: ByteString, rest: seq<ByteString>, lo: nat, hi: nat)
    requires pattern != [] && Wild(pattern[0]) && lo <= hi <= |path| && rest != []
    requires forall n: nat :: n <= hi - lo ==> (Glob(pattern[1..], path[lo..hi][n..]) <==> PartsMatch(rest, path, lo + n, hi))
    ensures Glob(pattern, path[lo..hi]) <==> exists n: nat :: lo <= n <= hi && PartsMatch(rest, path, n, hi)
  {
    hide PartsMatch;
    if n: nat :| lo <= n <= hi && PartsMatch(rest, path, n, hi) {
      assert Glob(pattern[1..], path[lo..hi][n - lo..]);
    }
  }

  /** A gap takes any bytes before it. */
  lemma {:induction false} WiderGap(parts: seq<ByteString>, text: ByteString, lo: nat, k: nat, hi: nat)
    requires parts != [] && lo <= k && Chain(parts, text, k, hi)
    ensures Chain(parts, text, lo, hi)
  {
    hide StandsAt;
  }

  lemma {:induction false} ChainForward(parts: seq<ByteString>, text: ByteString, lo: nat, hi: nat)
    requires Chain(parts, text, lo, hi)
    ensures lo <= hi
    decreases |parts|
  {
    if parts != [] {
      var n: nat :| lo <= n && n + |parts[0]| <= hi && StandsAt(text, parts[0], n) && Chain(parts[1..], text, n + |parts[0]|, hi);
      ChainForward(parts[1..], text, n + |parts[0]|, hi);
    }
  }

  /** With an empty last part, more may follow. */
  lemma {:induction false} ChainExtends(parts: seq<ByteString>, text: ByteString, lo: nat, m: nat, hi: nat)
    requires parts != [] && parts[|parts| - 1] == [] && m <= hi <= |text| && Chain(parts, text, lo, m)
    ensures Chain(parts, text, lo, hi)
    decreases |parts|
  {
    var n: nat :| lo <= n && n + |parts[0]| <= m && StandsAt(text, parts[0], n) && Chain(parts[1..], text, n + |parts[0]|, m);
    if |parts| == 1 {
      assert StandsAt(text, parts[0], hi) && Chain(parts[1..], text, hi, hi);
    } else {
      hide StandsAt;
      ChainExtends(parts[1..], text, n + |parts[0]|, m, hi);
    }
  }

  // ---- greedy matching finds the shortest front ----

  ghost predicate Shortest(parts: seq<ByteString>, text: ByteString, lo: nat, hi: nat) {
    lo <= hi <= |text| && Chain(parts, text, lo, hi) && NoneEnds(parts, text, lo, hi)
  }

  /** The parts do not end anywhere before `hi`. */
  ghost predicate NoneEnds(parts: seq<ByteString>, text: ByteString, lo: nat, hi: nat) {
    forall m: nat :: m < hi ==> !Chain(parts, text, lo, m)
  }

  /** Where the first occurrence from `lo` on is. */
  ghost predicate FirstAt(text: ByteString, part: ByteString, lo: nat, i: nat) {
    lo <= i && StandsAt(text, part, i) && forall j: nat :: lo <= j < i ==> !StandsAt(text, part, j)
  }

  lemma {:induction false} AfterFirstIs(text: ByteString, part: ByteString, lo: nat) returns (i: nat)
    requires lo <= |text|
    ensures match AfterFirst(text[lo..], part)
            case None => forall j: nat :: lo <= j ==> !StandsAt(text, part, j)
            case Some(rest) => FirstAt(text, part, lo, i) && rest == text[i + |part|..]
    decreases |text| - lo
  {
    var here := text[lo..];
    assert part <= here <==> StandsAt(text, part, lo) by { FrontStands(text, part, lo); }
    if part <= here {
      i := lo;
      assert here[|part|..] == text[lo + |part|..];
    } else if here == [] {
      i := lo;
    } else {
      assert here[1..] == text[lo + 1..];
      i := AfterFirstIs(text, part, lo + 1);
    }
  }

  lemma {:induction false} FrontStands(text: ByteString, part: ByteString, lo: nat)
    requires lo <= |text|
    ensures part <= text[lo..] <==> StandsAt(text, part, lo)
  {
    if part <= text[lo..] {
      assert text[lo..][..|part|] == text[lo..lo + |part|];
    }
    if StandsAt(text, part, lo) {
      assert text[lo..] == text[lo..lo + |part|] + text[lo + |part|..];
    }
  }

  /** Skipping an empty part changes nothing about the shortest front. */
  lemma {:induction false} EmptyPart(parts: seq<ByteString>, text: ByteString, lo: nat, hi: nat)
    requires parts != [] && parts[0] == [] && lo <= |text|
    ensures Shortest(parts[1..], text, lo, hi) ==> Shortest(parts, text, lo, hi)
    ensures NoneEnds(parts[1..], text, lo, hi) && (parts[1..] == [] ==> hi <= lo) ==> NoneEnds(parts, text, lo, hi)
  {
    var rest := parts[1..];
    assert StandsAt(text, parts[0], lo);
    hide StandsAt;
    if Chain(rest, text, lo, hi) {
      assert Chain(rest, text, lo + |parts[0]|, hi);
    }
    forall m: nat | Chain(parts, text, lo, m)
      ensures if rest == [] then lo <= m else Chain(rest, text, lo, m)
    {
      var n: nat :| lo <= n && n + |parts[0]| <= m && StandsAt(text, parts[0], n) && Chain(rest, text, n + |parts[0]|, m);
      if rest != [] {
        WiderGap(rest, text, lo, n, m);
      }
    }
  }

  /** The parts end no earlier than the first occurrence of the first allows. */
  lemma {:induction false} LaterEnd(parts: seq<ByteString>, text: ByteString, lo: nat, i: nat, m: nat)
    requires parts != [] && FirstAt(text, parts[0], lo, i) && Chain(parts, text, lo, m)
    ensures var k := i + |parts[0]|; k <= m && (parts[1..] == [] || Chain(parts[1..], text, k, m))
  {
    var n: nat :| lo <= n && n + |parts[0]| <= m && StandsAt(text, parts[0], n) && Chain(parts[1..], text, n + |parts[0]|, m);
    hide StandsAt;
    assert i <= n;
    if parts[1..] != [] {
      WiderGap(parts[1..], text, i + |parts[0]|, n + |parts[0]|, m);
    }
  }

  lemma {:induction false} NoParts(text: ByteString, lo: nat)
    requires lo <= |text|
    ensures Shortest([], text, lo, lo)
  {
  }

  /** What greedy matching from `lo` on leaves is what the shortest front leaves. */
  ghost predicate Greedy(parts: seq<ByteString>, text: ByteString, lo: nat, found: Option<ByteString>) {
    match found
    case None => NoneEnds(parts, text, lo, |text| + 1) && parts != []
    case Some(rest) => |rest| <= |text| && Shortest(parts, text, lo, |text| - |rest|) && rest == text[|text| - |rest|..]
  }

  lemma {:induction false} GreedyFinds(text: ByteString, parts: seq<ByteString>, lo: nat)
    requires lo <= |text|
    ensures Greedy(parts, text, lo, MatchParts(text[lo..], parts, false))
    decreases |parts|
  {
    if parts == [] {
      NoParts(text, lo);
    } else if parts[0] == [] {
      GreedyFinds(text, parts[1..], lo);
      var found := MatchParts(text[lo..], parts[1..], false);
      hide Chain, Shortest, NoneEnds;
      EmptyPart(parts, text, lo, if found.Some? then |text| - |found.value| else |text| + 1);
    } else {
      var i := AfterFirstIs(text, parts[0], lo);
      if AfterFirst(text[lo..], parts[0]).None? {
        hide AfterFirst, StandsAt;
      } else {
        var k := i + |parts[0]|;
        assert k <= |text|;
        GreedyFinds(text, parts[1..], k);
        hide AfterFirst;
        assert MatchParts(text[lo..], parts, false) == MatchParts(text[k..], parts[1..], false);
        hide *;
        GreedyStep(text, parts, lo, i, MatchParts(text[k..], parts[1..], false));
      }
    }
  }

  lemma {:induction false} GreedyStep(text: ByteString, parts: seq<ByteString>, lo: nat, i: nat, found: Option<ByteString>)
    requires parts != [] && FirstAt(text, parts[0], lo, i) && i + |parts[0]| <= |text|
    requires Greedy(parts[1..], text, i + |parts[0]|, found)
    ensures Greedy(parts, text, lo, found)
  {
    var k := i + |parts[0]|;
    var end := if found.Some? then |text| - |found.value| else |text| + 1;
    assert found.Some? ==> Chain(parts, text, lo, end) by {
      assert lo <= i && StandsAt(text, parts[0], i);
    }
    hide StandsAt, FirstAt;
    if parts[1..] == [] {
      assert found.Some? ==> end == k;
    }
    forall m: nat | m < end
      ensures !Chain(parts, text, lo, m)
    {
      if Chain(parts, text, lo, m) {
        LaterEnd(parts, text, lo, i, m);
      }
    }
    if found.Some? {
      ChainForward(parts, text, lo, end);
    }
  }

  // ---- the search's test ----

  lemma {:induction false} LastPart(pattern: ByteString)
    ensures SplitAtStars(pattern) != [] && (STAR !in pattern ==> SplitAtStars(pattern) == [pattern])
    ensures STAR in pattern ==> |SplitAtStars(pattern)| > 1
    ensures pattern != [] && pattern[|pattern| - 1] == STAR ==> var parts := SplitAtStars(pattern); parts[|parts| - 1] == []
    ensures pattern != [] ==> (pattern[0] == STAR <==> SplitAtStars(pattern)[0] == [])
  {
    if pattern != [] {
      LastPart(pattern[1..]);
      assert pattern == [pattern[0]] + pattern[1..];
    }
  }

  /** The parts behind the first, matched from where that ends. */
  lemma {:induction false} MatchFromFirst(path: ByteString, pattern: ByteString)
    requires STAR in pattern
    ensures var parts := SplitAtStars(pattern);
      && parts != []
      && PathMatchesPattern(path, pattern)
         == (parts[0] <= path
             && match MatchParts(path[|parts[0]|..], parts[1..], false)
                case None => false
                case Some(rest) => pattern[|pattern| - 1] == STAR || rest == [])
  {
    LastPart(pattern);
    var parts := SplitAtStars(pattern);
    if parts[0] == [] {
      assert path[0..] == path;
    }
  }

  lemma {:induction false} GreedyExact(path: ByteString, pattern: ByteString)
    requires STAR in pattern && OneStar(pattern)
    ensures PathMatchesPattern(path, pattern) <==> KeyHit(pattern, path)
  {
    var parts := SplitAtStars(pattern);
    MatchFromFirst(path, pattern);
    LastPart(pattern);
    assert EndsWild(pattern) <==> pattern[|pattern| - 1] == STAR by { assert pattern[|pattern| - 1] in pattern; }
    FrontStands(path, parts[0], 0);
    assert path[0..] == path && path[0..|path|] == path;
    var first := |parts[0]|;
    forall m: nat | m <= |path|
      ensures Glob(pattern, path[..m]) <==> first <= m && StandsAt(path, parts[0], 0) && Chain(parts[1..], path, first, m)
    {
      GlobParts(pattern, path, 0, m);
      assert path[0..m] == path[..m];
    }
    assert path[..|path|] == path;
    if StandsAt(path, parts[0], 0) {
      GreedyFinds(path, parts[1..], first);
      var found := MatchParts(path[first..], parts[1..], false);
      hide Chain, MatchParts, Glob, StandsAt, PathMatchesPattern;
      if EndsWild(pattern) {
        EndsOpen(path, parts[1..], first, found);
      } else {
        WholeShortest(path, parts[1..], first, found);
        Fronts(pattern, path, parts[1..], first);
      }
    }
  }

  lemma {:induction false} EndsOpen(text: ByteString, parts: seq<ByteString>, lo: nat, found: Option<ByteString>)
    requires parts != [] && parts[|parts| - 1] == [] && Greedy(parts, text, lo, found)
    ensures found.Some? <==> Chain(parts, text, lo, |text|)
  {
    if found.Some? {
      ChainExtends(parts, text, lo, |text| - |found.value|, |text|);
    }
  }

  lemma {:induction false} WholeShortest(text: ByteString, parts: seq<ByteString>, lo: nat, found: Option<ByteString>)
    requires Greedy(parts, text, lo, found)
    ensures found == Some([]) <==> Chain(parts, text, lo, |text|) && NoneEnds(parts, text, lo, |text|)
  {
    hide Chain;
    if found.Some? && found.value != [] {
      assert Chain(parts, text, lo, |text| - |found.value|);
    }
  }

  lemma {:induction false} Fronts(pattern: ByteString, path: ByteString, others: seq<ByteString>, first: nat)
    requires forall m: nat :: m <= |path| ==> (Glob(pattern, path[..m]) <==> first <= m && Chain(others, path, first, m))
    ensures NoneEnds(others, path, first, |path|) <==> forall n: nat :: n < |path| ==> !Glob(pattern, path[..n])
  {
    hide Glob;
    forall m: nat | Chain(others, path, first, m)
      ensures first <= m
    {
      ChainForward(others, path, first, m);
    }
    hide Chain;
    if NoneEnds(others, path, first, |path|) {
      assert forall n: nat :: n < |path| ==> !Chain(others, path, first, n);
    }
    if forall n: nat :: n < |path| ==> !Glob(pattern, path[..n]) {
      forall m: nat | m < |path|
        ensures !Chain(others, path, first, m)
      {
        assert !Glob(pattern, path[..m]);
      }
    }
  }

  lemma {:induction false} PlainGlob(pattern: ByteString, path: ByteString)
    requires forall i :: 0 <= i < |pattern| ==> !Wild(pattern[i])
    ensures Glob(pattern, path) <==> path == pattern
    decreases |pattern|
  {
    if pattern != [] && path != [] {
      PlainGlob(pattern[1..], path[1..]);
      assert path == [path[0]] + path[1..] && pattern == [pattern[0]] + pattern[1..];
    }
  }

  lemma {:induction false} NormalForm(pattern: ByteString)
    ensures var normal := NormalizePattern(pattern);
      && OneStar(normal) && |normal| == |pattern|
      && (forall i :: 0 <= i < |pattern| ==> (normal[i] == STAR <==> Wild(pattern[i])) && (Wild(normal[i]) <==> Wild(pattern[i])))
  {
  }

  /** A pattern whose only wildcard is its last byte asks for a front. */
  lemma {:induction false} FrontGlob(pattern: ByteString, path: ByteString)
    requires OneStar(pattern) && TrailingWildcardPrefix(pattern).Some?
    ensures Glob(pattern, path) <==> TrailingWildcardPrefix(pattern).value <= path
  {
    var front := pattern[..|pattern| - 1];
    FrontParts(front);
    assert pattern == front + [STAR];
    GlobParts(pattern, path, 0, |path|);
    FrontStands(path, front, 0);
    assert path[0..|path|] == path && path[0..] == path;
    var parts: seq<ByteString> := [front, []];
    OpenEnd(path, |front|);
    assert parts[1..] == [[]];
  }

  lemma {:induction false} OpenEnd(text: ByteString, lo: nat)
    ensures lo <= |text| ==> Chain([[]], text, lo, |text|)
  {
    var parts: seq<ByteString> := [[]];
    if lo <= |text| {
      assert StandsAt(text, parts[0], |text|) && Chain(parts[1..], text, |text| + |parts[0]|, |text|);
    }
  }

  lemma {:induction false} FrontParts(front: ByteString)
    requires STAR !in front
    ensures SplitAtStars(front + [STAR]) == [front, []]
  {
    if front == [] {
      assert front + [STAR] == [STAR] && [STAR][1..] == [];
      assert SplitAtStars([STAR]) == [[]] + SplitAtStars([]);
    } else {
      FrontParts(front[1..]);
      assert (front + [STAR])[1..] == front[1..] + [STAR];
      assert [front[0]] + front[1..] == front;
      assert [front[1..], []][1..] == [[]];
    }
  }

  /** The search's test, for every pattern and path. */
  lemma {:induction false} LooksForKeyExact(path: ByteString, pattern: ByteString)
    ensures LooksForKey(path, pattern) <==> KeyHit(pattern, path)
  {
    var normal := NormalizePattern(pattern);
    NormalForm(pattern);
    NormalGlob(pattern, path);
    forall n: nat | n < |path|
      ensures Glob(pattern, path[..n]) <==> Glob(normal, path[..n])
    {
      NormalGlob(pattern, path[..n]);
    }
    hide Glob, NormalizePattern, PathMatchesPattern;
    assert EndsWild(pattern) <==> EndsWild(normal);
    assert KeyHit(pattern, path) <==> KeyHit(normal, path);
    if STAR !in normal {
      PlainGlob(normal, path);
      forall n: nat | n < |path|
        ensures path == normal ==> !Glob(normal, path[..n])
      {
        PlainGlob(normal, path[..n]);
      }
    } else if TrailingWildcardPrefix(normal).Some? {
      FrontGlob(normal, path);
    } else {
      GreedyExact(path, normal);
    }
  }

  // ---- when that is what the pattern means ----

  lemma {:induction false} SpelledOut(pattern: ByteString) returns (path: ByteString)
    ensures Glob(pattern, path)
    decreases |pattern|
  {
    if pattern == [] {
      path := [];
    } else {
      var rest := SpelledOut(pattern[1..]);
      if Wild(pattern[0]) {
        path := rest;
        assert path[0..] == path;
      } else {
        path := [pattern[0]] + rest;
        assert path[1..] == rest;
      }
    }
  }

  /** Behind the last wildcard, the tail may come twice. */
  lemma {:induction false} TailTwice(pattern: ByteString, path: ByteString, tail: ByteString)
    requires Glob(pattern, path) && (exists i :: 0 <= i < |pattern| && Wild(pattern[i])) && !EndsWild(pattern)
    requires tail == TailOf(pattern)
    ensures Glob(pattern, path + tail)
    decreases |pattern|
  {
    var rest := pattern[1..];
    if Wild(pattern[0]) {
      var n: nat :| n <= |path| && Glob(rest, path[n..]);
      if exists i :: 0 <= i < |rest| && Wild(rest[i]) {
        TailTwice(rest, path[n..], tail);
        assert (path + tail)[n..] == path[n..] + tail;
      } else {
        PlainGlob(rest, tail);
        assert (path + tail)[|path|..] == tail;
      }
    } else {
      assert exists i :: 0 <= i < |rest| && Wild(rest[i]) by {
        var i :| 0 <= i < |pattern| && Wild(pattern[i]);
        assert Wild(rest[i - 1]);
      }
      TailTwice(rest, path[1..], tail);
      assert (path + tail)[1..] == path[1..] + tail;
    }
  }

  /** What follows the last wildcard. */
  function TailOf(pattern: ByteString): ByteString {
    if pattern == [] then []
    else if exists i :: 0 <= i < |pattern[1..]| && Wild(pattern[1..][i]) then TailOf(pattern[1..])
    else if Wild(pattern[0]) then pattern[1..] else pattern
  }

  lemma {:induction false} TailSome(pattern: ByteString)
    requires pattern != [] && !EndsWild(pattern)
    ensures TailOf(pattern) != []
  {
    if exists i :: 0 <= i < |pattern[1..]| && Wild(pattern[1..][i]) {
      assert pattern[1..][|pattern[1..]| - 1] == pattern[|pattern| - 1];
      TailSome(pattern[1..]);
    }
  }

  /**
   The search accepts exactly the paths that spell the pattern if and only if the pattern
   has no wildcard or ends with one.  Any other pattern misses the paths on which it could
   have ended earlier, such as a.id.id for *.id.
   */
  lemma {:induction false} GreedyRightIff(pattern: ByteString)
    ensures (forall path :: LooksForKey(path, pattern) <==> Glob(pattern, path))
       <==> (forall i :: 0 <= i < |pattern| ==> !Wild(pattern[i])) || EndsWild(pattern)
  {
    if EndsWild(pattern) || forall i :: 0 <= i < |pattern| ==> !Wild(pattern[i]) {
      forall path
        ensures LooksForKey(path, pattern) <==> Glob(pattern, path)
      {
        LooksForKeyExact(path, pattern);
        ExactWithout(pattern, path);
      }
    } else {
      var path := SpelledOut(pattern);
      var tail := TailOf(pattern);
      TailSome(pattern);
      TailTwice(pattern, path, tail);
      LooksForKeyExact(path + tail, pattern);
      assert (path + tail)[..|path|] == path && |path| < |path + tail|;
    }
  }

  lemma {:induction false} ExactWithout(pattern: ByteString, path: ByteString)
    requires EndsWild(pattern) || forall i :: 0 <= i < |pattern| ==> !Wild(pattern[i])
    ensures KeyHit(pattern, path) <==> Glob(pattern, path)
  {
    if !EndsWild(pattern) {
      PlainGlob(pattern, path);
      forall n: nat | n < |path|
        ensures path == pattern ==> !Glob(pattern, path[..n])
      {
        PlainGlob(pattern, path[..n]);
      }
    }
  }
}
