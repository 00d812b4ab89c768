/** The string keys under which object reads are cached, and why no two reads share one (crates/kevindb-server/src/cache.rs). */
module CacheKeys {
  import opened Wrappers
  import opened ObjectStore

  function Digit(n: nat): char
    requires n < 10
  {
    "0123456789"[n]
  }

  function Decimal(n: nat): string {
    if n < 10 then [Digit(n)] else Decimal(n / 10) + [Digit(n % 10)]
  }

  predicate IsDigit(c: char) {
    '0' <= c <= '9'
  }

  lemma {:induction false} DigitInjective(a: nat, b: nat)
    requires a < 10 && b < 10
    ensures IsDigit(Digit(a)) && (Digit(a) == Digit(b) <==> a == b)
  {
  }

  lemma {:induction false} DecimalDigits(n: nat)
    ensures Decimal(n) != [] && forall i :: 0 <= i < |Decimal(n)| ==> IsDigit(Decimal(n)[i])
  {
    if n >= 10 {
      DecimalDigits(n / 10);
    }
    DigitInjective(n % 10, 0);
  }

  lemma {:induction false} DecimalInjective(a: nat, b: nat)
    requires Decimal(a) == Decimal(b)
    ensures a == b
    decreases a
  {
    DecimalDigits(a / 10);
    DecimalDigits(b / 10);
    DigitInjective(a % 10, b % 10);
    var x, y := Decimal(a), Decimal(b);
    assert x[|x| - 1] == Digit(a % 10) && y[|y| - 1] == Digit(b % 10);
    if a >= 10 && b >= 10 {
      assert x[..|x| - 1] == Decimal(a / 10) && y[..|y| - 1] == Decimal(b / 10);
      DecimalInjective(a / 10, b / 10);
    }
  }

  /** Strings cut at a separator that the parts before it do not contain. */
  lemma {:induction false} CutUnique(a: string, b: string, c: string, d: string, sep: char)
    requires sep !in a && sep !in c && a + [sep] + b == c + [sep] + d
    ensures a == c && b == d
  {
    var s := a + [sep] + b;
    assert s[|a|] == sep && s[|c|] == sep;
    if |a| == |c| {
      assert s[..|a|] == a && s[..|c|] == c;
      assert s[|a| + 1..] == b && s[|c| + 1..] == d;
    }
  }

  /** Strings cut at a separator that the parts after it do not contain. */
  lemma {:induction false} CutLastUnique(a: string, b: string, c: string, d: string, sep: char)
    requires sep !in b && sep !in d && a + [sep] + b == c + [sep] + d
    ensures a == c && b == d
  {
    var s := a + [sep] + b;
    assert s[|a|] == sep && s[|c|] == sep;
    if |a| == |c| {
      assert s[..|a|] == a && s[..|c|] == c;
      assert s[|a| + 1..] == b && s[|c| + 1..] == d;
    }
  }

  function Tail(range: Option<GetRange>): string {
    match range
    case None => "all"
    case Some(Bounded(start, end)) => "bytes=" + (Decimal(start) + "-" + Decimal(end))
    case Some(Offset(offset)) => "offset=" + Decimal(offset)
    case Some(Suffix(length)) => "suffix=" + Decimal(length)
  }

  /** `cache_key`. */
  function CacheKey(path: Path, range: Option<GetRange>): string {
    "get:" + (path + [':'] + Tail(range))
  }

  lemma {:induction false} NoColon(range: Option<GetRange>)
    ensures ':' !in Tail(range)
  {
    match range
    case None =>
    case Some(Bounded(start, end)) =>
      DecimalDigits(start);
      DecimalDigits(end);
    case Some(Offset(offset)) => DecimalDigits(offset);
    case Some(Suffix(length)) => DecimalDigits(length);
  }

  lemma {:induction false} NoDash(n: nat)
    ensures '-' !in Decimal(n)
  {
    DecimalDigits(n);
  }

  lemma {:induction false} TailStarts(range: Option<GetRange>)
    ensures |Tail(range)| >= 1
    ensures Tail(range)[0] == match range case None => 'a' case Some(Bounded(_, _)) => 'b' case Some(Offset(_)) => 'o' case Some(Suffix(_)) => 's'
  {
  }

  lemma {:induction false} TailInjective(a: Option<GetRange>, b: Option<GetRange>)
    requires Tail(a) == Tail(b)
    ensures a == b
  {
    TailStarts(a);
    TailStarts(b);
    match a
    case None =>
    case Some(Bounded(start, end)) =>
      var other := b.value;
      NoDash(start);
      NoDash(other.start);
      assert Tail(a)[6..] == Decimal(start) + "-" + Decimal(end) && Tail(b)[6..] == Decimal(other.start) + "-" + Decimal(other.end);
      CutUnique(Decimal(start), Decimal(end), Decimal(other.start), Decimal(other.end), '-');
      DecimalInjective(start, other.start);
      DecimalInjective(end, other.end);
    case Some(Offset(offset)) =>
      assert Tail(a)[7..] == Decimal(offset) && Tail(b)[7..] == Decimal(b.value.offset);
      DecimalInjective(offset, b.value.offset);
    case Some(Suffix(length)) =>
      assert Tail(a)[7..] == Decimal(length) && Tail(b)[7..] == Decimal(b.value.length);
      DecimalInjective(length, b.value.length);
  }

  /** Keys are injective in path and range, colons in paths or not. */
  lemma {:induction false} CacheKeyInjective(path: Path, range: Option<GetRange>, otherPath: Path, otherRange: Option<GetRange>)
    requires CacheKey(path, range) == CacheKey(otherPath, otherRange)
    ensures path == otherPath && range == otherRange
  {
    NoColon(range);
    NoColon(otherRange);
    assert CacheKey(path, range)[4..] == path + [':'] + Tail(range);
    assert CacheKey(otherPath, otherRange)[4..] == otherPath + [':'] + Tail(otherRange);
    hide Tail;
    CutLastUnique(path, Tail(range), otherPath, Tail(otherRange), ':');
    TailInjective(range, otherRange);
  }
}
