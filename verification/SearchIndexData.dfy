/**
 The search index as data (src/search/mod.rs).  A row group's FST is modelled by what it
 maps: a sequence of terms, each standing for its own index (its ordinal).
 */
module SearchIndexData {
  import opened Wrappers
  import opened Bytes

  datatype TermInfo = TermInfo(docCount: U32, postingsOffset: U32, postingsLen: U32, positionsOffset: U32, positionsLen: U32)

  const NO_TERM: TermInfo := TermInfo(0, 0, 0, 0, 0)

  datatype RowGroup = RowGroup(
    minTerm: ByteString, maxTerm: ByteString, terms: seq<ByteString>, infos: seq<TermInfo>, postings: ByteString, positions: ByteString)

  datatype SearchIndex = SearchIndex(rowCount: U32, keyGroups: seq<RowGroup>, valueGroups: seq<RowGroup>)

  predicate StrictlyIncreasing(terms: seq<ByteString>) {
    forall i, j :: 0 <= i < j < |terms| ==> BytesLess(terms[i], terms[j])
  }

  // ---- dictionary keys ----

  function ValuePrefix(token: ByteString): ByteString {
    token + [0]
  }

  function ValueKey(token: ByteString, path: ByteString): ByteString {
    ValuePrefix(token) + path
  }

  function HexDigit(n: int): Byte
    requires 0 <= n < 16
  {
    if n < 10 then 48 + n else 87 + n
  }

  function Hex(value: ByteString): ByteString {
    if value == [] then [] else [HexDigit(value[0] / 16), HexDigit(value[0] % 16)] + Hex(value[1..])
  }

  /** Exact values share the token space: no token of a text starts with `=`. */
  function ExactValueToken(value: ByteString): ByteString {
    ['=' as int] + Hex(value)
  }

  /** `term_path`: what follows the first separator. */
  function TermPath(term: ByteString): ByteString {
    var n := FirstZero(term);
    if n < |term| then term[n + 1..] else term
  }

  function FirstZero(term: ByteString): (n: nat)
    ensures n <= |term|
  {
    if term == [] || term[0] == 0 then 0 else 1 + FirstZero(term[1..])
  }

  predicate NoZero(token: ByteString) {
    forall i :: 0 <= i < |token| ==> token[i] != 0
  }

  lemma {:induction false} FirstZeroOf(token: ByteString, path: ByteString)
    requires NoZero(token)
    ensures FirstZero(ValueKey(token, path)) == |token|
  {
    if token != [] {
      FirstZeroOf(token[1..], path);
      assert ValueKey(token, path)[1..] == ValueKey(token[1..], path);
    }
  }

  /** A dictionary key determines its token and its path. */
  lemma {:induction false} KeyParts(token: ByteString, path: ByteString)
    requires NoZero(token)
    ensures TermPath(ValueKey(token, path)) == path
    ensures FirstZero(ValueKey(token, path)) == |token| && ValueKey(token, path)[..|token|] == token
  {
    FirstZeroOf(token, path);
    assert ValueKey(token, path)[|token| + 1..] == path;
  }

  /** The keys with a token's prefix are the keys of that token. */
  lemma {:induction false} PrefixIsToken(token: ByteString, other: ByteString, path: ByteString)
    requires NoZero(token) && NoZero(other)
    ensures ValuePrefix(token) <= ValueKey(other, path) <==> token == other
  {
    KeyParts(other, path);
    if ValuePrefix(token) <= ValueKey(other, path) {
      var key := ValueKey(other, path);
      assert key == ValuePrefix(token) + key[|token| + 1..];
      KeyParts(token, key[|token| + 1..]);
      assert ValueKey(token, key[|token| + 1..]) == key;
    }
  }

  lemma {:induction false} HexInjective(a: ByteString, b: ByteString)
    requires Hex(a) == Hex(b)
    ensures a == b
  {
    if a == [] {
      assert |Hex(b)| == 0;
    } else {
      var digits := Hex(a);
      assert b != [];
      assert digits[0] == HexDigit(a[0] / 16) == HexDigit(b[0] / 16);
      assert digits[1] == HexDigit(a[0] % 16) == HexDigit(b[0] % 16);
      assert digits[2..] == Hex(a[1..]) == Hex(b[1..]);
      HexInjective(a[1..], b[1..]);
      assert a == [a[0]] + a[1..] && b == [b[0]] + b[1..];
    }
  }

  lemma {:induction false} HexNoZero(value: ByteString)
    ensures NoZero(Hex(value))
  {
    if value != [] {
      HexNoZero(value[1..]);
    }
  }

  lemma {:induction false} ExactTokenInjective(a: ByteString, b: ByteString)
    ensures ExactValueToken(a) == ExactValueToken(b) <==> a == b
    ensures NoZero(ExactValueToken(a))
  {
    HexNoZero(a);
    if ExactValueToken(a) == ExactValueToken(b) {
      assert ExactValueToken(a)[1..] == Hex(a) && ExactValueToken(b)[1..] == Hex(b);
      HexInjective(a, b);
    }
  }

  // ---- pruning by a group's smallest and largest term ----

  predicate MayContainExact(minTerm: ByteString, maxTerm: ByteString, key: ByteString) {
    BytesLeq(minTerm, key) && BytesLeq(key, maxTerm)
  }

  /** The least string above everything with this prefix, if there is one. */
  function NextPrefix(prefix: ByteString): Option<ByteString> {
    if prefix == [] then None
    else
      var n := |prefix| - 1;
      if prefix[n] != 255 then Some(prefix[..n] + [prefix[n] + 1]) else NextPrefix(prefix[..n])
  }

  /** `next_prefix`. */
  method ComputeNextPrefix(prefix: ByteString) returns (upper: Option<ByteString>)
    ensures upper == NextPrefix(prefix)
  {
    var bytes := prefix;
    while bytes != []
      invariant NextPrefix(prefix) == NextPrefix(bytes)
      decreases |bytes|
    {
      var last := bytes[|bytes| - 1];
      bytes := bytes[..|bytes| - 1];
      if last != 255 {
        return Some(bytes + [last + 1]);
      }
    }
    return None;
  }

  predicate OverlapsPrefix(minTerm: ByteString, maxTerm: ByteString, prefix: ByteString) {
    !BytesLess(maxTerm, prefix) && (NextPrefix(prefix).Some? ==> BytesLess(minTerm, NextPrefix(prefix).value))
  }

  /** Whether `term` sorts before everything above the prefix. */
  predicate BelowNext(prefix: ByteString, term: ByteString) {
    NextPrefix(prefix).Some? ==> BytesLess(term, NextPrefix(prefix).value)
  }

  lemma {:induction false} LeqAppend(head: ByteString, a: ByteString, b: ByteString)
    ensures BytesLeq(head + a, head + b) == BytesLeq(a, b)
  {
    if head == [] {
      assert head + a == a && head + b == b;
    } else {
      LeqAppend(head[1..], a, b);
      assert (head + a)[1..] == head[1..] + a && (head + b)[1..] == head[1..] + b;
    }
  }

  /** The order is decided at the first byte that differs, or by a prefix. */
  lemma {:induction false} NextPrefixAbove(prefix: ByteString)
    ensures NextPrefix(prefix).Some? ==> forall term :: prefix <= term ==> BytesLess(term, NextPrefix(prefix).value)
    decreases |prefix|
  {
    if prefix != [] {
      var n := |prefix| - 1;
      var front := prefix[..n];
      NextPrefixAbove(front);
      forall term | prefix <= term && NextPrefix(prefix).Some?
        ensures BytesLess(term, NextPrefix(prefix).value)
      {
        if prefix[n] != 255 {
          assert term == front + term[n..];
          LeqAppend(front, term[n..], [prefix[n] + 1]);
          assert term[n] == prefix[n];
        } else {
          assert front <= term;
        }
      }
    }
  }

  /** Nothing below the bound and at or above the prefix lacks the prefix. */
  lemma {:induction false} NextPrefixTight(prefix: ByteString, term: ByteString)
    requires BytesLeq(prefix, term) && BelowNext(prefix, term)
    ensures prefix <= term
    decreases |prefix|
  {
    if prefix != [] {
      var n := |prefix| - 1;
      var front := prefix[..n];
      PrefixLeq(front, prefix);
      BytesLeqTransitive(front, prefix, term);
      if prefix[n] != 255 {
        assert prefix == front + [prefix[n]];
        FrontShared(front, prefix[n], term);
      } else {
        NextPrefixTight(front, term);
        assert prefix == front + [255] && term == front + term[n..];
        LeqAppend(front, [255], term[n..]);
      }
    }
  }

  lemma {:induction false} FrontShared(front: ByteString, byte: Byte, term: ByteString)
    requires byte < 255 && BytesLeq(front + [byte], term) && BytesLess(term, front + [byte + 1])
    ensures front + [byte] <= term
  {
    if front == [] {
      assert front + [byte] == [byte] && front + [byte + 1] == [byte + 1];
      assert term != [] && BytesLeq(term[1..], []) ==> term == [term[0]];
      assert [byte + 1][1..] == [];
    } else {
      assert (front + [byte])[1..] == front[1..] + [byte] && (front + [byte + 1])[1..] == front[1..] + [byte + 1];
      assert term != [] && term[0] == front[0];
      assert term == [front[0]] + term[1..];
      FrontShared(front[1..], byte, term[1..]);
    }
  }

  /** Strings with a prefix are exactly the interval the pruning tests. */
  lemma {:induction false} PrefixIsInterval(prefix: ByteString, term: ByteString)
    ensures prefix <= term <==> BytesLeq(prefix, term) && BelowNext(prefix, term)
  {
    if prefix <= term {
      PrefixLeq(prefix, term);
      NextPrefixAbove(prefix);
    } else if BytesLeq(prefix, term) && BelowNext(prefix, term) {
      NextPrefixTight(prefix, term);
    }
  }

  lemma {:induction false} LessTransitive(a: ByteString, b: ByteString, c: ByteString)
    requires BytesLeq(a, b) && BytesLess(b, c)
    ensures BytesLess(a, c)
  {
    BytesLeqTransitive(a, b, c);
    BytesLeqTotal(b, c);
  }

  /** A group whose span holds a term with the prefix is never pruned. */
  lemma {:induction false} PruningKeepsPrefix(minTerm: ByteString, maxTerm: ByteString, prefix: ByteString, term: ByteString)
    requires BytesLeq(minTerm, term) && BytesLeq(term, maxTerm) && prefix <= term
    ensures OverlapsPrefix(minTerm, maxTerm, prefix)
  {
    PrefixIsInterval(prefix, term);
    BytesLeqTransitive(prefix, term, maxTerm);
    BytesLeqTotal(prefix, maxTerm);
    if NextPrefix(prefix).Some? {
      LessTransitive(minTerm, term, NextPrefix(prefix).value);
    }
  }

  /** A group is read for a prefix exactly when some string between its smallest and largest term has the prefix. */
  lemma {:induction false} PruningExact(minTerm: ByteString, maxTerm: ByteString, prefix: ByteString)
    requires BytesLeq(minTerm, maxTerm)
    ensures OverlapsPrefix(minTerm, maxTerm, prefix) <==>
            exists term :: BytesLeq(minTerm, term) && BytesLeq(term, maxTerm) && prefix <= term
  {
    if term :| BytesLeq(minTerm, term) && BytesLeq(term, maxTerm) && prefix <= term {
      PruningKeepsPrefix(minTerm, maxTerm, prefix, term);
    }
    if OverlapsPrefix(minTerm, maxTerm, prefix) {
      BytesLeqTotal(minTerm, prefix);
      BytesLeqTotal(prefix, maxTerm);
      BytesLeqTotal(minTerm, minTerm);
      BytesLeqTotal(maxTerm, maxTerm);
      if BytesLeq(minTerm, prefix) {
        assert BytesLeq(prefix, maxTerm) && prefix <= prefix;
      } else {
        PrefixIsInterval(prefix, minTerm);
        assert prefix <= minTerm;
      }
    }
  }
}
