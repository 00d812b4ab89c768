/** Byte strings and their lexicographic order.  Text is modelled by its UTF-8 bytes. */
module Bytes {
  import Ordering

  type Byte = x: int | 0 <= x < 256

  type ByteString = seq<Byte>

  const U32_MAX: nat := 0xFFFF_FFFF

  type U32 = x: int | 0 <= x <= 0xFFFF_FFFF

  /** The bytes of an ASCII literal. */
  function Ascii(text: string): ByteString {
    seq(|text|, i requires 0 <= i < |text| => (text[i] as int) % 256)
  }

  predicate BytesLeq(a: ByteString, b: ByteString) {
    if a == [] then true
    else if b == [] then false
    else if a[0] == b[0] then BytesLeq(a[1..], b[1..])
    else a[0] < b[0]
  }

  predicate BytesLess(a: ByteString, b: ByteString) {
    BytesLeq(a, b) && a != b
  }

  lemma {:induction false} BytesLeqTotal(a: ByteString, b: ByteString)
    ensures BytesLeq(a, b) || BytesLeq(b, a)
    ensures BytesLeq(a, b) && BytesLeq(b, a) ==> a == b
    ensures BytesLeq(a, a)
  {
    if a != [] {
      BytesLeqTotal(a[1..], if b == [] then [] else b[1..]);
      assert a == [a[0]] + a[1..];
      assert b != [] ==> b == [b[0]] + b[1..];
    }
  }

  lemma {:induction false} BytesLeqTransitive(a: ByteString, b: ByteString, c: ByteString)
    requires BytesLeq(a, b) && BytesLeq(b, c)
    ensures BytesLeq(a, c)
  {
    if a != [] && b != [] && c != [] && a[0] == b[0] && b[0] == c[0] {
      BytesLeqTransitive(a[1..], b[1..], c[1..]);
    }
  }

  lemma {:induction false} BytesLeqIsTotalOrder()
    ensures Ordering.TotalPreorder(BytesLeq) && Ordering.Antisymmetric(BytesLeq)
  {
    forall a: ByteString, b: ByteString
      ensures BytesLeq(a, b) || BytesLeq(b, a)
      ensures BytesLeq(a, b) && BytesLeq(b, a) ==> a == b
    {
      BytesLeqTotal(a, b);
    }
    forall a: ByteString, b: ByteString, c: ByteString | BytesLeq(a, b) && BytesLeq(b, c)
      ensures BytesLeq(a, c)
    {
      BytesLeqTransitive(a, b, c);
    }
  }

  /** A prefix sorts no later than what it starts. */
  lemma {:induction false} PrefixLeq(prefix: ByteString, term: ByteString)
    requires prefix <= term
    ensures BytesLeq(prefix, term)
  {
    if prefix != [] {
      PrefixLeq(prefix[1..], term[1..]);
    }
  }

  /** The order of a dictionary, by bytes: a front first, else by the first byte that differs. */
  ghost predicate InByteOrder(a: ByteString, b: ByteString) {
    a <= b || exists k :: 0 <= k < |a| && k < |b| && BytesAgree(a, b, k) && a[k] < b[k]
  }

  predicate BytesAgree(a: ByteString, b: ByteString, k: nat)
    requires k <= |a| && k <= |b|
  {
    forall l :: 0 <= l < k ==> a[l] == b[l]
  }

  lemma {:induction false} BytesLeqIsByteOrder(a: ByteString, b: ByteString)
    ensures BytesLeq(a, b) <==> InByteOrder(a, b)
  {
    if a != [] && b != [] && a[0] == b[0] {
      BytesLeqIsByteOrder(a[1..], b[1..]);
      assert a == [a[0]] + a[1..] && b == [b[0]] + b[1..];
      if k :| 0 <= k < |a| && k < |b| && BytesAgree(a, b, k) && a[k] < b[k] {
        assert BytesAgree(a[1..], b[1..], k - 1);
      }
      if k :| 0 <= k < |a[1..]| && k < |b[1..]| && BytesAgree(a[1..], b[1..], k) && a[1..][k] < b[1..][k] {
        assert BytesAgree(a, b, k + 1) by {
          assert forall l :: 0 < l < k + 1 ==> a[l] == a[1..][l - 1] && b[l] == b[1..][l - 1];
        }
      }
    } else if a != [] && b != [] {
      assert BytesAgree(a, b, 0);
    }
  }
}
