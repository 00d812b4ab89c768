/**
 Bit-packed blocks (src/search/codec.rs).  A block of values of `width` bits is the
 little-endian byte string of one number: the values are its digits in base 2^width,
 the bytes its digits in base 256.
 */
module BitPacking {
  import opened Wrappers
  import opened Bytes
  import opened BitArithmetic

  // ---- numbers as little-endian bytes ----

  function LeValue(bytes: ByteString): nat {
    if bytes == [] then 0 else bytes[0] + 256 * LeValue(bytes[1..])
  }

  function LeBytes(n: nat, len: nat): (bytes: ByteString)
    ensures |bytes| == len
  {
    if len == 0 then [] else [n % 256] + LeBytes(n / 256, len - 1)
  }

  lemma {:induction false} LeRoundTrip(n: nat, len: nat)
    requires n < Pow2(8 * len)
    ensures LeValue(LeBytes(n, len)) == n
  {
    if len > 0 {
      Pow2Add(8, 8 * (len - 1));
      assert Pow2(8) == 256;
      assert n / 256 < Pow2(8 * (len - 1));
      LeRoundTrip(n / 256, len - 1);
      assert LeBytes(n, len)[1..] == LeBytes(n / 256, len - 1);
    }
  }

  // ---- numbers as values of a fixed width ----

  predicate Fits(values: seq<nat>, width: nat) {
    forall i :: 0 <= i < |values| ==> values[i] < Pow2(width)
  }

  function PackedValue(values: seq<nat>, width: nat): nat {
    if values == [] then 0 else values[0] + Pow2(width) * PackedValue(values[1..], width)
  }

  function Unpacked(n: nat, count: nat, width: nat): (values: seq<nat>)
    ensures |values| == count
  {
    if count == 0 then []
    else
      QuotientNatural(n, Pow2(width));
      [n % Pow2(width)] + Unpacked(n / Pow2(width), count - 1, width)
  }

  /** `packed_len`, the division rounding up. */
  function PackedLen(count: nat, width: nat): nat {
    (count * width + 7) / 8
  }

  function Packed(values: seq<nat>, width: nat): ByteString {
    LeBytes(PackedValue(values, width), PackedLen(|values|, width))
  }

  lemma {:induction false} UnpackedInverts(values: seq<nat>, width: nat)
    requires Fits(values, width)
    ensures Unpacked(PackedValue(values, width), |values|, width) == values
    ensures PackedValue(values, width) < Pow2(|values| * width)
  {
    if values == [] {
    } else {
      var rest := values[1..];
      UnpackedInverts(rest, width);
      var n, p, r := PackedValue(values, width), Pow2(width), PackedValue(rest, width);
      hide Pow2;
      OneUnpacked(n, r, values[0], |rest|, width);
      assert values == [values[0]] + rest;
      hide *;
      OneMoreWidth(|rest|, width);
      Pow2Add(width, |rest| * width);
      DigitBound(values[0], p, r, Pow2(|rest| * width));
    }
  }

  lemma {:induction false} OneUnpacked(n: nat, rest: nat, digit: nat, count: nat, width: nat)
    requires digit < Pow2(width) && n == digit + Pow2(width) * rest
    ensures Unpacked(n, count + 1, width) == [digit] + Unpacked(rest, count, width)
  {
    DivisionUnique(n, Pow2(width), rest, digit);
    hide Pow2;
  }

  lemma {:induction false} OneMoreWidth(count: nat, width: nat)
    ensures (count + 1) * width == width + count * width
  {
  }

  /** A lowest digit below a bounded number. */
  lemma {:induction false} DigitBound(digit: nat, base: nat, rest: nat, bound: nat)
    requires digit < base && rest < bound
    ensures digit + base * rest < base * bound
  {
    MulMonotone(rest + 1, bound, base);
    assert (rest + 1) * base == rest * base + base;
  }

  /** A packed block is long enough, and unpacking it gives back the values. */
  lemma {:induction false} PackedRoundTrip(values: seq<nat>, width: nat)
    requires Fits(values, width)
    ensures |Packed(values, width)| == PackedLen(|values|, width)
    ensures Unpack(Packed(values, width), |values|, width) == if width <= 32 then Ok(values) else Err(InvalidWidth)
  {
    UnpackedInverts(values, width);
    var len := PackedLen(|values|, width);
    Pow2Monotone(|values| * width, 8 * len);
    LeRoundTrip(PackedValue(values, width), len);
    if width == 0 {
      assert Pow2(0) == 1;
      assert values == seq(|values|, i => 0);
    }
  }

  // ---- the loops ----

  datatype PackError = InvalidWidth | TruncatedBlock

  /** What `unpack_bits` computes. */
  function Unpack(bytes: ByteString, count: nat, width: nat): Result<seq<nat>, PackError> {
    if width > 32 then Err(InvalidWidth)
    else if width == 0 then Ok(seq(count, i => 0))
    else if 8 * |bytes| < count * width then Err(TruncatedBlock)
    else Ok(Unpacked(LeValue(bytes), count, width))
  }

  /** Cutting the low `cut` bits off a register with more number waiting above it. */
  lemma {:induction false} CutLow(accumulator: nat, bits: nat, cut: nat, above: nat)
    requires accumulator < Pow2(bits) && cut <= bits
    ensures (accumulator + Pow2(bits) * above) % Pow2(cut) == accumulator % Pow2(cut)
    ensures 0 <= accumulator / Pow2(cut) < Pow2(bits - cut)
    ensures (accumulator + Pow2(bits) * above) / Pow2(cut) == accumulator / Pow2(cut) + Pow2(bits - cut) * above
  {
    hide Pow2;
    Pow2Add(cut, bits - cut);
    CutNumber(accumulator, Pow2(cut), Pow2(bits - cut), above);
  }

  lemma {:induction false} CutNumber(n: nat, p: nat, high: nat, above: nat)
    requires p > 0 && n < p * high
    ensures (n + (p * high) * above) % p == n % p
    ensures 0 <= n / p < high
    ensures (n + (p * high) * above) / p == n / p + high * above
  {
    QuotientNatural(n, p);
    var q, r := n / p, n % p;
    ThreeFactors(p, high, above);
    Distribute(q, high * above, p);
    assert n + (p * high) * above == (q + high * above) * p + r;
    DivisionUnique(n + (p * high) * above, p, q + high * above, r);
    if q >= high {
      MulMonotone(high, q, p);
    }
  }

  lemma {:induction false} ThreeFactors(a: nat, b: nat, c: nat)
    ensures (a * b) * c == (b * c) * a
  {
    assert (a * b) * c == a * (b * c);
  }

  lemma {:induction false} Distribute(a: nat, b: nat, c: nat)
    ensures (a + b) * c == a * c + b * c
  {
  }

  /** Putting a value on top of a register: the or is a sum, and 64 bits are enough. */
  lemma {:induction false} PutAbove(accumulator: nat, bits: nat, value: nat, width: nat, above: nat)
    requires accumulator < Pow2(bits) && value < Pow2(width) && bits + width <= 64
    ensures BitOr(accumulator, ShiftLeft(value, bits, 64)) < Pow2(bits + width)
    ensures BitOr(accumulator, ShiftLeft(value, bits, 64)) + Pow2(bits + width) * above
         == accumulator + Pow2(bits) * (value + Pow2(width) * above)
  {
    hide Pow2, BitOr;
    Pow2Add(bits, width);
    Pow2Monotone(bits + width, 64);
    OrAbove(accumulator, value, bits);
    ProductBelow(accumulator, Pow2(bits), value, Pow2(width));
    SmallMod(value * Pow2(bits), Pow2(64));
    Regroup(accumulator, Pow2(bits), value, Pow2(width), above);
  }

  lemma {:induction false} ProductBelow(a: nat, p: nat, value: nat, w: nat)
    requires a < p && value < w
    ensures a + value * p < p * w
  {
    MulMonotone(value + 1, w, p);
    assert (value + 1) * p == value * p + p;
  }

  lemma {:induction false} Regroup(a: nat, p: nat, value: nat, w: nat, above: nat)
    ensures a + p * (value + w * above) == (a + value * p) + (p * w) * above
  {
    assert p * (value + w * above) == p * value + p * (w * above);
    assert p * (w * above) == (p * w) * above;
  }

  lemma {:induction false} SmallMod(a: nat, m: nat)
    requires a < m
    ensures a % m == a
  {
  }

  /** `pack_bits`. */
  method PackBits(values: seq<nat>, width: nat, out: ByteString) returns (packed: ByteString)
    requires width <= 32 && Fits(values, width)
    ensures packed == out + Packed(values, width)
  {
    hide *;
    if width == 0 {
      NothingPacked(out, values);
      return out;
    }
    packed := out;
    var accumulator: nat, bits: nat := 0, 0;
    WritingStarts(out, values, width);
    for i := 0 to |values|
      invariant bits < 8 && Writing(out, values, width, packed, accumulator, bits, i)
    {
      WritingPuts(out, values, width, packed, accumulator, bits, i);
      accumulator := BitOr(accumulator, ShiftLeft(values[i], bits, 64));
      bits := bits + width;
      while bits >= 8
        invariant Writing(out, values, width, packed, accumulator, bits, i + 1)
      {
        WritingTakes(out, values, width, packed, accumulator, bits, i + 1);
        packed := packed + [accumulator % 256];
        accumulator := ShiftRight(accumulator, 8);
        bits := bits - 8;
      }
    }
    WritingEnds(out, values, width, packed, accumulator, bits);
    if bits > 0 {
      packed := packed + [accumulator % 256];
    }
  }

  lemma {:induction false} NothingPacked(out: ByteString, values: seq<nat>)
    ensures out + Packed(values, 0) == out
  {
    assert PackedLen(|values|, 0) == 0;
  }

  /** What is written and what waits, in the register and in the values not yet taken. */
  ghost predicate Writing(out: ByteString, values: seq<nat>, width: nat, packed: ByteString, accumulator: nat, bits: nat, i: nat) {
    && Fits(values, width) && width <= 32 && i <= |values| && accumulator < Pow2(bits)
    && out + Packed(values, width) == packed + Waiting(accumulator, bits, values[i..], width)
  }

  lemma {:induction false} WritingStarts(out: ByteString, values: seq<nat>, width: nat)
    requires Fits(values, width) && width <= 32
    ensures Writing(out, values, width, out, 0, 0, 0)
  {
    PackStart(values, width);
    hide Packed, Waiting, Fits;
  }

  lemma {:induction false} WritingPuts(out: ByteString, values: seq<nat>, width: nat, packed: ByteString, accumulator: nat, bits: nat, i: nat)
    requires Writing(out, values, width, packed, accumulator, bits, i) && bits < 8 && i < |values|
    ensures Writing(out, values, width, packed, BitOr(accumulator, ShiftLeft(values[i], bits, 64)), bits + width, i + 1)
  {
    hide Packed, Waiting, Fits, Pow2, BitOr, ShiftLeft;
    PutValue(accumulator, bits, values, i, width);
  }

  lemma {:induction false} WritingTakes(out: ByteString, values: seq<nat>, width: nat, packed: ByteString, accumulator: nat, bits: nat, i: nat)
    requires Writing(out, values, width, packed, accumulator, bits, i) && bits >= 8
    ensures Writing(out, values, width, packed + [accumulator % 256], ShiftRight(accumulator, 8), bits - 8, i)
  {
    hide Packed, Waiting, Fits, Pow2, ShiftRight;
    TakeByte(accumulator, bits, values[i..], width);
    MoveByte(packed, accumulator % 256, Waiting(ShiftRight(accumulator, 8), bits - 8, values[i..], width));
  }

  lemma {:induction false} MoveByte(packed: ByteString, byte: Byte, rest: ByteString)
    ensures packed + ([byte] + rest) == (packed + [byte]) + rest
  {
  }

  lemma {:induction false} WritingEnds(out: ByteString, values: seq<nat>, width: nat, packed: ByteString, accumulator: nat, bits: nat)
    requires Writing(out, values, width, packed, accumulator, bits, |values|) && bits < 8
    ensures out + Packed(values, width) == if bits > 0 then packed + [accumulator % 256] else packed
  {
    hide Packed, Waiting, Fits, Pow2;
    assert values[|values|..] == [];
    LastByte(accumulator, bits, width);
  }

  /** The bytes still to be written: the register below the values not yet taken. */
  function Waiting(accumulator: nat, bits: nat, values: seq<nat>, width: nat): ByteString {
    LeBytes(accumulator + Pow2(bits) * PackedValue(values, width), (bits + |values| * width + 7) / 8)
  }

  lemma {:induction false} PackStart(values: seq<nat>, width: nat)
    ensures Waiting(0, 0, values[0..], width) == Packed(values, width) && Pow2(0) == 1
  {
    assert values[0..] == values;
  }

  lemma {:induction false} PutValue(accumulator: nat, bits: nat, values: seq<nat>, i: nat, width: nat)
    requires i < |values| && Fits(values, width) && width <= 32 && bits < 8 && accumulator < Pow2(bits)
    ensures var after := BitOr(accumulator, ShiftLeft(values[i], bits, 64));
            && after < Pow2(bits + width)
            && Waiting(after, bits + width, values[i + 1..], width) == Waiting(accumulator, bits, values[i..], width)
  {
    hide Pow2, BitOr, ShiftLeft, PackedValue, LeBytes;
    NextDigit(values, i, width);
    PutAbove(accumulator, bits, values[i], width, PackedValue(values[i + 1..], width));
    Distribute(1, |values| - i - 1, width);
  }

  lemma {:induction false} NextDigit(values: seq<nat>, i: nat, width: nat)
    requires i < |values|
    ensures PackedValue(values[i..], width) == values[i] + Pow2(width) * PackedValue(values[i + 1..], width)
  {
    assert values[i..][1..] == values[i + 1..];
  }

  lemma {:induction false} TakeByte(accumulator: nat, bits: nat, values: seq<nat>, width: nat)
    requires bits >= 8 && accumulator < Pow2(bits)
    ensures ShiftRight(accumulator, 8) < Pow2(bits - 8)
    ensures Waiting(accumulator, bits, values, width)
         == [accumulator % 256] + Waiting(ShiftRight(accumulator, 8), bits - 8, values, width)
  {
    assert Pow2(8) == 256;
    var above := PackedValue(values, width);
    CutLow(accumulator, bits, 8, above);
    var n, len := accumulator + Pow2(bits) * above, (bits + |values| * width + 7) / 8;
    assert |values| * width >= 0;
    assert (bits - 8 + |values| * width + 7) / 8 == len - 1;
    OneByte(n, len);
  }

  lemma {:induction false} OneByte(n: nat, len: nat)
    requires len > 0
    ensures LeBytes(n, len) == [n % 256] + LeBytes(n / 256, len - 1)
  {
  }

  lemma {:induction false} LastByte(accumulator: nat, bits: nat, width: nat)
    requires bits < 8
    ensures Waiting(accumulator, bits, [], width) == if bits > 0 then [accumulator % 256] else []
  {
    assert PackedValue([], width) == 0;
    if bits > 0 {
      OneByte(accumulator, 1);
    }
  }

  /** `unpack_bits`. */
  method UnpackBits(bytes: ByteString, count: nat, width: nat) returns (result: Result<seq<nat>, PackError>)
    ensures result == Unpack(bytes, count, width)
  {
    hide *;
    OddWidths(bytes, count, width);
    if width > 32 {
      return Err(InvalidWidth);
    }
    if width == 0 {
      return Ok(seq(count, i => 0));
    }
    var mask := Pow2(width) - 1;
    var values: seq<nat> := [];
    var accumulator: nat, bits: nat, offset: nat := 0, 0, 0;
    FillingStarts(bytes, count, width);
    while |values| < count
      invariant |values| <= count && offset <= |bytes|
      invariant Filling(bytes, count, width, values, accumulator, bits, offset)
    {
      while bits < width
        invariant offset <= |bytes|
        invariant Filling(bytes, count, width, values, accumulator, bits, offset)
        decreases width - bits
      {
        if offset >= |bytes| {
          FillingRunsOut(bytes, count, width, values, accumulator, bits, offset);
          return Err(TruncatedBlock);
        }
        FillingLoads(bytes, count, width, values, accumulator, bits, offset);
        accumulator := BitOr(accumulator, ShiftLeft(bytes[offset], bits, 64));
        bits := bits + 8;
        offset := offset + 1;
      }
      FillingEmits(bytes, count, width, values, accumulator, bits, offset);
      values := values + [BitAnd(accumulator, mask)];
      accumulator := ShiftRight(accumulator, width);
      bits := bits - width;
    }
    FillingEnds(bytes, count, width, values, accumulator, bits, offset);
    return Ok(values);
  }

  lemma {:induction false} OddWidths(bytes: ByteString, count: nat, width: nat)
    ensures width > 32 ==> Unpack(bytes, count, width) == Err(InvalidWidth)
    ensures width == 0 ==> Unpack(bytes, count, width) == Ok(seq(count, i => 0))
    ensures Pow2(width) > 0
  {
    hide Unpacked, LeValue;
  }

  /** The register holds what was loaded and not yet given out. */
  ghost predicate Filling(bytes: ByteString, count: nat, width: nat, values: seq<nat>, accumulator: nat, bits: nat, offset: nat) {
    && 0 < width <= 32 && |values| <= count && offset <= |bytes|
    && 8 * offset == bits + BitCount(|values|, width)
    && bits < width + 8 && accumulator < Pow2(bits)
    && Unpacked(LeValue(bytes), count, width) == values + StillInside(accumulator, bits, bytes[offset..], count - |values|, width)
  }

  lemma {:induction false} FillingStarts(bytes: ByteString, count: nat, width: nat)
    requires 0 < width <= 32
    ensures Filling(bytes, count, width, [], 0, 0, 0)
  {
    UnpackStart(bytes, count, width);
    var inside := StillInside(0, 0, bytes[0..], count, width);
    hide StillInside, Unpacked, LeValue, BitCount;
    assert [] + inside == inside;
  }

  lemma {:induction false} FillingRunsOut(bytes: ByteString, count: nat, width: nat, values: seq<nat>, accumulator: nat, bits: nat, offset: nat)
    requires Filling(bytes, count, width, values, accumulator, bits, offset) && offset == |bytes| && bits < width && |values| < count
    ensures Unpack(bytes, count, width) == Err(TruncatedBlock)
  {
    hide StillInside, Unpacked, LeValue, BitCount, Unpack;
    RunsOut(bytes, count, width, bits, |values|);
  }

  lemma {:induction false} FillingLoads(bytes: ByteString, count: nat, width: nat, values: seq<nat>, accumulator: nat, bits: nat, offset: nat)
    requires Filling(bytes, count, width, values, accumulator, bits, offset) && offset < |bytes| && bits < width
    ensures Filling(bytes, count, width, values, BitOr(accumulator, ShiftLeft(bytes[offset], bits, 64)), bits + 8, offset + 1)
  {
    hide StillInside, Unpacked, LeValue, BitCount, Pow2, BitOr, ShiftLeft;
    LoadByte(accumulator, bits, bytes, offset, count - |values|, width);
  }

  lemma {:induction false} FillingEmits(bytes: ByteString, count: nat, width: nat, values: seq<nat>, accumulator: nat, bits: nat, offset: nat)
    requires Filling(bytes, count, width, values, accumulator, bits, offset) && bits >= width && |values| < count
    ensures Filling(bytes, count, width, values + [BitAnd(accumulator, Pow2(width) - 1)], ShiftRight(accumulator, width), bits - width, offset)
  {
    hide StillInside, Unpacked, LeValue, BitCount, Pow2, BitAnd, ShiftRight;
    EmitValue(accumulator, bits, bytes[offset..], count - |values|, width);
    MoveValue(values, BitAnd(accumulator, Pow2(width) - 1),
              StillInside(ShiftRight(accumulator, width), bits - width, bytes[offset..], count - |values| - 1, width));
    OneMoreCount(|values|, width);
  }

  lemma {:induction false} FillingEnds(bytes: ByteString, count: nat, width: nat, values: seq<nat>, accumulator: nat, bits: nat, offset: nat)
    requires Filling(bytes, count, width, values, accumulator, bits, offset) && |values| == count
    ensures Unpack(bytes, count, width) == Ok(values)
  {
    hide StillInside, Unpacked, LeValue, BitCount, Pow2, Unpack;
    NothingInside(accumulator, bits, bytes[offset..], width);
    Enough(bytes, count, width);
    assert values + [] == values;
  }

  lemma {:induction false} MoveValue(values: seq<nat>, value: nat, more: seq<nat>)
    ensures values + ([value] + more) == (values + [value]) + more
  {
  }

  function BitCount(count: nat, width: nat): nat {
    count * width
  }

  lemma {:induction false} OneMoreCount(count: nat, width: nat)
    ensures BitCount(count + 1, width) == BitCount(count, width) + width
  {
  }

  lemma {:induction false} RunsOut(bytes: ByteString, count: nat, width: nat, bits: nat, done: nat)
    requires 0 < width <= 32 && done < count && bits < width && 8 * |bytes| == bits + BitCount(done, width)
    ensures Unpack(bytes, count, width) == Err(TruncatedBlock)
  {
    MulMonotone(done + 1, count, width);
    Distribute(done, 1, width);
  }

  lemma {:induction false} Enough(bytes: ByteString, count: nat, width: nat)
    requires 0 < width <= 32 && BitCount(count, width) <= 8 * |bytes|
    ensures Unpack(bytes, count, width) == Ok(Unpacked(LeValue(bytes), count, width))
  {
  }

  /** The values still to come out of the register and the bytes not yet loaded. */
  function StillInside(accumulator: nat, bits: nat, bytes: ByteString, count: nat, width: nat): seq<nat> {
    Unpacked(accumulator + Pow2(bits) * LeValue(bytes), count, width)
  }

  lemma {:induction false} UnpackStart(bytes: ByteString, count: nat, width: nat)
    ensures StillInside(0, 0, bytes[0..], count, width) == Unpacked(LeValue(bytes), count, width)
    ensures Pow2(0) == 1 && BitCount(0, width) == 0
  {
    assert bytes[0..] == bytes;
  }

  lemma {:induction false} LoadByte(accumulator: nat, bits: nat, bytes: ByteString, offset: nat, count: nat, width: nat)
    requires offset < |bytes| && bits < 32 && accumulator < Pow2(bits)
    ensures var after := BitOr(accumulator, ShiftLeft(bytes[offset], bits, 64));
            && after < Pow2(bits + 8)
            && StillInside(after, bits + 8, bytes[offset + 1..], count, width)
            == StillInside(accumulator, bits, bytes[offset..], count, width)
  {
    LeFirst(bytes, offset);
    hide *;
    PutAbove(accumulator, bits, bytes[offset], 8, LeValue(bytes[offset + 1..]));
    SameInside(BitOr(accumulator, ShiftLeft(bytes[offset], bits, 64)), bits + 8, bytes[offset + 1..],
               accumulator, bits, bytes[offset..], count, width);
  }

  lemma {:induction false} EightBits()
    ensures Pow2(8) == 256
  {
  }

  /** The number of the remaining bytes from its first byte. */
  lemma {:induction false} LeFirst(bytes: ByteString, offset: nat)
    requires offset < |bytes|
    ensures bytes[offset] < Pow2(8) && LeValue(bytes[offset..]) == bytes[offset] + Pow2(8) * LeValue(bytes[offset + 1..])
  {
    EightBits();
    hide Pow2;
    assert bytes[offset..][0] == bytes[offset] && bytes[offset..][1..] == bytes[offset + 1..];
  }

  /** The same number inside gives the same values. */
  lemma {:induction false} SameInside(
    a: nat, aBits: nat, aBytes: ByteString, b: nat, bBits: nat, bBytes: ByteString, count: nat, width: nat)
    requires a + Pow2(aBits) * LeValue(aBytes) == b + Pow2(bBits) * LeValue(bBytes)
    ensures StillInside(a, aBits, aBytes, count, width) == StillInside(b, bBits, bBytes, count, width)
  {
  }

  lemma {:induction false} EmitValue(accumulator: nat, bits: nat, bytes: ByteString, count: nat, width: nat)
    requires bits >= width && accumulator < Pow2(bits) && count > 0
    ensures ShiftRight(accumulator, width) < Pow2(bits - width)
    ensures StillInside(accumulator, bits, bytes, count, width)
         == [BitAnd(accumulator, Pow2(width) - 1)] + StillInside(ShiftRight(accumulator, width), bits - width, bytes, count - 1, width)
  {
    CutLow(accumulator, bits, width, LeValue(bytes));
    AndMask(accumulator, width);
    OneValue(accumulator + Pow2(bits) * LeValue(bytes), count, width);
    InsideIs(accumulator, bits, bytes, count, width);
    InsideIs(ShiftRight(accumulator, width), bits - width, bytes, count - 1, width);
    hide *;
  }

  lemma {:induction false} InsideIs(accumulator: nat, bits: nat, bytes: ByteString, count: nat, width: nat)
    ensures StillInside(accumulator, bits, bytes, count, width) == Unpacked(accumulator + Pow2(bits) * LeValue(bytes), count, width)
  {
  }

  lemma {:induction false} OneValue(n: nat, count: nat, width: nat)
    requires count > 0
    ensures 0 <= n / Pow2(width)
    ensures Unpacked(n, count, width) == [n % Pow2(width)] + Unpacked(n / Pow2(width), count - 1, width)
  {
    QuotientNatural(n, Pow2(width));
  }

  lemma {:induction false} NothingInside(accumulator: nat, bits: nat, bytes: ByteString, width: nat)
    ensures StillInside(accumulator, bits, bytes, 0, width) == []
  {
  }
}
