/**
 The codecs for row lists and token positions: variable-length integers (unsigned
 LEB128, section 7.6 of DWARF 5), ascending lists as differences in bit-packed blocks
 of 128 with a variable-length tail, and position lists one after the other
 (src/search/codec.rs).
 */
module ListCodec {
  import opened Wrappers
  import opened Bytes
  import opened BitArithmetic
  import opened BitPacking
  import opened Widths

  const BLOCK_LEN: nat := 128

  datatype CodecError = Truncated | InvalidVint | BadBlock(error: PackError) | TrailingBytes

  /** A value read from the front of a byte string, and what follows it. */
  datatype Read<+T> = Read(value: T, rest: ByteString)

  // ---- variable-length integers ----

  /** Seven bits a byte, low bits first; every byte but the last has its high bit set. */
  function VintBytes(value: nat): ByteString {
    if value >= 128 then [128 + value % 128] + VintBytes(value / 128) else [value]
  }

  lemma {:induction false} TopBit(low: nat, high: bool, k: nat)
    requires low < Pow2(k)
    ensures var n := if high then low + Pow2(k) else low;
            BitOr(n, Pow2(k)) == low + Pow2(k) && BitAnd(n, Pow2(k)) == if high then Pow2(k) else 0
  {
    if k == 0 {
      assert BitOr(0, 0) == 0 && BitOr(0, 1) == 1 && BitOr(1, 1) == 1;
      assert BitAnd(0, 1) == 0 && BitAnd(1, 1) == 1;
    } else {
      TopBit(low / 2, high, k - 1);
      var n := if high then low + Pow2(k) else low;
      assert Pow2(k) == 2 * Pow2(k - 1);
      assert n / 2 == (if high then low / 2 + Pow2(k - 1) else low / 2) && n % 2 == low % 2;
    }
  }

  lemma {:induction false} SevenBits()
    ensures Pow2(7) == 128
  {
  }

  lemma {:induction false} SevenRight(n: nat)
    ensures ShiftRight(n, 7) == n / 128
  {
    hide Pow2;
    SevenBits();
  }

  lemma {:induction false} HighBit(byte: Byte)
    ensures BitOr(byte, 0x80) == 128 + byte % 128
    ensures BitAnd(byte, 0x80) == if byte < 128 then 0 else 128
  {
    hide *;
    SevenBits();
    if byte < 128 {
      TopBit(byte, false, 7);
    } else {
      TopBit(byte - 128, true, 7);
    }
  }

  lemma {:induction false} ByteBits(byte: Byte)
    ensures BitOr(byte, 0x80) == 128 + byte % 128
    ensures BitAnd(byte, 0x7f) == byte % 128
    ensures BitAnd(byte, 0x80) == 0 <==> byte < 128
  {
    hide *;
    SevenBits();
    HighBit(byte);
    AndMask(byte, 7);
  }

  lemma {:induction false} VintUnfold(value: nat)
    ensures value < 128 ==> VintBytes(value) == [value]
    ensures value >= 128 ==> VintBytes(value) == [128 + value % 128] + VintBytes(value / 128)
  {
  }

  lemma {:induction false} VintNext(bytes: ByteString, left: nat)
    requires left >= 0x80
    ensures BitOr(left % 256, 0x80) < 256 && ShiftRight(left, 7) < left
    ensures bytes + VintBytes(left) == (bytes + [BitOr(left % 256, 0x80)]) + VintBytes(ShiftRight(left, 7))
  {
    hide *;
    SevenRight(left);
    VintUnfold(left);
    ByteBits(left % 256);
    LowBits(left);
    OneByteOn(bytes, 128 + left % 128, VintBytes(left / 128));
  }

  lemma {:induction false} LowBits(n: nat)
    ensures n % 256 % 128 == n % 128
  {
  }

  lemma {:induction false} OneByteOn(bytes: ByteString, byte: Byte, rest: ByteString)
    ensures bytes + ([byte] + rest) == (bytes + [byte]) + rest
  {
  }

  /** `put_vint`. */
  method PutVint(out: ByteString, value: nat) returns (bytes: ByteString)
    requires value <= U32_MAX
    ensures bytes == out + VintBytes(value)
  {
    bytes := out;
    var left := value;
    hide *;
    while left >= 0x80
      invariant out + VintBytes(value) == bytes + VintBytes(left)
    {
      VintNext(bytes, left);
      bytes := bytes + [BitOr(left % 256, 0x80)];
      left := ShiftRight(left, 7);
    }
    VintUnfold(left);
    bytes := bytes + [left];
  }

  function VintStep(value: nat, byte: Byte, shift: nat): nat {
    BitOr(value, ShiftLeft(BitAnd(byte, 0x7f), shift, 32))
  }

  /** The loop of `read_vint` from a partial value on. */
  function ReadVintFrom(bytes: ByteString, value: nat, shift: nat): Result<Read<nat>, CodecError> {
    if bytes == [] then Err(Truncated)
    else if BitAnd(bytes[0], 0x80) == 0 then Ok(Read(VintStep(value, bytes[0], shift), bytes[1..]))
    else if shift + 7 >= 32 then Err(InvalidVint)
    else ReadVintFrom(bytes[1..], VintStep(value, bytes[0], shift), shift + 7)
  }

  lemma {:induction false} VintStepAdds(value: nat, byte: Byte, shift: nat)
    requires shift <= 32 && value < Pow2(shift) && byte % 128 < Pow2(32 - shift)
    ensures VintStep(value, byte, shift) == value + (byte % 128) * Pow2(shift)
  {
    hide Pow2, BitOr, BitAnd;
    ByteBits(byte);
    var low := byte % 128;
    Pow2Add(32 - shift, shift);
    ProductBelow(0, Pow2(shift), low, Pow2(32 - shift));
    SmallMod(low * Pow2(shift), Pow2(32));
    OrAbove(value, low, shift);
  }

  lemma {:induction false} VintStepped(byte: Byte, rest: ByteString, value: nat, shift: nat)
    ensures ReadVintFrom([byte] + rest, value, shift)
         == if byte < 128 then Ok(Read(VintStep(value, byte, shift), rest))
            else if shift + 7 >= 32 then Err(InvalidVint)
            else ReadVintFrom(rest, VintStep(value, byte, shift), shift + 7)
  {
    ByteBits(byte);
    assert ([byte] + rest)[1..] == rest;
  }

  lemma {:induction false} VintFromRoundTrip(v: nat, value: nat, shift: nat, rest: ByteString)
    requires shift <= 32 && value < Pow2(shift) && v < Pow2(32 - shift)
    ensures ReadVintFrom(VintBytes(v) + rest, value, shift) == Ok(Read(value + v * Pow2(shift), rest))
    decreases v
  {
    hide Pow2, VintStep, VintBytes, ReadVintFrom;
    VintUnfold(v);
    if v >= 128 {
      var byte := 128 + v % 128;
      RoomForSeven(v, shift);
      LowSeven(v, value, shift);
      var next := value + (v % 128) * Pow2(shift);
      VintStepAdds(value, byte, shift);
      VintFromRoundTrip(v / 128, next, shift + 7, rest);
      VintStepped(byte, VintBytes(v / 128) + rest, value, shift);
      assert VintBytes(v) + rest == [byte] + (VintBytes(v / 128) + rest);
    } else {
      VintStepAdds(value, v, shift);
      VintStepped(v, rest, value, shift);
    }
  }

  lemma {:induction false} RoomForSeven(v: nat, shift: nat)
    requires shift <= 32 && 128 <= v < Pow2(32 - shift)
    ensures shift + 7 < 32 && v / 128 < Pow2(32 - (shift + 7))
  {
    assert Pow2(7) == 128;
    hide Pow2;
    if shift + 7 < 32 {
      Pow2Add(7, 32 - (shift + 7));
    } else {
      Pow2Monotone(32 - shift, 7);
    }
  }

  lemma {:induction false} LowSeven(v: nat, value: nat, shift: nat)
    requires value < Pow2(shift)
    ensures value + (v % 128) * Pow2(shift) < Pow2(shift + 7)
    ensures value + (v % 128) * Pow2(shift) + (v / 128) * Pow2(shift + 7) == value + v * Pow2(shift)
  {
    assert Pow2(7) == 128;
    hide Pow2;
    Pow2Add(shift, 7);
    ProductBelow(value, Pow2(shift), v % 128, 128);
    Regroup(value, Pow2(shift), v % 128, 128, v / 128);
  }

  function ReadVint(bytes: ByteString): Result<Read<nat>, CodecError> {
    ReadVintFrom(bytes, 0, 0)
  }

  /** Every u32 comes back, and the bytes after it are left alone. */
  lemma {:induction false} VintRoundTrip(v: nat, rest: ByteString)
    requires v <= U32_MAX
    ensures ReadVint(VintBytes(v) + rest) == Ok(Read(v, rest))
  {
    U32Pow();
    assert Pow2(0) == 1;
    VintFromRoundTrip(v, 0, 0, rest);
  }

  lemma {:induction false} U32Pow()
    ensures Pow2(32) == U32_MAX + 1
  {
    assert Pow2(8) == 256;
    hide Pow2;
    Pow2Add(8, 8);
    Pow2Add(16, 16);
  }

  // ---- differences ----

  predicate AllU32(values: seq<nat>) {
    forall i :: 0 <= i < |values| ==> values[i] <= U32_MAX
  }

  predicate Ascending(values: seq<nat>) {
    forall i, j :: 0 <= i < j < |values| ==> values[i] <= values[j]
  }

  function Deltas(values: seq<nat>, previous: nat): (deltas: seq<nat>)
    ensures |deltas| == |values|
  {
    if values == [] then [] else [SaturatingSub(values[0], previous)] + Deltas(values[1..], values[0])
  }

  function RunningSums(deltas: seq<nat>, previous: nat): (values: seq<nat>)
    ensures |values| == |deltas|
  {
    if deltas == [] then []
    else
      var next := SaturatingAdd(previous, deltas[0], U32_MAX);
      [next] + RunningSums(deltas[1..], next)
  }

  lemma {:induction false} DeltasInvert(values: seq<nat>, previous: nat)
    requires AllU32(values) && Ascending(values) && (values != [] ==> previous <= values[0])
    ensures AllU32(Deltas(values, previous))
    ensures RunningSums(Deltas(values, previous), previous) == values
  {
    if values != [] {
      DeltasInvert(values[1..], values[0]);
      assert values == [values[0]] + values[1..];
      assert Deltas(values, previous)[1..] == Deltas(values[1..], values[0]);
    }
  }

  lemma {:induction false} DeltasSmall(values: seq<nat>, previous: nat)
    requires AllU32(values)
    ensures AllU32(Deltas(values, previous))
  {
    if values != [] {
      DeltasSmall(values[1..], values[0]);
    }
  }

  lemma {:induction false} SumsAscend(deltas: seq<nat>, previous: nat)
    requires previous <= U32_MAX
    ensures Ascending(RunningSums(deltas, previous))
    ensures forall i :: 0 <= i < |deltas| ==> previous <= RunningSums(deltas, previous)[i] <= U32_MAX
  {
    if deltas != [] {
      SumsAscend(deltas[1..], SaturatingAdd(previous, deltas[0], U32_MAX));
    }
  }

  lemma {:induction false} DeltasAppend(values: seq<nat>, last: nat, previous: nat)
    ensures Deltas(values + [last], previous)
         == Deltas(values, previous) + [SaturatingSub(last, if values == [] then previous else values[|values| - 1])]
  {
    if values == [] {
    } else {
      DeltasAppend(values[1..], last, values[0]);
      assert (values + [last])[1..] == values[1..] + [last];
    }
  }

  // ---- blocks ----

  /** `bit_width`: the bits of a u32 below its leading zeros. */
  function BitWidth(n: nat): nat {
    if n == 0 then 0 else 1 + BitWidth(n / 2)
  }

  lemma {:induction false} BitWidthFits(n: nat)
    ensures n < Pow2(BitWidth(n))
    ensures n > 0 ==> BitWidth(n) > 0 && Pow2(BitWidth(n) - 1) <= n
  {
    if n > 0 {
      BitWidthFits(n / 2);
    }
  }

  lemma {:induction false} BitWidthOfU32(n: nat)
    requires n <= U32_MAX
    ensures BitWidth(n) <= 32
  {
    BitWidthFits(n);
    U32Pow();
    if BitWidth(n) > 32 {
      Pow2Monotone(32, BitWidth(n) - 1);
    }
  }

  function MaxOf(values: seq<nat>): (max: nat)
    ensures forall i :: 0 <= i < |values| ==> values[i] <= max
    ensures max == 0 || max in values
  {
    if values == [] then 0
    else
      var rest := MaxOf(values[1..]);
      if values[0] > rest then values[0] else rest
  }

  function BlockBytes(block: seq<nat>): ByteString
    requires AllU32(block)
  {
    BitWidthOfU32(MaxOf(block));
    [BitWidth(MaxOf(block))] + Packed(block, BitWidth(MaxOf(block)))
  }

  function TailBytes(deltas: seq<nat>): ByteString {
    if deltas == [] then [] else VintBytes(deltas[0]) + TailBytes(deltas[1..])
  }

  /** Full blocks, then the tail. */
  function DeltaBytes(deltas: seq<nat>): ByteString
    requires AllU32(deltas)
    decreases |deltas|
  {
    if |deltas| < BLOCK_LEN then TailBytes(deltas)
    else BlockBytes(deltas[..BLOCK_LEN]) + DeltaBytes(deltas[BLOCK_LEN..])
  }

  function EncodedList(values: seq<nat>): ByteString
    requires AllU32(values)
  {
    DeltasSmall(values, 0);
    DeltaBytes(Deltas(values, 0))
  }

  // ---- reading ----

  function ReadSlice(bytes: ByteString, len: nat): Result<Read<ByteString>, CodecError> {
    if len <= |bytes| then Ok(Read(bytes[..len], bytes[len..])) else Err(Truncated)
  }

  function ReadByte(bytes: ByteString): Result<Read<Byte>, CodecError> {
    if bytes == [] then Err(Truncated) else Ok(Read(bytes[0], bytes[1..]))
  }

  function ReadBlock(bytes: ByteString): Result<Read<seq<nat>>, CodecError> {
    match ReadByte(bytes)
    case Err(e) => Err(e)
    case Ok(Read(width, afterWidth)) =>
      match ReadSlice(afterWidth, PackedLen(BLOCK_LEN, width))
      case Err(e) => Err(e)
      case Ok(Read(packed, rest)) =>
        match Unpack(packed, BLOCK_LEN, width)
        case Err(e) => Err(BadBlock(e))
        case Ok(values) => Ok(Read(values, rest))
  }

  function ReadTail(bytes: ByteString, count: nat): Result<Read<seq<nat>>, CodecError>
    decreases count
  {
    if count == 0 then Ok(Read([], bytes))
    else
      match ReadVint(bytes)
      case Err(e) => Err(e)
      case Ok(Read(first, afterFirst)) =>
        match ReadTail(afterFirst, count - 1)
        case Err(e) => Err(e)
        case Ok(Read(others, rest)) => Ok(Read([first] + others, rest))
  }

  function ReadDeltas(bytes: ByteString, count: nat): Result<Read<seq<nat>>, CodecError>
    decreases count
  {
    if count < BLOCK_LEN then ReadTail(bytes, count)
    else
      match ReadBlock(bytes)
      case Err(e) => Err(e)
      case Ok(Read(block, afterBlock)) =>
        match ReadDeltas(afterBlock, count - BLOCK_LEN)
        case Err(e) => Err(e)
        case Ok(Read(others, rest)) => Ok(Read(block + others, rest))
  }

  /** What `read_u32_list` reads. */
  function ReadList(bytes: ByteString, count: nat): Result<Read<seq<nat>>, CodecError> {
    Summed(ReadDeltas(bytes, count))
  }

  function Summed(deltas: Result<Read<seq<nat>>, CodecError>): Result<Read<seq<nat>>, CodecError> {
    match deltas
    case Err(e) => Err(e)
    case Ok(read) => Ok(Read(RunningSums(read.value, 0), read.rest))
  }

  // ---- round trips ----

  lemma {:induction false} BlockRoundTrip(block: seq<nat>, rest: ByteString)
    requires AllU32(block) && |block| == BLOCK_LEN
    ensures ReadBlock(BlockBytes(block) + rest) == Ok(Read(block, rest))
  {
    var width := BitWidth(MaxOf(block));
    BitWidthOfU32(MaxOf(block));
    BitWidthFits(MaxOf(block));
    assert BlockBytes(block) == [width] + Packed(block, width);
    hide Packed, Unpack, PackedLen, BitWidth, MaxOf, Pow2, BlockBytes;
    assert Fits(block, width) by {
      forall i | 0 <= i < |block|
        ensures block[i] < Pow2(width)
      {
        assert block[i] <= MaxOf(block);
      }
    }
    PackedRoundTrip(block, width);
    hide Fits;
    ReadBack(width, Packed(block, width), block, rest);
  }

  /** A width byte and packed bytes of the right length read as what they unpack to. */
  lemma {:induction false} ReadBack(width: Byte, packed: ByteString, block: seq<nat>, rest: ByteString)
    requires |packed| == PackedLen(BLOCK_LEN, width) && Unpack(packed, BLOCK_LEN, width) == Ok(block)
    ensures ReadBlock(([width] + packed) + rest) == Ok(Read(block, rest))
  {
    hide Unpack, PackedLen;
    var bytes := ([width] + packed) + rest;
    assert bytes[0] == width && bytes[1..] == packed + rest;
    assert (packed + rest)[..|packed|] == packed && (packed + rest)[|packed|..] == rest;
  }

  lemma {:induction false} TailRoundTrip(deltas: seq<nat>, rest: ByteString)
    requires AllU32(deltas)
    ensures ReadTail(TailBytes(deltas) + rest, |deltas|) == Ok(Read(deltas, rest))
  {
    hide ReadVint, VintBytes;
    if deltas == [] {
      assert TailBytes(deltas) + rest == rest;
    } else {
      TailRoundTrip(deltas[1..], rest);
      VintRoundTrip(deltas[0], TailBytes(deltas[1..]) + rest);
      assert TailBytes(deltas) + rest == VintBytes(deltas[0]) + (TailBytes(deltas[1..]) + rest);
      assert deltas == [deltas[0]] + deltas[1..];
    }
  }

  lemma {:induction false} DeltasRoundTrip(deltas: seq<nat>, rest: ByteString)
    requires AllU32(deltas)
    ensures ReadDeltas(DeltaBytes(deltas) + rest, |deltas|) == Ok(Read(deltas, rest))
    decreases |deltas|
  {
    hide ReadTail, TailBytes, ReadBlock, BlockBytes;
    if |deltas| < BLOCK_LEN {
      TailRoundTrip(deltas, rest);
    } else {
      var block, others := deltas[..BLOCK_LEN], deltas[BLOCK_LEN..];
      DeltasRoundTrip(others, rest);
      BlockRoundTrip(block, DeltaBytes(others) + rest);
      assert DeltaBytes(deltas) + rest == BlockBytes(block) + (DeltaBytes(others) + rest);
      assert deltas == block + others;
    }
  }

  /**
   A list of u32s comes back unchanged, whatever bytes follow it, exactly when it is
   ascending; that is all the encoder may be given.
   */
  lemma {:induction false} ListRoundTrip(values: seq<nat>, rest: ByteString)
    requires AllU32(values)
    ensures ReadList(EncodedList(values) + rest, |values|) == Ok(Read(values, rest)) <==> Ascending(values)
  {
    DeltasSmall(values, 0);
    DeltasRoundTrip(Deltas(values, 0), rest);
    SumsAscend(Deltas(values, 0), 0);
    if Ascending(values) {
      DeltasInvert(values, 0);
    }
  }

  // ---- the encoder's loops ----

  lemma {:induction false} BlockSplit(deltas: seq<nat>, k: nat)
    requires AllU32(deltas) && k + BLOCK_LEN <= |deltas|
    ensures DeltaBytes(deltas[k..]) == BlockBytes(deltas[k..k + BLOCK_LEN]) + DeltaBytes(deltas[k + BLOCK_LEN..])
  {
    assert deltas[k..][..BLOCK_LEN] == deltas[k..k + BLOCK_LEN];
    assert deltas[k..][BLOCK_LEN..] == deltas[k + BLOCK_LEN..];
  }

  lemma {:induction false} TailSplit(deltas: seq<nat>, k: nat)
    requires k < |deltas|
    ensures TailBytes(deltas[k..]) == VintBytes(deltas[k]) + TailBytes(deltas[k + 1..])
  {
    assert deltas[k..][1..] == deltas[k + 1..];
  }

  method DeltasOf(values: seq<nat>) returns (deltas: seq<nat>)
    ensures deltas == Deltas(values, 0)
  {
    deltas := [];
    var previous := 0;
    hide Deltas;
    assert Deltas([], 0) == [] by { NoDeltas(); }
    for i := 0 to |values|
      invariant deltas == Deltas(values[..i], 0)
      invariant previous == if i == 0 then 0 else values[i - 1]
    {
      DeltasAppend(values[..i], values[i], 0);
      assert values[..i + 1] == values[..i] + [values[i]];
      deltas := deltas + [SaturatingSub(values[i], previous)];
      previous := values[i];
    }
    assert values[..|values|] == values;
  }

  lemma {:induction false} NoDeltas()
    ensures Deltas([], 0) == []
  {
  }

  /** One block of the encoder: its width, then its bits. */
  method PutBlock(out: ByteString, block: seq<nat>) returns (bytes: ByteString)
    requires AllU32(block)
    ensures bytes == out + BlockBytes(block)
  {
    var width := BitWidth(MaxOf(block));
    BitWidthOfU32(MaxOf(block));
    BitWidthFits(MaxOf(block));
    hide Packed, BitWidth, Pow2;
    assert Fits(block, width);
    bytes := PackBits(block, width, out + [width]);
    assert out + ([width] + Packed(block, width)) == (out + [width]) + Packed(block, width);
  }

  method PutTail(out: ByteString, deltas: seq<nat>) returns (bytes: ByteString)
    requires AllU32(deltas)
    ensures bytes == out + TailBytes(deltas)
  {
    bytes := out;
    assert deltas[0..] == deltas;
    hide TailBytes, VintBytes;
    for k := 0 to |deltas|
      invariant out + TailBytes(deltas) == bytes + TailBytes(deltas[k..])
    {
      TailSplit(deltas, k);
      ghost var rest := TailBytes(deltas[k + 1..]);
      assert bytes + (VintBytes(deltas[k]) + rest) == (bytes + VintBytes(deltas[k])) + rest;
      bytes := PutVint(bytes, deltas[k]);
    }
    assert deltas[|deltas|..] == [];
    NoTail();
  }

  lemma {:induction false} Moved(done: ByteString, next: ByteString, rest: ByteString)
    ensures done + (next + rest) == (done + next) + rest
  {
  }

  lemma {:induction false} DeltasEncode(values: seq<nat>)
    requires AllU32(values)
    ensures AllU32(Deltas(values, 0)) && EncodedList(values) == DeltaBytes(Deltas(values, 0))
  {
    DeltasSmall(values, 0);
    hide DeltaBytes, Deltas;
  }

  /** `encode_u32_list`. */
  method EncodeU32List(values: seq<nat>) returns (out: ByteString)
    requires AllU32(values)
    ensures out == EncodedList(values)
  {
    var deltas := DeltasOf(values);
    DeltasSmall(values, 0);
    out := [];
    assert deltas[0..] == deltas;
    DeltasEncode(values);
    hide *;
    var done := 0;
    while done + BLOCK_LEN <= |deltas|
      invariant done <= |deltas|
      invariant EncodedList(values) == out + DeltaBytes(deltas[done..])
    {
      BlockSplit(deltas, done);
      var block := deltas[done..done + BLOCK_LEN];
      Moved(out, BlockBytes(block), DeltaBytes(deltas[done + BLOCK_LEN..]));
      out := PutBlock(out, block);
      done := done + BLOCK_LEN;
    }
    ShortTail(deltas[done..]);
    out := PutTail(out, deltas[done..]);
  }

  lemma {:induction false} ShortTail(deltas: seq<nat>)
    requires AllU32(deltas) && |deltas| < BLOCK_LEN
    ensures DeltaBytes(deltas) == TailBytes(deltas)
  {
  }

  lemma {:induction false} NoTail()
    ensures TailBytes([]) == []
  {
  }

  // ---- the reader ----

  /** What a reader call returns and leaves behind, by the function that specifies it. */
  ghost predicate Agrees<T>(result: Result<T, CodecError>, remaining: ByteString, spec: Result<Read<T>, CodecError>) {
    match spec
    case Err(e) => result == Err(e)
    case Ok(read) => result == Ok(read.value) && remaining == read.rest
  }

  /** `deltas` were read, and `next` is what reading on gives. */
  ghost predicate Continues(spec: Result<Read<seq<nat>>, CodecError>, deltas: seq<nat>, next: Result<Read<seq<nat>>, CodecError>) {
    match next
    case Err(e) => spec == Err(e)
    case Ok(read) => spec == Ok(Read(deltas + read.value, read.rest))
  }

  lemma {:induction false} ReadBlockNext(spec: Result<Read<seq<nat>>, CodecError>, deltas: seq<nat>, bytes: ByteString, count: nat)
    requires count >= BLOCK_LEN && Continues(spec, deltas, ReadDeltas(bytes, count))
    ensures match ReadBlock(bytes)
            case Err(e) => spec == Err(e)
            case Ok(read) => |read.value| == BLOCK_LEN && Continues(spec, deltas + read.value, ReadDeltas(read.rest, count - BLOCK_LEN))
  {
    if ReadBlock(bytes).Ok? {
      var read := ReadBlock(bytes).value;
      var more := ReadDeltas(read.rest, count - BLOCK_LEN);
      if more.Ok? {
        assert deltas + (read.value + more.value.value) == (deltas + read.value) + more.value.value;
      }
    }
  }

  lemma {:induction false} ReadVintNext(spec: Result<Read<seq<nat>>, CodecError>, deltas: seq<nat>, bytes: ByteString, count: nat)
    requires 0 < count && Continues(spec, deltas, ReadTail(bytes, count))
    ensures match ReadVint(bytes)
            case Err(e) => spec == Err(e)
            case Ok(read) => Continues(spec, deltas + [read.value], ReadTail(read.rest, count - 1))
  {
    hide ReadVint;
    if ReadVint(bytes).Ok? {
      var read := ReadVint(bytes).value;
      var more := ReadTail(read.rest, count - 1);
      if more.Ok? {
        assert deltas + ([read.value] + more.value.value) == (deltas + [read.value]) + more.value.value;
      }
    }
  }

  lemma {:induction false} SumsAppend(deltas: seq<nat>, last: nat, previous: nat)
    ensures RunningSums(deltas + [last], previous)
         == RunningSums(deltas, previous)
          + [SaturatingAdd(if deltas == [] then previous else RunningSums(deltas, previous)[|deltas| - 1], last, U32_MAX)]
  {
    if deltas == [] {
    } else {
      var next := SaturatingAdd(previous, deltas[0], U32_MAX);
      SumsAppend(deltas[1..], last, next);
      assert (deltas + [last])[1..] == deltas[1..] + [last];
    }
  }

  /** The sum so far, as the reader keeps it. */
  ghost function LastSum(deltas: seq<nat>): nat {
    if deltas == [] then 0 else RunningSums(deltas, 0)[|deltas| - 1]
  }

  /** The inner loop of `read_u32_list`: one block's differences onto the values so far. */
  method AddBlock(values: seq<nat>, previous: nat, block: seq<nat>, ghost before: seq<nat>) returns (sums: seq<nat>, last: nat)
    requires values == RunningSums(before, 0) && previous == LastSum(before)
    ensures sums == RunningSums(before + block, 0) && last == LastSum(before + block)
  {
    sums, last := values, previous;
    assert before + block[..0] == before;
    hide RunningSums;
    for i := 0 to |block|
      invariant sums == RunningSums(before + block[..i], 0) && last == LastSum(before + block[..i])
    {
      AddOne(before + block[..i], block[i]);
      assert (before + block[..i]) + [block[i]] == before + block[..i + 1];
      last := SaturatingAdd(last, block[i], U32_MAX);
      sums := sums + [last];
    }
    assert block[..|block|] == block;
  }

  lemma {:induction false} AddOne(deltas: seq<nat>, delta: nat)
    ensures RunningSums(deltas + [delta], 0) == RunningSums(deltas, 0) + [SaturatingAdd(LastSum(deltas), delta, U32_MAX)]
    ensures LastSum(deltas + [delta]) == SaturatingAdd(LastSum(deltas), delta, U32_MAX)
  {
    SumsAppend(deltas, delta, 0);
  }

  class ByteReader {
    const bytes: ByteString
    var offset: nat

    ghost predicate Valid()
      reads this
    {
      offset <= |bytes|
    }

    ghost function Remaining(): ByteString
      requires Valid()
      reads this
    {
      bytes[offset..]
    }

    constructor (bytes: ByteString)
      ensures Valid() && this.bytes == bytes && Remaining() == bytes
    {
      this.bytes := bytes;
      offset := 0;
    }

    method TakeByte() returns (result: Result<Byte, CodecError>)
      requires Valid()
      modifies this
      ensures Valid() && Agrees(result, Remaining(), ReadByte(old(Remaining())))
    {
      if offset >= |bytes| {
        return Err(Truncated);
      }
      result := Ok(bytes[offset]);
      offset := offset + 1;
    }

    method ExpectDone() returns (done: bool)
      requires Valid()
      ensures done <==> Remaining() == []
    {
      done := offset == |bytes|;
    }

    method TakeSlice(len: nat) returns (result: Result<ByteString, CodecError>)
      requires Valid()
      modifies this
      ensures Valid() && Agrees(result, Remaining(), ReadSlice(old(Remaining()), len))
    {
      var end := offset + len;
      if end > |bytes| {
        return Err(Truncated);
      }
      result := Ok(bytes[offset..end]);
      assert bytes[offset..][..len] == bytes[offset..end];
      assert bytes[offset..][len..] == bytes[end..];
      offset := end;
    }

    /** `read_vint`. */
    method TakeVint() returns (result: Result<nat, CodecError>)
      requires Valid()
      modifies this
      ensures Valid() && Agrees(result, Remaining(), ReadVint(old(Remaining())))
    {
      var value, shift := 0, 0;
      hide BitAnd, VintStep;
      while true
        invariant Valid() && shift < 32
        invariant ReadVintFrom(Remaining(), value, shift) == ReadVint(old(Remaining()))
        decreases 32 - shift
      {
        ghost var here := Remaining();
        var byte := TakeByte();
        if byte.Err? {
          return Err(byte.error);
        }
        value := VintStep(value, byte.value, shift);
        if BitAnd(byte.value, 0x80) == 0 {
          return Ok(value);
        }
        shift := shift + 7;
        if shift >= 32 {
          return Err(InvalidVint);
        }
      }
    }

    method TakeBlock() returns (result: Result<seq<nat>, CodecError>)
      requires Valid()
      modifies this
      ensures Valid() && Agrees(result, Remaining(), ReadBlock(old(Remaining())))
    {
      hide Unpack, PackedLen;
      var width := TakeByte();
      if width.Err? {
        return Err(width.error);
      }
      var packed := TakeSlice(PackedLen(BLOCK_LEN, width.value));
      if packed.Err? {
        return Err(packed.error);
      }
      var block := UnpackBits(packed.value, BLOCK_LEN, width.value);
      if block.Err? {
        return Err(BadBlock(block.error));
      }
      return Ok(block.value);
    }

    /** `read_u32_list`: full blocks first. */
    method TakeU32List(count: nat) returns (result: Result<seq<nat>, CodecError>)
      requires Valid()
      modifies this
      ensures Valid() && Agrees(result, Remaining(), ReadList(old(Remaining()), count))
    {
      var values: seq<nat>, previous: nat, left: nat := [], 0, count;
      ghost var deltas: seq<nat> := [];
      ghost var spec := ReadDeltas(Remaining(), count);
      assert ReadList(Remaining(), count) == Summed(spec);
      ListStart(Remaining(), count);
      hide *;
      while left >= BLOCK_LEN
        invariant Valid()
        invariant Continues(spec, deltas, ReadDeltas(Remaining(), left))
        invariant values == RunningSums(deltas, 0) && previous == LastSum(deltas)
      {
        ReadBlockNext(spec, deltas, Remaining(), left);
        ghost var here := Remaining();
        var block := TakeBlock();
        AgreesCases(block, Remaining(), ReadBlock(here));
        if block.Err? {
          FailedList(spec, block.error, Remaining());
          return Err(block.error);
        }
        values, previous := AddBlock(values, previous, block.value, deltas);
        deltas := deltas + block.value;
        left := left - BLOCK_LEN;
      }
      TailFollows(Remaining(), left);
      result := TakeTail(left, values, previous, deltas, spec);
    }

    /** `read_u32_list`: then the tail. */
    method TakeTail(count: nat, sums: seq<nat>, last: nat, ghost before: seq<nat>, ghost spec: Result<Read<seq<nat>>, CodecError>)
      returns (result: Result<seq<nat>, CodecError>)
      requires Valid() && Continues(spec, before, ReadTail(Remaining(), count))
      requires sums == RunningSums(before, 0) && last == LastSum(before)
      modifies this
      ensures Valid() && Agrees(result, Remaining(), Summed(spec))
    {
      var values: seq<nat>, previous: nat, left: nat := sums, last, count;
      ghost var deltas := before;
      hide *;
      while left > 0
        invariant Valid()
        invariant Continues(spec, deltas, ReadTail(Remaining(), left))
        invariant values == RunningSums(deltas, 0) && previous == LastSum(deltas)
      {
        ReadVintNext(spec, deltas, Remaining(), left);
        ghost var here := Remaining();
        var delta := TakeVint();
        AgreesCases(delta, Remaining(), ReadVint(here));
        if delta.Err? {
          FailedList(spec, delta.error, Remaining());
          return Err(delta.error);
        }
        AddOne(deltas, delta.value);
        previous := SaturatingAdd(previous, delta.value, U32_MAX);
        values := values + [previous];
        deltas := deltas + [delta.value];
        left := left - 1;
      }
      ListEnd(spec, deltas, Remaining());
      return Ok(values);
    }
  }

  lemma {:induction false} AgreesCases<T>(result: Result<T, CodecError>, remaining: ByteString, spec: Result<Read<T>, CodecError>)
    requires Agrees(result, remaining, spec)
    ensures result.Err? ==> spec == Err(result.error)
    ensures result.Ok? ==> spec == Ok(Read(result.value, remaining))
  {
  }

  lemma {:induction false} FailedList(spec: Result<Read<seq<nat>>, CodecError>, error: CodecError, remaining: ByteString)
    requires spec == Err(error)
    ensures Agrees(Err(error), remaining, Summed(spec))
  {
  }

  lemma {:induction false} ListStart(bytes: ByteString, count: nat)
    ensures Continues(ReadDeltas(bytes, count), [], ReadDeltas(bytes, count))
    ensures RunningSums([], 0) == [] && LastSum([]) == 0
  {
    var next := ReadDeltas(bytes, count);
    if next.Ok? {
      assert [] + next.value.value == next.value.value;
    }
  }

  lemma {:induction false} TailFollows(bytes: ByteString, count: nat)
    requires count < BLOCK_LEN
    ensures ReadDeltas(bytes, count) == ReadTail(bytes, count)
  {
  }

  lemma {:induction false} ListEnd(spec: Result<Read<seq<nat>>, CodecError>, deltas: seq<nat>, bytes: ByteString)
    requires Continues(spec, deltas, ReadTail(bytes, 0))
    ensures Agrees(Ok(RunningSums(deltas, 0)), bytes, Summed(spec))
  {
    assert deltas + [] == deltas;
  }

  /** The layout: 128 differences behind one byte with their width, a full block of 16 bytes for each bit; fewer than 128 at the end one by one. */
  lemma {:induction false} ListLayout(values: seq<nat>)
    requires AllU32(values)
    ensures |values| < 128 ==> EncodedList(values) == TailBytes(Deltas(values, 0))
    ensures |values| >= 128 ==>
      var bytes, width := EncodedList(values), BitWidth(MaxOf(Deltas(values, 0)[..128]));
      AllU32(Deltas(values, 0)[128..]) && |bytes| > 16 * width && bytes[0] == width
      && bytes[1 + 16 * width..] == DeltaBytes(Deltas(values, 0)[128..])
  {
    DeltasSmall(values, 0);
    var deltas := Deltas(values, 0);
    if |values| >= 128 {
      var block := deltas[..128];
      var width := BitWidth(MaxOf(block));
      BitWidthOfU32(MaxOf(block));
      hide DeltaBytes, MaxOf, BitWidth, Packed, Deltas;
      assert EncodedList(values) == BlockBytes(block) + DeltaBytes(deltas[128..]) by { DeltaBlock(deltas); }
      PackedSize(block, width);
      assert |BlockBytes(block)| == 1 + 16 * width;
    }
  }

  lemma {:induction false} DeltaBlock(deltas: seq<nat>)
    requires AllU32(deltas) && |deltas| >= 128
    ensures AllU32(deltas[..128]) && AllU32(deltas[128..])
    ensures DeltaBytes(deltas) == BlockBytes(deltas[..128]) + DeltaBytes(deltas[128..])
  {
    hide BlockBytes;
  }

  lemma {:induction false} PackedSize(block: seq<nat>, width: nat)
    requires |block| == 128
    ensures |Packed(block, width)| == 16 * width
  {
  }
}
