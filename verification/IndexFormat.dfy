/**
 The binary layout of a search index: header, directory of row groups, then each group's
 dictionary, term infos, postings and positions (src/search/codec.rs).

 Byte strings under construction are written "front first": `XThen(x, rest)` is the
 encoding of x followed by `rest`, the form in which the reader meets it.
 */
module IndexFormat {
  import opened Wrappers
  import opened Bytes
  import opened BitArithmetic
  import opened BitPacking
  import opened ListCodec
  import opened SearchIndexData

  const HEADER_LEN: nat := 24

  const MAGIC: ByteString := Ascii("KDBFTS3") + [0]

  const U64_LIMIT: nat := 0x1_0000_0000_0000_0000

  /** The `fst` crate's bytes for a sorted dictionary, read back by `Map::new`. */
  datatype FstCodec = FstCodec(write: seq<ByteString> -> ByteString, read: ByteString -> Option<seq<ByteString>>)

  /** Nothing is no dictionary: `Map::new` refuses bytes too short for its header. */
  ghost predicate RefusesNothing(codec: FstCodec) {
    codec.read([]) == None
  }

  ghost predicate Faithful(codec: FstCodec) {
    RefusesNothing(codec) && forall terms :: StrictlyIncreasing(terms) ==> codec.read(codec.write(terms)) == Some(terms)
  }

  lemma {:induction false} FaithfulRefuses(codec: FstCodec)
    requires Faithful(codec)
    ensures RefusesNothing(codec)
  {
    hide RefusesNothing;
  }

  datatype FormatError = TooLarge | WrongMagic | LengthMismatch | BadFst | Unreadable(error: CodecError)

  datatype Extent = Extent(offset: nat, len: nat)

  datatype Directory = Directory(
    minTerm: ByteString, maxTerm: ByteString, infoCount: U32, fst: Extent, infos: Extent, postings: Extent, positions: Extent)

  datatype Header = Header(rowCount: U32, keyGroups: U32, valueGroups: U32, directoryLen: U32)

  datatype IndexDirectory = IndexDirectory(rowCount: U32, keyGroups: seq<Directory>, valueGroups: seq<Directory>)

  // ---- fixed-width integers ----

  lemma {:induction false} LeValueBound(bytes: ByteString)
    ensures LeValue(bytes) < Pow2(8 * |bytes|)
  {
    if bytes == [] {
      assert Pow2(0) == 1;
    } else {
      LeValueBound(bytes[1..]);
      Pow2Add(8, 8 * |bytes[1..]|);
      assert Pow2(8) == 256;
      hide Pow2;
    }
  }

  lemma {:induction false} FourBytes()
    ensures Pow2(8 * 4) == U32_MAX + 1 && Pow2(8 * 8) == U64_LIMIT
  {
    U32Pow();
    Pow2Add(32, 32);
    hide Pow2;
  }

  function ReadU32(bytes: ByteString): Result<Read<U32>, CodecError> {
    var slice :- ReadSlice(bytes, 4);
    LeValueBound(slice.value);
    FourBytes();
    Ok(Read(LeValue(slice.value), slice.rest))
  }

  function ReadU64(bytes: ByteString): Result<Read<nat>, CodecError> {
    var slice :- ReadSlice(bytes, 8);
    Ok(Read(LeValue(slice.value), slice.rest))
  }

  lemma {:induction false} SliceFront(front: ByteString, rest: ByteString)
    ensures ReadSlice(front + rest, |front|) == Ok(Read(front, rest))
  {
    assert (front + rest)[..|front|] == front && (front + rest)[|front|..] == rest;
  }

  lemma {:induction false} U32RoundTrip(v: U32, rest: ByteString)
    ensures ReadU32(LeBytes(v, 4) + rest) == Ok(Read(v, rest))
  {
    FourBytes();
    LeRoundTrip(v, 4);
    hide Pow2, LeBytes, LeValue;
    SliceFront(LeBytes(v, 4), rest);
  }

  lemma {:induction false} U64RoundTrip(v: nat, rest: ByteString)
    requires v < U64_LIMIT
    ensures ReadU64(LeBytes(v, 8) + rest) == Ok(Read(v, rest))
  {
    FourBytes();
    LeRoundTrip(v, 8);
    hide Pow2, LeBytes, LeValue;
    SliceFront(LeBytes(v, 8), rest);
  }

  // ---- term infos ----

  function InfoThen(info: TermInfo, rest: ByteString): ByteString {
    LeBytes(info.docCount, 4)
    + (LeBytes(info.postingsOffset, 4) + (LeBytes(info.postingsLen, 4)
    + (LeBytes(info.positionsOffset, 4) + (LeBytes(info.positionsLen, 4) + rest))))
  }

  function InfosBytes(infos: seq<TermInfo>): ByteString {
    if infos == [] then [] else InfoThen(infos[0], InfosBytes(infos[1..]))
  }

  function ReadInfo(bytes: ByteString): Result<Read<TermInfo>, CodecError> {
    var a :- ReadU32(bytes);
    var b :- ReadU32(a.rest);
    var c :- ReadU32(b.rest);
    var d :- ReadU32(c.rest);
    var e :- ReadU32(d.rest);
    Ok(Read(TermInfo(a.value, b.value, c.value, d.value, e.value), e.rest))
  }

  function ReadInfos(bytes: ByteString, count: nat): Result<Read<seq<TermInfo>>, CodecError>
    decreases count
  {
    if count == 0 then Ok(Read([], bytes))
    else
      var first :- ReadInfo(bytes);
      var others :- ReadInfos(first.rest, count - 1);
      Ok(Read([first.value] + others.value, others.rest))
  }

  /** `decode_search_term_infos`. */
  function DecodeInfos(bytes: ByteString, count: nat): Result<seq<TermInfo>, FormatError> {
    if |bytes| != count * 20 then Err(LengthMismatch)
    else match ReadInfos(bytes, count)
      case Err(e) => Err(Unreadable(e))
      case Ok(read) => if read.rest == [] then Ok(read.value) else Err(Unreadable(TrailingBytes))
  }

  lemma {:induction false} InfoRoundTrip(info: TermInfo, rest: ByteString)
    ensures ReadInfo(InfoThen(info, rest)) == Ok(Read(info, rest))
    ensures |InfoThen(info, rest)| == 20 + |rest|
  {
    hide ReadU32;
    var e := LeBytes(info.positionsLen, 4) + rest;
    var d := LeBytes(info.positionsOffset, 4) + e;
    var c := LeBytes(info.postingsLen, 4) + d;
    var b := LeBytes(info.postingsOffset, 4) + c;
    U32RoundTrip(info.docCount, b);
    U32RoundTrip(info.postingsOffset, c);
    U32RoundTrip(info.postingsLen, d);
    U32RoundTrip(info.positionsOffset, e);
    U32RoundTrip(info.positionsLen, rest);
    hide LeBytes;
  }

  lemma {:induction false} ReadInfosBack(infos: seq<TermInfo>)
    ensures ReadInfos(InfosBytes(infos), |infos|) == Ok(Read(infos, []))
    ensures |InfosBytes(infos)| == |infos| * 20
  {
    hide ReadInfo, InfoThen;
    if infos != [] {
      ReadInfosBack(infos[1..]);
      InfoRoundTrip(infos[0], InfosBytes(infos[1..]));
      assert infos == [infos[0]] + infos[1..];
    }
  }

  /** Term infos come back from their fixed-width form. */
  lemma {:induction false} InfosRoundTrip(infos: seq<TermInfo>)
    ensures DecodeInfos(InfosBytes(infos), |infos|) == Ok(infos)
  {
    ReadInfosBack(infos);
    hide ReadInfos, InfosBytes;
  }

  // ---- the directory ----

  function VecThen(bytes: ByteString, rest: ByteString): ByteString {
    LeBytes(|bytes|, 4) + (bytes + rest)
  }

  function ExtentThen(extent: Extent, rest: ByteString): ByteString {
    LeBytes(extent.offset, 8) + (LeBytes(extent.len, 8) + rest)
  }

  function DirectoryThen(d: Directory, rest: ByteString): ByteString {
    VecThen(d.minTerm, VecThen(d.maxTerm, LeBytes(d.infoCount, 4) +
      ExtentThen(d.fst, ExtentThen(d.infos, ExtentThen(d.postings, ExtentThen(d.positions, rest))))))
  }

  function DirectoriesThen(ds: seq<Directory>, rest: ByteString): ByteString {
    if ds == [] then rest else DirectoryThen(ds[0], DirectoriesThen(ds[1..], rest))
  }

  function ReadVec(bytes: ByteString): Result<Read<ByteString>, CodecError> {
    var len :- ReadU32(bytes);
    ReadSlice(len.rest, len.value)
  }

  function ReadExtent(bytes: ByteString): Result<Read<Extent>, CodecError> {
    var offset :- ReadU64(bytes);
    var len :- ReadU64(offset.rest);
    Ok(Read(Extent(offset.value, len.value), len.rest))
  }

  function ReadDirectory(bytes: ByteString): Result<Read<Directory>, CodecError> {
    var minTerm :- ReadVec(bytes);
    var maxTerm :- ReadVec(minTerm.rest);
    var count :- ReadU32(maxTerm.rest);
    var fst :- ReadExtent(count.rest);
    var infos :- ReadExtent(fst.rest);
    var postings :- ReadExtent(infos.rest);
    var positions :- ReadExtent(postings.rest);
    Ok(Read(Directory(minTerm.value, maxTerm.value, count.value, fst.value, infos.value, postings.value, positions.value), positions.rest))
  }

  function ReadDirectories(bytes: ByteString, count: nat): Result<Read<seq<Directory>>, CodecError>
    decreases count
  {
    if count == 0 then Ok(Read([], bytes))
    else
      var first :- ReadDirectory(bytes);
      var others :- ReadDirectories(first.rest, count - 1);
      Ok(Read([first.value] + others.value, others.rest))
  }

  predicate ExtentFits(extent: Extent) {
    extent.offset < U64_LIMIT && extent.len < U64_LIMIT
  }

  predicate DirectoryFits(d: Directory) {
    |d.minTerm| <= U32_MAX && |d.maxTerm| <= U32_MAX
    && ExtentFits(d.fst) && ExtentFits(d.infos) && ExtentFits(d.postings) && ExtentFits(d.positions)
  }

  function DirectoryLen(d: Directory): nat {
    4 + |d.minTerm| + 4 + |d.maxTerm| + 4 + 64
  }

  function DirectoriesLen(ds: seq<Directory>): nat {
    if ds == [] then 0 else DirectoryLen(ds[0]) + DirectoriesLen(ds[1..])
  }

  lemma {:induction false} VecRoundTrip(bytes: ByteString, rest: ByteString)
    requires |bytes| <= U32_MAX
    ensures ReadVec(VecThen(bytes, rest)) == Ok(Read(bytes, rest))
    ensures |VecThen(bytes, rest)| == 4 + |bytes| + |rest|
  {
    hide ReadU32, LeBytes;
    U32RoundTrip(|bytes|, bytes + rest);
    SliceFront(bytes, rest);
  }

  lemma {:induction false} ExtentRoundTrip(extent: Extent, rest: ByteString)
    requires ExtentFits(extent)
    ensures ReadExtent(ExtentThen(extent, rest)) == Ok(Read(extent, rest))
    ensures |ExtentThen(extent, rest)| == 16 + |rest|
  {
    hide ReadU64, LeBytes;
    U64RoundTrip(extent.offset, LeBytes(extent.len, 8) + rest);
    U64RoundTrip(extent.len, rest);
  }

  lemma {:induction false} DirectoryRoundTrip(d: Directory, rest: ByteString)
    requires DirectoryFits(d)
    ensures ReadDirectory(DirectoryThen(d, rest)) == Ok(Read(d, rest))
    ensures |DirectoryThen(d, rest)| == DirectoryLen(d) + |rest|
  {
    hide ReadVec, ReadU32, ReadExtent, VecThen, ExtentThen, LeBytes;
    var r4 := ExtentThen(d.positions, rest);
    var r3 := ExtentThen(d.postings, r4);
    var r2 := ExtentThen(d.infos, r3);
    var r1 := ExtentThen(d.fst, r2);
    var r0 := LeBytes(d.infoCount, 4) + r1;
    var m := VecThen(d.maxTerm, r0);
    VecRoundTrip(d.minTerm, m);
    VecRoundTrip(d.maxTerm, r0);
    U32RoundTrip(d.infoCount, r1);
    ExtentRoundTrip(d.fst, r2);
    ExtentRoundTrip(d.infos, r3);
    ExtentRoundTrip(d.postings, r4);
    ExtentRoundTrip(d.positions, rest);
  }

  lemma {:induction false} DirectoriesRoundTrip(ds: seq<Directory>, rest: ByteString)
    requires forall i :: 0 <= i < |ds| ==> DirectoryFits(ds[i])
    ensures ReadDirectories(DirectoriesThen(ds, rest), |ds|) == Ok(Read(ds, rest))
    ensures |DirectoriesThen(ds, rest)| == DirectoriesLen(ds) + |rest|
  {
    hide ReadDirectory, DirectoryThen, DirectoryLen, DirectoryFits;
    if ds != [] {
      DirectoriesRoundTrip(ds[1..], rest);
      DirectoryRoundTrip(ds[0], DirectoriesThen(ds[1..], rest));
      assert ds == [ds[0]] + ds[1..];
    }
  }

  // ---- laying out the groups ----

  function BodyThen(codec: FstCodec, g: RowGroup, rest: ByteString): ByteString {
    codec.write(g.terms) + (InfosBytes(g.infos) + (g.postings + (g.positions + rest)))
  }

  function BodiesThen(codec: FstCodec, gs: seq<RowGroup>, rest: ByteString): ByteString {
    if gs == [] then rest else BodyThen(codec, gs[0], BodiesThen(codec, gs[1..], rest))
  }

  function BodyLen(codec: FstCodec, g: RowGroup): nat {
    |codec.write(g.terms)| + |InfosBytes(g.infos)| + |g.postings| + |g.positions|
  }

  function BodiesLen(codec: FstCodec, gs: seq<RowGroup>): nat {
    if gs == [] then 0 else BodyLen(codec, gs[0]) + BodiesLen(codec, gs[1..])
  }

  predicate InfosCounted(gs: seq<RowGroup>) {
    forall i :: 0 <= i < |gs| ==> |gs[i].infos| <= U32_MAX
  }

  function DirectoryFor(codec: FstCodec, g: RowGroup, offset: nat): Directory
    requires |g.infos| <= U32_MAX
  {
    var infos := offset + |codec.write(g.terms)|;
    var postings := infos + |InfosBytes(g.infos)|;
    var positions := postings + |g.postings|;
    Directory(g.minTerm, g.maxTerm, |g.infos|,
              Extent(offset, |codec.write(g.terms)|), Extent(infos, |InfosBytes(g.infos)|),
              Extent(postings, |g.postings|), Extent(positions, |g.positions|))
  }

  function DirectoriesFor(codec: FstCodec, gs: seq<RowGroup>, offset: nat): (ds: seq<Directory>)
    requires InfosCounted(gs)
    ensures |ds| == |gs|
  {
    if gs == [] then []
    else [DirectoryFor(codec, gs[0], offset)] + DirectoriesFor(codec, gs[1..], offset + BodyLen(codec, gs[0]))
  }

  /** The directory length, known before any offset is. */
  function GroupsDirectoryLen(gs: seq<RowGroup>): nat {
    if gs == [] then 0 else 4 + |gs[0].minTerm| + 4 + |gs[0].maxTerm| + 4 + 64 + GroupsDirectoryLen(gs[1..])
  }

  lemma {:induction false} DirectoryLenKnown(codec: FstCodec, gs: seq<RowGroup>, offset: nat)
    requires InfosCounted(gs)
    ensures DirectoriesLen(DirectoriesFor(codec, gs, offset)) == GroupsDirectoryLen(gs)
    ensures |gs| <= GroupsDirectoryLen(gs)
  {
    if gs != [] {
      DirectoryLenKnown(codec, gs[1..], offset + BodyLen(codec, gs[0]));
    }
  }

  lemma {:induction false} DirectoriesFit(codec: FstCodec, gs: seq<RowGroup>, offset: nat)
    requires InfosCounted(gs) && GroupsDirectoryLen(gs) <= U32_MAX && offset + BodiesLen(codec, gs) < U64_LIMIT
    ensures forall i :: 0 <= i < |gs| ==> DirectoryFits(DirectoriesFor(codec, gs, offset)[i])
  {
    if gs != [] {
      hide InfosBytes;
      DirectoriesFit(codec, gs[1..], offset + BodyLen(codec, gs[0]));
      assert DirectoryFits(DirectoryFor(codec, gs[0], offset));
    }
  }

  // ---- encoding ----

  function HeaderThen(header: Header, rest: ByteString): ByteString {
    MAGIC + (LeBytes(header.rowCount, 4) + (LeBytes(header.keyGroups, 4)
    + (LeBytes(header.valueGroups, 4) + (LeBytes(header.directoryLen, 4) + rest))))
  }

  function DirectoryBytesOf(index: SearchIndex): nat {
    GroupsDirectoryLen(index.keyGroups) + GroupsDirectoryLen(index.valueGroups)
  }

  /** What the encoder refuses: counts or a directory beyond a u32, offsets beyond a u64. */
  predicate Storable(codec: FstCodec, index: SearchIndex) {
    && InfosCounted(index.keyGroups) && InfosCounted(index.valueGroups)
    && DirectoryBytesOf(index) <= U32_MAX
    && HEADER_LEN + DirectoryBytesOf(index) + BodiesLen(codec, index.keyGroups) + BodiesLen(codec, index.valueGroups) < U64_LIMIT
  }

  lemma {:induction false} GroupCountsFit(index: SearchIndex)
    requires InfosCounted(index.keyGroups) && InfosCounted(index.valueGroups) && DirectoryBytesOf(index) <= U32_MAX
    ensures |index.keyGroups| <= U32_MAX && |index.valueGroups| <= U32_MAX
  {
    var codec := FstCodec(terms => [], bytes => None);
    DirectoryLenKnown(codec, index.keyGroups, 0);
    DirectoryLenKnown(codec, index.valueGroups, 0);
  }

  function HeaderOf(codec: FstCodec, index: SearchIndex): Header
    requires Storable(codec, index)
  {
    GroupCountsFit(index);
    Header(index.rowCount, |index.keyGroups|, |index.valueGroups|, DirectoryBytesOf(index))
  }

  function KeyDirectories(codec: FstCodec, index: SearchIndex): seq<Directory>
    requires Storable(codec, index)
  {
    DirectoriesFor(codec, index.keyGroups, HEADER_LEN + DirectoryBytesOf(index))
  }

  function ValueDirectories(codec: FstCodec, index: SearchIndex): seq<Directory>
    requires Storable(codec, index)
  {
    DirectoriesFor(codec, index.valueGroups, HEADER_LEN + DirectoryBytesOf(index) + BodiesLen(codec, index.keyGroups))
  }

  function Encoded(codec: FstCodec, index: SearchIndex): Result<ByteString, FormatError> {
    if !Storable(codec, index) then Err(TooLarge)
    else
      Ok(HeaderThen(HeaderOf(codec, index),
                    DirectoriesThen(KeyDirectories(codec, index), DirectoriesThen(ValueDirectories(codec, index),
                    BodiesThen(codec, index.keyGroups, BodiesThen(codec, index.valueGroups, []))))))
  }

  // ---- decoding ----

  function DecodeHeader(bytes: ByteString): Result<Header, FormatError> {
    match ReadSlice(bytes, 8)
    case Err(e) => Err(Unreadable(e))
    case Ok(magic) =>
      if magic.value != MAGIC then Err(WrongMagic)
      else match ReadHeader(magic.rest)
        case Err(e) => Err(Unreadable(e))
        case Ok(read) => Ok(read.value)
  }

  function ReadHeader(bytes: ByteString): Result<Read<Header>, CodecError> {
    var rows :- ReadU32(bytes);
    var keys :- ReadU32(rows.rest);
    var values :- ReadU32(keys.rest);
    var len :- ReadU32(values.rest);
    Ok(Read(Header(rows.value, keys.value, values.value, len.value), len.rest))
  }

  function ReadBothDirectories(header: Header, bytes: ByteString): Result<Read<IndexDirectory>, CodecError> {
    var keys :- ReadDirectories(bytes, header.keyGroups);
    var values :- ReadDirectories(keys.rest, header.valueGroups);
    Ok(Read(IndexDirectory(header.rowCount, keys.value, values.value), values.rest))
  }

  /** `decode_search_index_directory`. */
  function DecodeDirectory(header: Header, bytes: ByteString): Result<IndexDirectory, FormatError> {
    if |bytes| != header.directoryLen then Err(LengthMismatch)
    else match ReadBothDirectories(header, bytes)
      case Err(e) => Err(Unreadable(e))
      case Ok(read) => if read.rest == [] then Ok(read.value) else Err(Unreadable(TrailingBytes))
  }

  /** `slice_range`. */
  function SliceExtent(bytes: ByteString, extent: Extent): Result<ByteString, FormatError> {
    if extent.offset + extent.len <= |bytes| then Ok(bytes[extent.offset..extent.offset + extent.len])
    else Err(Unreadable(Truncated))
  }

  /** `decode_loaded_group`. */
  function LoadedGroup(codec: FstCodec, d: Directory, fst: ByteString, infos: ByteString, postings: ByteString, positions: ByteString)
    : Result<RowGroup, FormatError>
  {
    match codec.read(fst)
    case None => Err(BadFst)
    case Some(terms) =>
      match DecodeInfos(infos, d.infoCount)
      case Err(e) => Err(e)
      case Ok(list) => Ok(RowGroup(d.minTerm, d.maxTerm, terms, list, postings, positions))
  }

  function DecodeGroup(codec: FstCodec, bytes: ByteString, d: Directory): Result<RowGroup, FormatError> {
    var fst :- SliceExtent(bytes, d.fst);
    var infos :- SliceExtent(bytes, d.infos);
    var postings :- SliceExtent(bytes, d.postings);
    var positions :- SliceExtent(bytes, d.positions);
    LoadedGroup(codec, d, fst, infos, postings, positions)
  }

  function DecodeGroups(codec: FstCodec, bytes: ByteString, ds: seq<Directory>): Result<seq<RowGroup>, FormatError> {
    if ds == [] then Ok([])
    else
      var first :- DecodeGroup(codec, bytes, ds[0]);
      var others :- DecodeGroups(codec, bytes, ds[1..]);
      Ok([first] + others)
  }

  function DecodeIndexDirectory(bytes: ByteString): Result<IndexDirectory, FormatError> {
    var header :- DecodeHeader(bytes);
    if HEADER_LEN + header.directoryLen > |bytes| then Err(Unreadable(Truncated))
    else DecodeDirectory(header, bytes[HEADER_LEN..HEADER_LEN + header.directoryLen])
  }

  /** `decode_search_index`. */
  function Decode(codec: FstCodec, bytes: ByteString): Result<SearchIndex, FormatError> {
    var directory :- DecodeIndexDirectory(bytes);
    var keys :- DecodeGroups(codec, bytes, directory.keyGroups);
    var values :- DecodeGroups(codec, bytes, directory.valueGroups);
    Ok(SearchIndex(directory.rowCount, keys, values))
  }

  // ---- the round trip ----

  lemma {:induction false} HeaderRoundTrip(header: Header, rest: ByteString)
    ensures DecodeHeader(HeaderThen(header, rest)) == Ok(header)
    ensures |HeaderThen(header, rest)| == HEADER_LEN + |rest| && HeaderThen(header, rest)[HEADER_LEN..] == rest
  {
    hide ReadU32;
    var d := LeBytes(header.directoryLen, 4) + rest;
    var c := LeBytes(header.valueGroups, 4) + d;
    var b := LeBytes(header.keyGroups, 4) + c;
    var a := LeBytes(header.rowCount, 4) + b;
    U32RoundTrip(header.rowCount, b);
    U32RoundTrip(header.keyGroups, c);
    U32RoundTrip(header.valueGroups, d);
    U32RoundTrip(header.directoryLen, rest);
    SliceFront(MAGIC, a);
    hide LeBytes, ReadSlice;
  }

  /** The bytes of a directory entry's four extents are the group's four parts. */
  ghost predicate PartsAt(codec: FstCodec, bytes: ByteString, g: RowGroup, d: Directory) {
    && d.minTerm == g.minTerm && d.maxTerm == g.maxTerm && d.infoCount == |g.infos|
    && SliceExtent(bytes, d.fst) == Ok(codec.write(g.terms))
    && SliceExtent(bytes, d.infos) == Ok(InfosBytes(g.infos))
    && SliceExtent(bytes, d.postings) == Ok(g.postings)
    && SliceExtent(bytes, d.positions) == Ok(g.positions)
  }

  lemma {:induction false} SliceHere(bytes: ByteString, offset: nat, part: ByteString, rest: ByteString)
    requires offset <= |bytes| && bytes[offset..] == part + rest
    ensures SliceExtent(bytes, Extent(offset, |part|)) == Ok(part)
    ensures offset + |part| <= |bytes| && bytes[offset + |part|..] == rest
  {
    assert |bytes[offset..]| == |part| + |rest|;
    assert bytes[offset..][..|part|] == part && bytes[offset..][|part|..] == rest;
    assert bytes[offset..offset + |part|] == bytes[offset..][..|part|];
  }

  lemma {:induction false} PartsHere(codec: FstCodec, bytes: ByteString, g: RowGroup, offset: nat, rest: ByteString)
    requires |g.infos| <= U32_MAX && offset <= |bytes| && bytes[offset..] == BodyThen(codec, g, rest)
    ensures PartsAt(codec, bytes, g, DirectoryFor(codec, g, offset))
    ensures offset + BodyLen(codec, g) <= |bytes| && bytes[offset + BodyLen(codec, g)..] == rest
  {
    hide InfosBytes, SliceExtent;
    var fst, infos := codec.write(g.terms), InfosBytes(g.infos);
    SliceHere(bytes, offset, fst, infos + (g.postings + (g.positions + rest)));
    SliceHere(bytes, offset + |fst|, infos, g.postings + (g.positions + rest));
    SliceHere(bytes, offset + |fst| + |infos|, g.postings, g.positions + rest);
    SliceHere(bytes, offset + |fst| + |infos| + |g.postings|, g.positions, rest);
  }

  ghost predicate AllPartsAt(codec: FstCodec, bytes: ByteString, gs: seq<RowGroup>, ds: seq<Directory>) {
    |gs| == |ds| && forall i :: 0 <= i < |gs| ==> PartsAt(codec, bytes, gs[i], ds[i])
  }

  lemma {:induction false} AllPartsHere(codec: FstCodec, bytes: ByteString, gs: seq<RowGroup>, offset: nat, rest: ByteString)
    requires InfosCounted(gs) && offset <= |bytes| && bytes[offset..] == BodiesThen(codec, gs, rest)
    ensures AllPartsAt(codec, bytes, gs, DirectoriesFor(codec, gs, offset))
    ensures offset + BodiesLen(codec, gs) <= |bytes| && bytes[offset + BodiesLen(codec, gs)..] == rest
  {
    hide BodyThen, BodyLen, PartsAt, DirectoryFor;
    if gs != [] {
      PartsHere(codec, bytes, gs[0], offset, BodiesThen(codec, gs[1..], rest));
      var next := offset + BodyLen(codec, gs[0]);
      AllPartsHere(codec, bytes, gs[1..], next, rest);
      var ds, others := DirectoriesFor(codec, gs, offset), DirectoriesFor(codec, gs[1..], next);
      forall i | 0 <= i < |gs|
        ensures PartsAt(codec, bytes, gs[i], ds[i])
      {
        assert i > 0 ==> gs[i] == gs[1..][i - 1] && ds[i] == others[i - 1];
      }
    }
  }

  ghost predicate GroupsSorted(gs: seq<RowGroup>) {
    forall i :: 0 <= i < |gs| ==> StrictlyIncreasing(gs[i].terms)
  }

  lemma {:induction false} GroupsComeBack(codec: FstCodec, bytes: ByteString, gs: seq<RowGroup>, ds: seq<Directory>)
    requires Faithful(codec) && GroupsSorted(gs) && AllPartsAt(codec, bytes, gs, ds)
    ensures DecodeGroups(codec, bytes, ds) == Ok(gs)
  {
    hide DecodeInfos, SliceExtent, InfosBytes;
    if gs != [] {
      InfosRoundTrip(gs[0].infos);
      assert PartsAt(codec, bytes, gs[0], ds[0]) && StrictlyIncreasing(gs[0].terms);
      assert DecodeGroup(codec, bytes, ds[0]) == Ok(gs[0]);
      GroupsComeBack(codec, bytes, gs[1..], ds[1..]);
      assert gs == [gs[0]] + gs[1..];
    }
  }

  lemma {:induction false} DirectoriesThenSplit(ds: seq<Directory>, rest: ByteString)
    ensures DirectoriesThen(ds, rest) == DirectoriesThen(ds, []) + rest
  {
    if ds == [] {
      assert [] + rest == rest;
    } else {
      DirectoriesThenSplit(ds[1..], rest);
      DirectoryThenSplit(ds[0], DirectoriesThen(ds[1..], []), rest);
    }
  }

  lemma {:induction false} DirectoryThenSplit(d: Directory, middle: ByteString, rest: ByteString)
    ensures DirectoryThen(d, middle + rest) == DirectoryThen(d, middle) + rest
  {
    hide LeBytes;
    ExtentThenSplit(d.positions, middle, rest);
    ExtentThenSplit(d.postings, ExtentThen(d.positions, middle), rest);
    ExtentThenSplit(d.infos, ExtentThen(d.postings, ExtentThen(d.positions, middle)), rest);
    var after := ExtentThen(d.infos, ExtentThen(d.postings, ExtentThen(d.positions, middle)));
    ExtentThenSplit(d.fst, after, rest);
    hide ExtentThen;
    var count := LeBytes(d.infoCount, 4) + ExtentThen(d.fst, after);
    assert LeBytes(d.infoCount, 4) + (ExtentThen(d.fst, after) + rest) == count + rest;
    VecThenSplit(d.maxTerm, count, rest);
    VecThenSplit(d.minTerm, VecThen(d.maxTerm, count), rest);
  }

  lemma {:induction false} ExtentThenSplit(extent: Extent, middle: ByteString, rest: ByteString)
    ensures ExtentThen(extent, middle + rest) == ExtentThen(extent, middle) + rest
  {
  }

  lemma {:induction false} VecThenSplit(bytes: ByteString, middle: ByteString, rest: ByteString)
    ensures VecThen(bytes, middle + rest) == VecThen(bytes, middle) + rest
  {
  }

  function DirectoryPart(codec: FstCodec, index: SearchIndex): ByteString
    requires Storable(codec, index)
  {
    DirectoriesThen(KeyDirectories(codec, index), DirectoriesThen(ValueDirectories(codec, index), []))
  }

  function BodyPart(codec: FstCodec, index: SearchIndex): ByteString {
    BodiesThen(codec, index.keyGroups, BodiesThen(codec, index.valueGroups, []))
  }

  function DirectoryOf(codec: FstCodec, index: SearchIndex): IndexDirectory
    requires Storable(codec, index)
  {
    IndexDirectory(index.rowCount, KeyDirectories(codec, index), ValueDirectories(codec, index))
  }

  lemma {:induction false} AfterHeader(codec: FstCodec, index: SearchIndex)
    requires Storable(codec, index)
    ensures DirectoriesThen(KeyDirectories(codec, index), DirectoriesThen(ValueDirectories(codec, index), BodyPart(codec, index)))
         == DirectoryPart(codec, index) + BodyPart(codec, index)
  {
    hide KeyDirectories, ValueDirectories, DirectoriesThen, BodyPart, Storable;
    var keys, values, body := KeyDirectories(codec, index), ValueDirectories(codec, index), BodyPart(codec, index);
    var both := DirectoriesThen(values, []);
    DirectoriesThenSplit(values, body);
    DirectoriesThenSplit(keys, both + body);
    DirectoriesThenSplit(keys, both);
  }

  lemma {:induction false} HeaderPart(codec: FstCodec, index: SearchIndex, bytes: ByteString)
    requires Storable(codec, index) && Encoded(codec, index) == Ok(bytes)
    ensures DecodeHeader(bytes) == Ok(HeaderOf(codec, index))
    ensures HEADER_LEN <= |bytes| && bytes[HEADER_LEN..] == DirectoryPart(codec, index) + BodyPart(codec, index)
  {
    hide DecodeHeader, HeaderThen, DirectoryPart, Storable, HeaderOf, KeyDirectories, ValueDirectories;
    var rest := DirectoryPart(codec, index) + BodyPart(codec, index);
    AfterHeader(codec, index);
    HeaderRoundTrip(HeaderOf(codec, index), rest);
    assert bytes == HeaderThen(HeaderOf(codec, index), rest);
  }

  lemma {:induction false} DirectoriesKnown(codec: FstCodec, index: SearchIndex)
    requires Storable(codec, index)
    ensures forall i :: 0 <= i < |index.keyGroups| ==> DirectoryFits(KeyDirectories(codec, index)[i])
    ensures forall i :: 0 <= i < |index.valueGroups| ==> DirectoryFits(ValueDirectories(codec, index)[i])
    ensures |KeyDirectories(codec, index)| == |index.keyGroups| && |ValueDirectories(codec, index)| == |index.valueGroups|
    ensures DirectoriesLen(KeyDirectories(codec, index)) + DirectoriesLen(ValueDirectories(codec, index)) == DirectoryBytesOf(index)
  {
    hide DirectoriesFor, BodiesLen, GroupsDirectoryLen, DirectoryFits, DirectoriesLen, InfosCounted;
    var start := HEADER_LEN + DirectoryBytesOf(index);
    DirectoriesFit(codec, index.keyGroups, start);
    DirectoriesFit(codec, index.valueGroups, start + BodiesLen(codec, index.keyGroups));
    DirectoryLenKnown(codec, index.keyGroups, start);
    DirectoryLenKnown(codec, index.valueGroups, start + BodiesLen(codec, index.keyGroups));
  }

  lemma {:induction false} DirectoryPartDecodes(codec: FstCodec, index: SearchIndex)
    requires Storable(codec, index)
    ensures |DirectoryPart(codec, index)| == DirectoryBytesOf(index)
    ensures DecodeDirectory(HeaderOf(codec, index), DirectoryPart(codec, index)) == Ok(DirectoryOf(codec, index))
  {
    var header := HeaderOf(codec, index);
    assert header.keyGroups == |index.keyGroups| && header.valueGroups == |index.valueGroups|;
    assert header.directoryLen == DirectoryBytesOf(index) && header.rowCount == index.rowCount;
    hide KeyDirectories, ValueDirectories, DirectoriesThen, Storable, HeaderOf, DirectoryBytesOf, DecodeDirectory, DirectoriesLen, DirectoryFits;
    var keys, values := KeyDirectories(codec, index), ValueDirectories(codec, index);
    DirectoriesKnown(codec, index);
    DirectoriesRoundTrip(values, []);
    DirectoriesRoundTrip(keys, DirectoriesThen(values, []));
    DirectoryDecodes(header, DirectoryPart(codec, index), keys, DirectoriesThen(values, []), values);
  }

  lemma {:induction false} Sections(codec: FstCodec, index: SearchIndex, bytes: ByteString)
    requires Encoded(codec, index) == Ok(bytes)
    ensures Storable(codec, index)
    ensures DecodeHeader(bytes) == Ok(HeaderOf(codec, index)) && HeaderOf(codec, index).directoryLen == DirectoryBytesOf(index)
    ensures HEADER_LEN + DirectoryBytesOf(index) <= |bytes|
    ensures bytes[HEADER_LEN..HEADER_LEN + DirectoryBytesOf(index)] == DirectoryPart(codec, index)
    ensures bytes[HEADER_LEN + DirectoryBytesOf(index)..] == BodyPart(codec, index)
  {
    hide *;
    StorableEncodes(codec, index);
    HeaderPart(codec, index, bytes);
    DirectoryPartLen(codec, index);
    DirectorySlice(bytes, HEADER_LEN, DirectoryPart(codec, index), BodyPart(codec, index));
  }

  /** The header and the directory of an encoded index, read alone, name exactly the bytes of every group. */
  lemma {:induction false} DirectoryExact(codec: FstCodec, index: SearchIndex, bytes: ByteString)
    requires Encoded(codec, index) == Ok(bytes)
    ensures Storable(codec, index) && DecodeIndexDirectory(bytes) == Ok(DirectoryOf(codec, index))
    ensures AllPartsAt(codec, bytes, index.keyGroups, KeyDirectories(codec, index))
    ensures AllPartsAt(codec, bytes, index.valueGroups, ValueDirectories(codec, index))
  {
    hide *;
    Sections(codec, index, bytes);
    DirectoryPartDecodes(codec, index);
    DirectoryAlone(bytes, HeaderOf(codec, index), DirectoryPart(codec, index), DirectoryOf(codec, index));
    BodyParts(codec, index, bytes);
  }

  lemma {:induction false} DirectoryAlone(bytes: ByteString, header: Header, part: ByteString, directory: IndexDirectory)
    requires DecodeHeader(bytes) == Ok(header) && HEADER_LEN + header.directoryLen <= |bytes|
    requires bytes[HEADER_LEN..HEADER_LEN + header.directoryLen] == part && DecodeDirectory(header, part) == Ok(directory)
    ensures DecodeIndexDirectory(bytes) == Ok(directory)
  {
    hide DecodeHeader, DecodeDirectory;
  }

  lemma {:induction false} StorableEncodes(codec: FstCodec, index: SearchIndex)
    requires Encoded(codec, index).Ok?
    ensures Storable(codec, index) && HeaderOf(codec, index).directoryLen == DirectoryBytesOf(index)
  {
  }

  lemma {:induction false} DirectoryPartLen(codec: FstCodec, index: SearchIndex)
    requires Storable(codec, index)
    ensures |DirectoryPart(codec, index)| == DirectoryBytesOf(index)
  {
    DirectoryPartDecodes(codec, index);
  }

  lemma {:induction false} BodyParts(codec: FstCodec, index: SearchIndex, bytes: ByteString)
    requires Storable(codec, index)
    requires var start := HEADER_LEN + DirectoryBytesOf(index); start <= |bytes| && bytes[start..] == BodyPart(codec, index)
    ensures AllPartsAt(codec, bytes, index.keyGroups, KeyDirectories(codec, index))
    ensures AllPartsAt(codec, bytes, index.valueGroups, ValueDirectories(codec, index))
  {
    var start := HEADER_LEN + DirectoryBytesOf(index);
    hide AllPartsAt, BodiesThen, DirectoriesFor;
    AllPartsHere(codec, bytes, index.keyGroups, start, BodiesThen(codec, index.valueGroups, []));
    AllPartsHere(codec, bytes, index.valueGroups, start + BodiesLen(codec, index.keyGroups), []);
  }

  lemma {:induction false} DirectorySlice(bytes: ByteString, offset: nat, directory: ByteString, body: ByteString)
    requires offset <= |bytes| && bytes[offset..] == directory + body
    ensures offset + |directory| <= |bytes|
    ensures bytes[offset..offset + |directory|] == directory && bytes[offset + |directory|..] == body
  {
    SliceHere(bytes, offset, directory, body);
  }

  lemma {:induction false} DirectoryDecodes(header: Header, bytes: ByteString, keys: seq<Directory>, afterKeys: ByteString, values: seq<Directory>)
    requires |bytes| == header.directoryLen && header.keyGroups == |keys| && header.valueGroups == |values|
    requires ReadDirectories(bytes, |keys|) == Ok(Read(keys, afterKeys)) && ReadDirectories(afterKeys, |values|) == Ok(Read(values, []))
    ensures DecodeDirectory(header, bytes) == Ok(IndexDirectory(header.rowCount, keys, values))
  {
    hide ReadDirectories;
  }

  /** Decoding an encoded index returns the index; an index the encoder accepts is any that fits the integer widths. */
  lemma {:induction false} IndexRoundTrip(codec: FstCodec, index: SearchIndex)
    requires Faithful(codec) && GroupsSorted(index.keyGroups) && GroupsSorted(index.valueGroups)
    ensures Encoded(codec, index).Ok? <==> Storable(codec, index)
    ensures Storable(codec, index) ==> Decode(codec, Encoded(codec, index).value) == Ok(index)
  {
    if Storable(codec, index) {
      var bytes := Encoded(codec, index).value;
      DirectoryExact(codec, index, bytes);
      GroupsComeBack(codec, bytes, index.keyGroups, KeyDirectories(codec, index));
      GroupsComeBack(codec, bytes, index.valueGroups, ValueDirectories(codec, index));
      assert DirectoryOf(codec, index) == IndexDirectory(index.rowCount, KeyDirectories(codec, index), ValueDirectories(codec, index));
      hide *;
      DecodeFrom(codec, bytes, DirectoryOf(codec, index), index);
    }
  }

  lemma {:induction false} DecodeFrom(codec: FstCodec, bytes: ByteString, directory: IndexDirectory, index: SearchIndex)
    requires DecodeIndexDirectory(bytes) == Ok(directory) && directory.rowCount == index.rowCount
    requires DecodeGroups(codec, bytes, directory.keyGroups) == Ok(index.keyGroups)
    requires DecodeGroups(codec, bytes, directory.valueGroups) == Ok(index.valueGroups)
    ensures Decode(codec, bytes) == Ok(index)
  {
    hide DecodeIndexDirectory, DecodeGroups;
  }

  // ---- the encoder's loops ----

  lemma {:induction false} BodiesThenSplit(codec: FstCodec, gs: seq<RowGroup>, rest: ByteString)
    ensures BodiesThen(codec, gs, rest) == BodiesThen(codec, gs, []) + rest
  {
    if gs == [] {
      assert [] + rest == rest;
    } else {
      BodiesThenSplit(codec, gs[1..], rest);
      BodyThenSplit(codec, gs[0], BodiesThen(codec, gs[1..], []), rest);
    }
  }

  lemma {:induction false} BodyThenSplit(codec: FstCodec, g: RowGroup, middle: ByteString, rest: ByteString)
    ensures BodyThen(codec, g, middle + rest) == BodyThen(codec, g, middle) + rest
  {
    hide InfosBytes;
    assert g.postings + (g.positions + (middle + rest)) == (g.postings + (g.positions + middle)) + rest;
  }

  /** The offset-assigning loop, with `next_range`'s overflow check. */
  method LayOut(codec: FstCodec, gs: seq<RowGroup>, offset: nat) returns (ds: seq<Directory>, next: nat, ok: bool)
    requires InfosCounted(gs) && offset < U64_LIMIT
    ensures ok <==> offset + BodiesLen(codec, gs) < U64_LIMIT
    ensures ok ==> ds == DirectoriesFor(codec, gs, offset) && next == offset + BodiesLen(codec, gs)
  {
    ds, next := [], offset;
    assert gs[0..] == gs;
    hide *;
    for i := 0 to |gs|
      invariant next < U64_LIMIT && InfosCounted(gs[i..])
      invariant next + BodiesLen(codec, gs[i..]) == offset + BodiesLen(codec, gs)
      invariant ds + DirectoriesFor(codec, gs[i..], next) == DirectoriesFor(codec, gs, offset)
    {
      LayOutNext(codec, gs, i, next, ds);
      ds := ds + [DirectoryFor(codec, gs[i], next)];
      next := next + BodyLen(codec, gs[i]);
      if next >= U64_LIMIT {
        return ds, next, false;
      }
    }
    LayOutEnd(codec, next);
    assert gs[|gs|..] == [];
    assert ds + [] == ds;
    ok := true;
  }

  lemma {:induction false} LayOutNext(codec: FstCodec, gs: seq<RowGroup>, i: nat, offset: nat, ds: seq<Directory>)
    requires i < |gs| && InfosCounted(gs[i..])
    ensures InfosCounted(gs[i + 1..]) && |gs[i].infos| <= U32_MAX
    ensures BodiesLen(codec, gs[i..]) == BodyLen(codec, gs[i]) + BodiesLen(codec, gs[i + 1..])
    ensures ds + DirectoriesFor(codec, gs[i..], offset)
         == (ds + [DirectoryFor(codec, gs[i], offset)]) + DirectoriesFor(codec, gs[i + 1..], offset + BodyLen(codec, gs[i]))
  {
    hide *;
    LayOutStep(codec, gs, i, offset);
    var d, others := DirectoryFor(codec, gs[i], offset), DirectoriesFor(codec, gs[i + 1..], offset + BodyLen(codec, gs[i]));
    assert ds + ([d] + others) == (ds + [d]) + others;
  }

  lemma {:induction false} LayOutStep(codec: FstCodec, gs: seq<RowGroup>, i: nat, offset: nat)
    requires i < |gs| && InfosCounted(gs[i..])
    ensures InfosCounted(gs[i + 1..]) && |gs[i].infos| <= U32_MAX
    ensures BodiesLen(codec, gs[i..]) == BodyLen(codec, gs[i]) + BodiesLen(codec, gs[i + 1..])
    ensures DirectoriesFor(codec, gs[i..], offset)
         == [DirectoryFor(codec, gs[i], offset)] + DirectoriesFor(codec, gs[i + 1..], offset + BodyLen(codec, gs[i]))
  {
    var rest := gs[i..];
    assert rest[0] == gs[i] && rest[1..] == gs[i + 1..];
    assert forall j :: 0 <= j < |rest[1..]| ==> rest[1..][j] == rest[j + 1];
    hide DirectoryFor, BodyLen;
  }

  lemma {:induction false} LayOutEnd(codec: FstCodec, offset: nat)
    ensures InfosCounted([]) && BodiesLen(codec, []) == 0 && DirectoriesFor(codec, [], offset) == []
  {
  }

  lemma {:induction false} Moved(done: ByteString, next: ByteString, rest: ByteString)
    ensures done + (next + rest) == (done + next) + rest
  {
  }

  method PutDirectories(out: ByteString, ds: seq<Directory>) returns (bytes: ByteString)
    ensures bytes == out + DirectoriesThen(ds, [])
  {
    bytes := out;
    assert ds[0..] == ds;
    hide *;
    for i := 0 to |ds|
      invariant bytes + DirectoriesThen(ds[i..], []) == out + DirectoriesThen(ds, [])
    {
      PutDirectoryStep(ds, i);
      var entry := DirectoryThen(ds[i], []);
      Moved(bytes, entry, DirectoriesThen(ds[i + 1..], []));
      bytes := bytes + entry;
    }
    assert ds[|ds|..] == [];
    assert bytes + DirectoriesThen([], []) == bytes by { NoDirectories(); }
  }

  lemma {:induction false} NoDirectories()
    ensures DirectoriesThen([], []) == []
  {
  }

  lemma {:induction false} PutDirectoryStep(ds: seq<Directory>, i: nat)
    requires i < |ds|
    ensures DirectoriesThen(ds[i..], []) == DirectoryThen(ds[i], []) + DirectoriesThen(ds[i + 1..], [])
  {
    hide DirectoryThen;
    assert ds[i..][1..] == ds[i + 1..];
    var rest := DirectoriesThen(ds[i + 1..], []);
    DirectoryThenSplit(ds[i], [], rest);
    assert [] + rest == rest;
  }

  method PutBodies(out: ByteString, codec: FstCodec, gs: seq<RowGroup>) returns (bytes: ByteString)
    ensures bytes == out + BodiesThen(codec, gs, [])
  {
    bytes := out;
    assert gs[0..] == gs;
    hide BodiesThen, BodyThen;
    for i := 0 to |gs|
      invariant bytes + BodiesThen(codec, gs[i..], []) == out + BodiesThen(codec, gs, [])
    {
      PutBodyStep(codec, gs, i);
      var body := BodyThen(codec, gs[i], []);
      Moved(bytes, body, BodiesThen(codec, gs[i + 1..], []));
      bytes := bytes + body;
    }
    assert gs[|gs|..] == [];
    assert bytes + BodiesThen(codec, [], []) == bytes by { NoBodies(codec); }
  }

  lemma {:induction false} NoBodies(codec: FstCodec)
    ensures BodiesThen(codec, [], []) == []
  {
  }

  lemma {:induction false} PutBodyStep(codec: FstCodec, gs: seq<RowGroup>, i: nat)
    requires i < |gs|
    ensures BodiesThen(codec, gs[i..], []) == BodyThen(codec, gs[i], []) + BodiesThen(codec, gs[i + 1..], [])
  {
    hide BodyThen;
    assert gs[i..][1..] == gs[i + 1..];
    var rest := BodiesThen(codec, gs[i + 1..], []);
    BodyThenSplit(codec, gs[i], [], rest);
    assert [] + rest == rest;
  }

  /** `encode_search_index`. */
  method EncodeSearchIndex(codec: FstCodec, index: SearchIndex) returns (result: Result<ByteString, FormatError>)
    ensures result == Encoded(codec, index)
  {
    if !InfosCounted(index.keyGroups) || !InfosCounted(index.valueGroups) {
      return Err(TooLarge);
    }
    var directoryLen := DirectoryBytesOf(index);
    if directoryLen > U32_MAX {
      return Err(TooLarge);
    }
    GroupCountsFit(index);
    hide InfosCounted, DirectoryBytesOf, DirectoriesFor, BodiesLen;
    var keys, afterKeys, keysOk := LayOut(codec, index.keyGroups, HEADER_LEN + directoryLen);
    if !keysOk {
      return Err(TooLarge);
    }
    var values, end, valuesOk := LayOut(codec, index.valueGroups, afterKeys);
    if !valuesOk {
      return Err(TooLarge);
    }
    assert Storable(codec, index);
    assert keys == KeyDirectories(codec, index) && values == ValueDirectories(codec, index);
    var header := Header(index.rowCount, |index.keyGroups|, |index.valueGroups|, directoryLen);
    assert header == HeaderOf(codec, index);
    var out := HeaderThen(header, []);
    out := PutDirectories(out, keys);
    out := PutDirectories(out, values);
    out := PutBodies(out, codec, index.keyGroups);
    out := PutBodies(out, codec, index.valueGroups);
    hide *;
    Assembled(codec, index, header, keys, values);
    result := Ok(out);
  }

  lemma {:induction false} Assembled(codec: FstCodec, index: SearchIndex, header: Header, keys: seq<Directory>, values: seq<Directory>)
    requires Storable(codec, index) && header == HeaderOf(codec, index)
    requires keys == KeyDirectories(codec, index) && values == ValueDirectories(codec, index)
    ensures Encoded(codec, index)
         == Ok(HeaderThen(header, []) + DirectoriesThen(keys, []) + DirectoriesThen(values, [])
             + BodiesThen(codec, index.keyGroups, []) + BodiesThen(codec, index.valueGroups, []))
  {
    hide HeaderThen, DirectoriesThen, BodiesThen, KeyDirectories, ValueDirectories, HeaderOf, Storable;
    var v := BodiesThen(codec, index.valueGroups, []);
    var k := BodiesThen(codec, index.keyGroups, []);
    var dv, dk := DirectoriesThen(values, []), DirectoriesThen(keys, []);
    BodiesThenSplit(codec, index.keyGroups, v);
    DirectoriesThenSplit(values, k + v);
    DirectoriesThenSplit(keys, dv + (k + v));
    HeaderThenSplit(header, dk + (dv + (k + v)));
    assert HeaderThen(header, []) + (dk + (dv + (k + v))) == HeaderThen(header, []) + dk + dv + k + v;
  }

  lemma {:induction false} HeaderThenSplit(header: Header, rest: ByteString)
    ensures HeaderThen(header, rest) == HeaderThen(header, []) + rest
  {
    hide LeBytes;
  }

  // ---- reading the header from the front of the object alone ----

  lemma {:induction false} U32Front(front: ByteString, rest: ByteString)
    requires |front| >= 4
    ensures ReadU32(front).Ok? && |ReadU32(front).value.rest| == |front| - 4
    ensures ReadU32(front + rest) == Ok(Read(ReadU32(front).value.value, ReadU32(front).value.rest + rest))
  {
    assert (front + rest)[..4] == front[..4] && (front + rest)[4..] == front[4..] + rest;
  }

  lemma {:induction false} HeaderFieldsFront(front: ByteString, rest: ByteString)
    requires |front| >= 16
    ensures ReadHeader(front).Ok? && ReadHeader(front + rest).Ok?
    ensures ReadHeader(front + rest).value.value == ReadHeader(front).value.value
  {
    hide ReadU32;
    U32Front(front, rest);
    var a := ReadU32(front).value.rest;
    U32Front(a, rest);
    var b := ReadU32(a).value.rest;
    U32Front(b, rest);
    var c := ReadU32(b).value.rest;
    U32Front(c, rest);
  }

  lemma {:induction false} HeaderShort(bytes: ByteString)
    ensures ReadHeader(bytes).Ok? ==> |bytes| >= 16
  {
  }

  lemma {:induction false} HeaderComplete(bytes: ByteString)
    requires DecodeHeader(bytes).Ok?
    ensures |bytes| >= HEADER_LEN
  {
    HeaderShort(bytes[8..]);
    hide ReadHeader;
  }

  /** A header decodes from the first 24 bytes to what it decodes from the whole object. */
  lemma {:induction false} HeaderFromFront(bytes: ByteString)
    requires |bytes| >= HEADER_LEN
    ensures DecodeHeader(bytes[..HEADER_LEN]) == DecodeHeader(bytes)
  {
    var front := bytes[8..HEADER_LEN];
    HeaderFieldsFront(front, bytes[HEADER_LEN..]);
    assert front + bytes[HEADER_LEN..] == bytes[8..];
    assert bytes[..HEADER_LEN][8..] == front && bytes[..HEADER_LEN][..8] == bytes[..8];
    hide ReadHeader;
  }

  // ---- the header, byte by byte ----

  lemma {:induction false} FourDigits(v: U32)
    ensures |LeBytes(v, 4)| == 4
    ensures LeBytes(v, 4)[0] == v % 256 && LeBytes(v, 4)[1] == v / 256 % 256
    ensures LeBytes(v, 4)[2] == v / 0x1_0000 % 256 && LeBytes(v, 4)[3] == v / 0x100_0000
  {
    var a, b, c := v / 256, v / 256 / 256, v / 256 / 256 / 256;
    assert LeBytes(v, 4) == [v % 256] + LeBytes(a, 3) && LeBytes(a, 3) == [a % 256] + LeBytes(b, 2);
    assert LeBytes(b, 2) == [b % 256] + LeBytes(c, 1) && LeBytes(c, 1) == [c % 256] + LeBytes(c / 256, 0);
    assert b == v / 0x1_0000 && c == v / 0x100_0000;
  }

  /** An encoded index starts with KDBFTS3, a zero byte and four counts, smallest byte first. */
  lemma {:induction false} HeaderSpelled(codec: FstCodec, index: SearchIndex)
    requires Encoded(codec, index).Ok?
    ensures var bytes := Encoded(codec, index).value;
      && |bytes| >= 24 && bytes[..8] == [75, 68, 66, 70, 84, 83, 51, 0]
      && bytes[8..12] == LeBytes(index.rowCount, 4) && bytes[12..16] == LeBytes(|index.keyGroups|, 4)
      && bytes[16..20] == LeBytes(|index.valueGroups|, 4)
  {
    hide *;
    var header, rest := EncodedStarts(codec, index);
    var a, b, c, d := LeBytes(header.rowCount, 4), LeBytes(header.keyGroups, 4), LeBytes(header.valueGroups, 4), LeBytes(header.directoryLen, 4);
    MagicSpelled();
    HeaderParts(header, rest);
    HeaderCuts(MAGIC, a, b, c, d, rest);
  }

  lemma {:induction false} EncodedStarts(codec: FstCodec, index: SearchIndex) returns (header: Header, rest: ByteString)
    requires Encoded(codec, index).Ok?
    ensures Encoded(codec, index).value == HeaderThen(header, rest)
    ensures header.rowCount == index.rowCount && header.keyGroups == |index.keyGroups| && header.valueGroups == |index.valueGroups|
  {
    hide HeaderThen, DirectoriesThen, BodiesThen, KeyDirectories, ValueDirectories;
    header := HeaderOf(codec, index);
    rest := DirectoriesThen(KeyDirectories(codec, index), DirectoriesThen(ValueDirectories(codec, index),
            BodiesThen(codec, index.keyGroups, BodiesThen(codec, index.valueGroups, []))));
  }

  lemma {:induction false} MagicSpelled()
    ensures MAGIC == [75, 68, 66, 70, 84, 83, 51, 0]
  {
  }

  lemma {:induction false} HeaderParts(header: Header, rest: ByteString)
    ensures HeaderThen(header, rest)
         == MAGIC + (LeBytes(header.rowCount, 4) + (LeBytes(header.keyGroups, 4)
            + (LeBytes(header.valueGroups, 4) + (LeBytes(header.directoryLen, 4) + rest))))
  {
    hide LeBytes;
  }

  lemma {:induction false} HeaderCuts(magic: ByteString, a: ByteString, b: ByteString, c: ByteString, d: ByteString, rest: ByteString)
    requires |magic| == 8 && |a| == |b| == |c| == |d| == 4
    ensures var bytes := magic + (a + (b + (c + (d + rest))));
            |bytes| >= 24 && bytes[..8] == magic && bytes[8..12] == a && bytes[12..16] == b && bytes[16..20] == c
  {
  }
}
