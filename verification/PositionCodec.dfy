/** Position lists, one per row of a posting list, concatenated in one stream (src/search/codec.rs). */
module PositionCodec {
  import opened Wrappers
  import opened Bytes
  import opened ListCodec

  function PositionsAt(positions: map<nat, seq<nat>>, row: nat): seq<nat> {
    if row in positions then positions[row] else []
  }

  /** Lists the encoder can be given: u32 positions, and no more of them than a u32 counts. */
  predicate Encodable(rows: seq<nat>, positions: map<nat, seq<nat>>) {
    forall i :: 0 <= i < |rows| ==> var list := PositionsAt(positions, rows[i]); AllU32(list) && |list| <= U32_MAX
  }

  function EncodedPositions(rows: seq<nat>, positions: map<nat, seq<nat>>): ByteString
    requires Encodable(rows, positions)
  {
    if rows == [] then []
    else
      var list := PositionsAt(positions, rows[0]);
      VintBytes(|list|) + EncodedList(list) + EncodedPositions(rows[1..], positions)
  }

  function Elements(list: seq<nat>): set<nat> {
    set x | x in list
  }

  /** What `decode_positions` builds from the rows not yet read. */
  function ReadPositions(bytes: ByteString, rows: seq<nat>, found: map<nat, set<nat>>): Result<map<nat, set<nat>>, CodecError>
    decreases |rows|
  {
    if rows == [] then if bytes == [] then Ok(found) else Err(TrailingBytes)
    else
      var count :- ReadVint(bytes);
      var list :- ReadList(count.rest, count.value);
      ReadPositions(list.rest, rows[1..], found[rows[0] := Elements(list.value)])
  }

  ghost function Expected(rows: seq<nat>, positions: map<nat, seq<nat>>, found: map<nat, set<nat>>): map<nat, set<nat>> {
    found + map row | row in rows :: Elements(PositionsAt(positions, row))
  }

  predicate AllAscending(rows: seq<nat>, positions: map<nat, seq<nat>>) {
    forall i :: 0 <= i < |rows| ==> Ascending(PositionsAt(positions, rows[i]))
  }

  lemma {:induction false} ExpectedStep(row: nat, others: seq<nat>, positions: map<nat, seq<nat>>, found: map<nat, set<nat>>)
    ensures Expected([row] + others, positions, found)
         == Expected(others, positions, found[row := Elements(PositionsAt(positions, row))])
  {
    hide Elements, PositionsAt;
    var whole := Expected([row] + others, positions, found);
    var step := Expected(others, positions, found[row := Elements(PositionsAt(positions, row))]);
    assert forall r :: r in [row] + others <==> r == row || r in others;
    forall r
      ensures r in whole <==> r in step
      ensures r in whole ==> whole[r] == step[r]
    {
    }
    hide Expected;
  }

  lemma {:induction false} PositionsFrom(rows: seq<nat>, positions: map<nat, seq<nat>>, found: map<nat, set<nat>>)
    requires Encodable(rows, positions) && AllAscending(rows, positions)
    ensures ReadPositions(EncodedPositions(rows, positions), rows, found) == Ok(Expected(rows, positions, found))
  {
    if rows == [] {
      assert Expected(rows, positions, found) == found;
    } else {
      var row, others := rows[0], rows[1..];
      assert AllAscending(others, positions) && Ascending(PositionsAt(positions, row));
      hide *;
      assert rows == [row] + others;
      FirstBytes(row, others, positions);
      FirstRow(row, others, positions, found);
      PositionsFrom(others, positions, found[row := Elements(PositionsAt(positions, row))]);
      ExpectedStep(row, others, positions, found);
    }
  }

  lemma {:induction false} FirstRow(row: nat, others: seq<nat>, positions: map<nat, seq<nat>>, found: map<nat, set<nat>>)
    requires Encodable([row] + others, positions) && Ascending(PositionsAt(positions, row))
    requires Encodable(others, positions)
    ensures ReadPositions(EncodedPositions([row] + others, positions), [row] + others, found)
         == ReadPositions(EncodedPositions(others, positions), others, found[row := Elements(PositionsAt(positions, row))])
  {
    var list := PositionsAt(positions, row);
    var rest := EncodedPositions(others, positions);
    var bytes := EncodedPositions([row] + others, positions);
    assert bytes == VintBytes(|list|) + (EncodedList(list) + rest) by { FirstBytes(row, others, positions); }
    VintRoundTrip(|list|, EncodedList(list) + rest);
    ListRoundTrip(list, rest);
    ReadsOn(bytes, row, others, found, EncodedList(list) + rest, list, rest);
    hide *;
  }

  lemma {:induction false} FirstBytes(row: nat, others: seq<nat>, positions: map<nat, seq<nat>>)
    requires Encodable([row] + others, positions)
    ensures Encodable(others, positions)
    ensures var list := PositionsAt(positions, row);
            && AllU32(list) && |list| <= U32_MAX
            && EncodedPositions([row] + others, positions)
            == VintBytes(|list|) + (EncodedList(list) + EncodedPositions(others, positions))
  {
    var list := PositionsAt(positions, row);
    StreamSplit([row] + others, positions, 0);
    assert ([row] + others)[0..] == [row] + others && ([row] + others)[1..] == others;
    hide *;
  }

  lemma {:induction false} ReadsOn(
    bytes: ByteString, row: nat, others: seq<nat>, found: map<nat, set<nat>>, afterCount: ByteString, list: seq<nat>, rest: ByteString)
    requires ReadVint(bytes) == Ok(Read(|list|, afterCount)) && ReadList(afterCount, |list|) == Ok(Read(list, rest))
    ensures ReadPositions(bytes, [row] + others, found) == ReadPositions(rest, others, found[row := Elements(list)])
  {
    hide ReadVint, ReadList;
    assert ([row] + others)[1..] == others;
  }

  /** Every row's positions come back from the one stream. */
  lemma {:induction false} PositionsRoundTrip(rows: seq<nat>, positions: map<nat, seq<nat>>)
    requires Encodable(rows, positions) && AllAscending(rows, positions)
    ensures ReadPositions(EncodedPositions(rows, positions), rows, map[])
         == Ok(map row | row in rows :: Elements(PositionsAt(positions, row)))
  {
    PositionsFrom(rows, positions, map[]);
    assert Expected(rows, positions, map[]) == map row | row in rows :: Elements(PositionsAt(positions, row));
  }

  /** `encode_positions`. */
  method EncodePositions(rows: seq<nat>, positions: map<nat, seq<nat>>) returns (out: ByteString)
    requires Encodable(rows, positions)
    ensures out == EncodedPositions(rows, positions)
  {
    out := [];
    assert rows[0..] == rows;
    hide *;
    for i := 0 to |rows|
      invariant Encodable(rows[i..], positions)
      invariant EncodedPositions(rows, positions) == out + EncodedPositions(rows[i..], positions)
    {
      var list := PositionsAt(positions, rows[i]);
      PutOneRow(out, rows, positions, i);
      out := PutVint(out, |list|);
      var encoded := EncodeU32List(list);
      out := out + encoded;
    }
    assert rows[|rows|..] == [];
    NoPositions(positions);
  }

  lemma {:induction false} PutOneRow(out: ByteString, rows: seq<nat>, positions: map<nat, seq<nat>>, i: nat)
    requires i < |rows| && Encodable(rows[i..], positions)
    ensures Encodable(rows[i + 1..], positions)
    ensures var list := PositionsAt(positions, rows[i]);
            && AllU32(list) && |list| <= U32_MAX
            && out + EncodedPositions(rows[i..], positions)
            == out + VintBytes(|list|) + EncodedList(list) + EncodedPositions(rows[i + 1..], positions)
  {
    hide *;
    var row, others := rows[i], rows[i + 1..];
    var list := PositionsAt(positions, row);
    assert rows[i..] == [row] + others;
    FirstBytes(row, others, positions);
    Regrouped(out, VintBytes(|list|), EncodedList(list), EncodedPositions(others, positions));
  }

  lemma {:induction false} Regrouped(a: ByteString, b: ByteString, c: ByteString, d: ByteString)
    ensures a + (b + (c + d)) == a + b + c + d
  {
  }

  lemma {:induction false} NoPositions(positions: map<nat, seq<nat>>)
    ensures EncodedPositions([], positions) == []
  {
  }

  lemma {:induction false} StreamSplit(rows: seq<nat>, positions: map<nat, seq<nat>>, i: nat)
    requires Encodable(rows, positions) && i < |rows|
    ensures Encodable(rows[i + 1..], positions) && Encodable(rows[i..], positions)
    ensures var list := PositionsAt(positions, rows[i]);
            && AllU32(list) && |list| <= U32_MAX
            && EncodedPositions(rows[i..], positions)
            == VintBytes(|list|) + EncodedList(list) + EncodedPositions(rows[i + 1..], positions)
  {
    assert rows[i..][1..] == rows[i + 1..];
  }

  /** `decode_positions`. */
  method DecodePositions(bytes: ByteString, rows: seq<nat>) returns (result: Result<map<nat, set<nat>>, CodecError>)
    ensures result == ReadPositions(bytes, rows, map[])
  {
    var input := new ByteReader(bytes);
    var found: map<nat, set<nat>> := map[];
    assert rows[0..] == rows;
    hide *;
    for i := 0 to |rows|
      invariant input.Valid()
      invariant ReadPositions(bytes, rows, map[]) == ReadPositions(input.Remaining(), rows[i..], found)
    {
      ghost var here := input.Remaining();
      PositionsStep(here, rows, i, found);
      var count := input.TakeVint();
      AgreesCases(count, input.Remaining(), ReadVint(here));
      if count.Err? {
        return Err(count.error);
      }
      ghost var there := input.Remaining();
      var list := input.TakeU32List(count.value);
      AgreesCases(list, input.Remaining(), ReadList(there, count.value));
      if list.Err? {
        return Err(list.error);
      }
      found := found[rows[i] := Elements(list.value)];
    }
    assert rows[|rows|..] == [];
    PositionsEnd(input.Remaining(), found);
    var done := input.ExpectDone();
    if done {
      return Ok(found);
    } else {
      return Err(TrailingBytes);
    }
  }

  lemma {:induction false} PositionsStep(bytes: ByteString, rows: seq<nat>, i: nat, found: map<nat, set<nat>>)
    requires i < |rows|
    ensures ReadPositions(bytes, rows[i..], found)
         == match ReadVint(bytes)
            case Err(e) => Err(e)
            case Ok(count) =>
              match ReadList(count.rest, count.value)
              case Err(e) => Err(e)
              case Ok(list) => ReadPositions(list.rest, rows[i + 1..], found[rows[i] := Elements(list.value)])
  {
    hide ReadVint, ReadList;
    assert rows[i..][1..] == rows[i + 1..];
  }

  lemma {:induction false} PositionsEnd(bytes: ByteString, found: map<nat, set<nat>>)
    ensures ReadPositions(bytes, [], found) == if bytes == [] then Ok(found) else Err(TrailingBytes)
  {
  }
}
