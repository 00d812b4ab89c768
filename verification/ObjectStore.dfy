/**
 What the object stores under the program answer to reads: a range that is empty or starts
 past the object is refused, one that ends past it is cut off.
 */
module ObjectStore {
  import opened Wrappers
  import opened Bytes

  type Path = string

  /** The ranges a read can ask for. */
  datatype GetRange = Bounded(start: nat, end: nat) | Offset(offset: nat) | Suffix(length: nat)

  datatype Range = Range(start: nat, end: nat)

  /** The range that is served for a request, if it is accepted. */
  function ServedRange(size: nat, range: Option<GetRange>): Option<Range> {
    match range
    case None => Some(Range(0, size))
    case Some(Bounded(start, end)) =>
      if start >= end || start >= size then None else Some(Range(start, if end > size then size else end))
    case Some(Offset(offset)) => if offset >= size then None else Some(Range(offset, size))
    case Some(Suffix(length)) => Some(Range(if length >= size then 0 else size - length, size))
  }

  /** The places of the object that a request asks for. */
  predicate Asks(size: nat, range: Option<GetRange>, i: nat) {
    match range
    case None => i < size
    case Some(Bounded(start, end)) => start <= i < end && i < size
    case Some(Offset(offset)) => offset <= i < size
    case Some(Suffix(length)) => i < size && size <= i + length
  }

  /** What is served are the places asked for; bounded and offset requests that ask for none are refused. */
  lemma {:induction false} ServedIsAsked(size: nat, range: Option<GetRange>)
    ensures ServedRange(size, range).Some? ==>
      var served := ServedRange(size, range).value;
      served.start <= served.end <= size && forall i: nat :: served.start <= i < served.end <==> Asks(size, range, i)
    ensures ServedRange(size, range).None? <==>
      range.Some? && !range.value.Suffix? && forall i: nat :: !Asks(size, range, i)
  {
    if range.Some? && ServedRange(size, range).Some? && !range.value.Suffix? {
      assert Asks(size, range, if range.value.Bounded? then range.value.start else range.value.offset);
    }
  }

  function ServedBytes(content: ByteString, range: Range): Option<ByteString> {
    match ServedRange(|content|, Some(Bounded(range.start, range.end)))
    case None => None
    case Some(served) => Some(content[served.start..served.end])
  }

  /** `get_ranges`: every range's bytes, or a refusal as soon as one is refused. */
  function ServedAll(content: ByteString, ranges: seq<Range>): Option<seq<ByteString>> {
    if ranges == [] then Some([])
    else
      match ServedAll(content, ranges[..|ranges| - 1])
      case None => None
      case Some(front) =>
        match ServedBytes(content, ranges[|ranges| - 1])
        case None => None
        case Some(last) => Some(front + [last])
  }

  lemma {:induction false} ServedEach(content: ByteString, ranges: seq<Range>)
    ensures ServedAll(content, ranges).Some? <==> forall i :: 0 <= i < |ranges| ==> ServedBytes(content, ranges[i]).Some?
    ensures ServedAll(content, ranges).Some? ==> |ServedAll(content, ranges).value| == |ranges|
    ensures ServedAll(content, ranges).Some? ==>
      forall i :: 0 <= i < |ranges| ==> ServedBytes(content, ranges[i]) == Some(ServedAll(content, ranges).value[i])
  {
    hide ServedBytes;
    if ranges != [] {
      ServedEach(content, ranges[..|ranges| - 1]);
    }
  }
}
