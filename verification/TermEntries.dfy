/**
 From occurrences to dictionary entries: interned terms, sorted by the radix sort and
 grouped into one entry per term (src/search/mod.rs).
 */
module TermEntries {
  import opened Wrappers
  import opened Bytes
  import opened SearchIndexData
  import opened PositionCodec
  import Ordering
  import RadixSort

  // ---- the interner ----

  predicate RangesIn(bytes: ByteString, ranges: seq<(nat, nat)>) {
    forall i :: 0 <= i < |ranges| ==> ranges[i].0 <= ranges[i].1 <= |bytes|
  }

  function TermsIn(bytes: ByteString, ranges: seq<(nat, nat)>): (terms: seq<ByteString>)
    requires RangesIn(bytes, ranges)
    ensures |terms| == |ranges|
  {
    seq(|ranges|, i requires 0 <= i < |ranges| => bytes[ranges[i].0..ranges[i].1])
  }

  lemma {:induction false} TermsAppend(bytes: ByteString, ranges: seq<(nat, nat)>, term: ByteString)
    requires RangesIn(bytes, ranges)
    ensures RangesIn(bytes + term, ranges + [(|bytes|, |bytes + term|)])
    ensures TermsIn(bytes + term, ranges + [(|bytes|, |bytes + term|)]) == TermsIn(bytes, ranges) + [term]
  {
    var after := TermsIn(bytes + term, ranges + [(|bytes|, |bytes + term|)]);
    forall i | 0 <= i < |ranges|
      ensures after[i] == TermsIn(bytes, ranges)[i]
    {
      var (lo, hi) := ranges[i];
      assert (bytes + term)[lo..hi] == bytes[lo..hi];
    }
    assert (bytes + term)[|bytes|..|bytes + term|] == term;
    assert after[|ranges|] == term;
  }

  /** The number given to the term at a position: past the largest u32 they all get that one. */
  function NumberFor(position: nat): nat {
    if position < U32_MAX then position else U32_MAX
  }

  /** The lookup table numbers exactly these terms, no term standing twice. */
  ghost predicate LookupFor(terms: seq<ByteString>, lookup: map<ByteString, nat>) {
    && Distinct(terms)
    && (forall i :: 0 <= i < |terms| ==> terms[i] in lookup && lookup[terms[i]] == NumberFor(i))
    && (forall term :: term in lookup ==> term in terms)
  }

  lemma {:induction false} LookupAppend(terms: seq<ByteString>, lookup: map<ByteString, nat>, term: ByteString)
    requires LookupFor(terms, lookup) && term !in lookup
    ensures LookupFor(terms + [term], lookup[term := NumberFor(|terms|)]) && term !in terms
  {
  }

  lemma {:induction false} LookedUp(terms: seq<ByteString>, lookup: map<ByteString, nat>, term: ByteString)
    requires LookupFor(terms, lookup) && term in lookup
    ensures term in terms && Numbers(terms, lookup[term], term)
  {
    var i :| 0 <= i < |terms| && terms[i] == term;
  }

  /** A number that stands for a term: its position, unless that is past the largest u32. */
  ghost predicate Numbers(terms: seq<ByteString>, id: nat, term: ByteString) {
    exists i :: 0 <= i < |terms| && terms[i] == term && id == NumberFor(i)
  }

  lemma {:induction false} NumberIsPosition(terms: seq<ByteString>, id: nat, term: ByteString)
    requires Numbers(terms, id, term) && |terms| <= U32_MAX + 1
    ensures id < |terms| && terms[id] == term
  {
  }

  /** Terms by number: their bytes end to end, their ranges, and the numbers given out. */
  class TermInterner {
    var bytes: ByteString
    var ranges: seq<(nat, nat)>
    var lookup: map<ByteString, nat>

    ghost predicate Valid()
      reads this
    {
      RangesIn(bytes, ranges) && LookupFor(TermsIn(bytes, ranges), lookup)
    }

    /** The interned terms, by number. */
    function Contents(): (terms: seq<ByteString>)
      requires Valid()
      reads this
      ensures |terms| == |ranges|
    {
      TermsIn(bytes, ranges)
    }

    constructor ()
      ensures Valid() && Contents() == []
    {
      bytes, ranges, lookup := [], [], map[];
    }

    /**
     `intern`: the number of a term, new or old; numbers given before keep their terms.  As
     long as a u32 can number them, the number is the term's place.
     */
    method Intern(term: ByteString) returns (id: nat)
      requires Valid()
      modifies this
      ensures Valid()
      ensures Contents() == if term in old(Contents()) then old(Contents()) else old(Contents()) + [term]
      ensures Numbers(Contents(), id, term)
      ensures |Contents()| <= U32_MAX + 1 ==> id < |Contents()| && Contents()[id] == term
    {
      hide TermsIn, RangesIn, LookupFor, NumberFor, Numbers;
      if term in lookup {
        id := lookup[term];
        LookedUp(Contents(), lookup, term);
      } else {
        TermsAppend(bytes, ranges, term);
        LookupAppend(TermsIn(bytes, ranges), lookup, term);
        var start := |bytes|;
        id := NumberFor(|ranges|);
        LastNumbers(TermsIn(bytes, ranges), term);
        bytes := bytes + term;
        ranges := ranges + [(start, |bytes|)];
        lookup := lookup[term := id];
      }
      if |Contents()| <= U32_MAX + 1 {
        NumberIsPosition(Contents(), id, term);
      }
    }
  }

  lemma {:induction false} LastNumbers(terms: seq<ByteString>, term: ByteString)
    ensures Numbers(terms + [term], NumberFor(|terms|), term)
  {
    assert (terms + [term])[|terms|] == term;
  }

  ghost predicate Distinct(terms: seq<ByteString>) {
    forall i, j :: 0 <= i < j < |terms| ==> terms[i] != terms[j]
  }

  lemma {:induction false} InternedDistinct(interner: TermInterner)
    requires interner.Valid()
    ensures Distinct(interner.Contents())
  {
  }

  /** Numbers tell the interned terms apart exactly as long as u32s can number them all. */
  lemma {:induction false} TermsToldApartIff(interner: TermInterner)
    requires interner.Valid()
    ensures (forall s, t :: s in interner.lookup && t in interner.lookup && s != t ==> interner.lookup[s] != interner.lookup[t])
       <==> |interner.Contents()| <= U32_MAX + 1
  {
    hide TermsIn, RangesIn;
    var terms, lookup := interner.Contents(), interner.lookup;
    if |terms| > U32_MAX + 1 {
      var s, t := terms[U32_MAX], terms[U32_MAX + 1];
      assert s in lookup && t in lookup && lookup[s] == lookup[t] == U32_MAX && s != t;
    }
  }

  // ---- occurrences ----

  datatype Occurrence = Occurrence(termId: nat, row: nat, position: nat)

  ghost predicate Numbered(terms: seq<ByteString>, occs: seq<Occurrence>) {
    forall k :: 0 <= k < |occs| ==> occs[k].termId < |terms|
  }

  function TermOf(terms: seq<ByteString>, o: Occurrence): ByteString {
    if o.termId < |terms| then terms[o.termId] else []
  }

  /** The rows a term occurs in. */
  ghost function RowsWith(terms: seq<ByteString>, occs: seq<Occurrence>, term: ByteString): set<nat> {
    set o | o in occs && TermOf(terms, o) == term :: o.row
  }

  ghost function PositionsWith(terms: seq<ByteString>, occs: seq<Occurrence>, term: ByteString, row: nat): set<nat> {
    set o | o in occs && TermOf(terms, o) == term && o.row == row :: o.position
  }

  // ---- ordered sets of numbers ----

  predicate StrictlyAscending(xs: seq<nat>) {
    forall i, j :: 0 <= i < j < |xs| ==> xs[i] < xs[j]
  }

  /** An ordered set's insertion. */
  function InsertNumber(xs: seq<nat>, x: nat): seq<nat> {
    if xs == [] || x < xs[0] then [x] + xs
    else if x == xs[0] then xs
    else [xs[0]] + InsertNumber(xs[1..], x)
  }

  function Members(xs: seq<nat>): set<nat> {
    set x | x in xs
  }

  lemma {:induction false} InsertMember(xs: seq<nat>, x: nat, y: nat)
    ensures y in InsertNumber(xs, x) <==> y == x || y in xs
  {
    if xs != [] && x > xs[0] {
      InsertMember(xs[1..], x, y);
      assert xs == [xs[0]] + xs[1..];
    }
  }

  lemma {:induction false} InsertAscends(xs: seq<nat>, x: nat)
    requires StrictlyAscending(xs)
    ensures StrictlyAscending(InsertNumber(xs, x))
  {
    if xs != [] && x > xs[0] {
      var tail := InsertNumber(xs[1..], x);
      InsertAscends(xs[1..], x);
      forall i | 0 <= i < |tail|
        ensures xs[0] < tail[i]
      {
        InsertMember(xs[1..], x, tail[i]);
      }
      assert InsertNumber(xs, x) == [xs[0]] + tail;
      hide InsertNumber;
    }
  }

  lemma {:induction false} InsertNumberHolds(xs: seq<nat>, x: nat)
    requires StrictlyAscending(xs)
    ensures StrictlyAscending(InsertNumber(xs, x))
    ensures Members(InsertNumber(xs, x)) == Members(xs) + {x}
  {
    hide InsertNumber;
    InsertAscends(xs, x);
    forall y
      ensures y in InsertNumber(xs, x) <==> y == x || y in xs
    {
      InsertMember(xs, x, y);
    }
  }

  // ---- entries ----

  /** A term with the rows it occurs in and, for values, its positions in each. */
  datatype Entry = Entry(term: ByteString, rows: seq<nat>, positions: map<nat, seq<nat>>)

  function Accumulated(e: Entry, o: Occurrence, positioned: bool): Entry {
    var list: seq<nat> := if o.row in e.positions then e.positions[o.row] else [];
    Entry(e.term, InsertNumber(e.rows, o.row), if positioned then e.positions[o.row := InsertNumber(list, o.position)] else e.positions)
  }

  ghost predicate PositionsDescribed(terms: seq<ByteString>, occs: seq<Occurrence>, e: Entry) {
    && e.positions.Keys == Members(e.rows)
    && forall row :: row in e.positions ==>
         StrictlyAscending(e.positions[row]) && Members(e.positions[row]) == PositionsWith(terms, occs, e.term, row)
  }

  /** The entry says exactly where its term occurs. */
  ghost predicate Describes(terms: seq<ByteString>, occs: seq<Occurrence>, e: Entry, positioned: bool) {
    && StrictlyAscending(e.rows) && Members(e.rows) == RowsWith(terms, occs, e.term)
    && (if positioned then PositionsDescribed(terms, occs, e) else e.positions == map[])
  }

  ghost predicate HasEntry(entries: seq<Entry>, term: ByteString) {
    exists i :: 0 <= i < |entries| && entries[i].term == term
  }

  ghost predicate EntryOrder(entries: seq<Entry>) {
    forall i, j :: 0 <= i < j < |entries| ==> BytesLess(entries[i].term, entries[j].term)
  }

  ghost predicate EntriesFor(terms: seq<ByteString>, occs: seq<Occurrence>, entries: seq<Entry>, positioned: bool) {
    && EntryOrder(entries)
    && (forall i :: 0 <= i < |entries| ==> Describes(terms, occs, entries[i], positioned) && entries[i].rows != [])
    && (forall k :: 0 <= k < |occs| ==> HasEntry(entries, TermOf(terms, occs[k])))
  }

  lemma {:induction false} RowsAppend(terms: seq<ByteString>, occs: seq<Occurrence>, o: Occurrence, term: ByteString)
    ensures RowsWith(terms, occs + [o], term) == RowsWith(terms, occs, term) + (if TermOf(terms, o) == term then {o.row} else {})
  {
    assert forall p :: p in occs + [o] <==> p in occs || p == o;
  }

  lemma {:induction false} PositionsAppend(terms: seq<ByteString>, occs: seq<Occurrence>, o: Occurrence, term: ByteString, row: nat)
    ensures PositionsWith(terms, occs + [o], term, row)
         == PositionsWith(terms, occs, term, row) + (if TermOf(terms, o) == term && o.row == row then {o.position} else {})
  {
    assert forall p :: p in occs + [o] <==> p in occs || p == o;
  }

  /** Another term's occurrence leaves an entry right. */
  lemma {:induction false} OtherTermKept(terms: seq<ByteString>, occs: seq<Occurrence>, o: Occurrence, e: Entry, positioned: bool)
    requires Describes(terms, occs, e, positioned) && TermOf(terms, o) != e.term
    ensures Describes(terms, occs + [o], e, positioned)
  {
    RowsAppend(terms, occs, o, e.term);
    forall row
      ensures PositionsWith(terms, occs + [o], e.term, row) == PositionsWith(terms, occs, e.term, row)
    {
      PositionsAppend(terms, occs, o, e.term, row);
    }
  }

  /** One more occurrence of the entry's own term. */
  lemma {:induction false} OwnTermAdded(terms: seq<ByteString>, occs: seq<Occurrence>, o: Occurrence, e: Entry, positioned: bool)
    requires Describes(terms, occs, e, positioned) && TermOf(terms, o) == e.term
    ensures Describes(terms, occs + [o], Accumulated(e, o, positioned), positioned)
  {
    RowsAppend(terms, occs, o, e.term);
    InsertNumberHolds(e.rows, o.row);
    if positioned {
      OwnPositionAdded(terms, occs, o, e);
    }
    hide InsertNumber, Members, RowsWith, PositionsWith, StrictlyAscending, PositionsDescribed;
  }

  lemma {:induction false} OwnPositionAdded(terms: seq<ByteString>, occs: seq<Occurrence>, o: Occurrence, e: Entry)
    requires Describes(terms, occs, e, true) && TermOf(terms, o) == e.term
    ensures PositionsDescribed(terms, occs + [o], Accumulated(e, o, true))
  {
    var after := Accumulated(e, o, true);
    var list: seq<nat> := if o.row in e.positions then e.positions[o.row] else [];
    InsertNumberHolds(e.rows, o.row);
    if o.row !in e.positions {
      NoPositionsYet(terms, occs, e, o.row);
      EmptyMembers();
    }
    hide InsertNumber, Members, RowsWith, PositionsWith, StrictlyAscending;
    InsertNumberHolds(list, o.position);
    assert after.positions.Keys == e.positions.Keys + {o.row};
    forall row | row in after.positions
      ensures StrictlyAscending(after.positions[row])
      ensures Members(after.positions[row]) == PositionsWith(terms, occs + [o], e.term, row)
    {
      PositionsAppend(terms, occs, o, e.term, row);
    }
  }

  lemma {:induction false} EmptyMembers()
    ensures Members([]) == {}
  {
  }

  lemma {:induction false} NoPositionsYet(terms: seq<ByteString>, occs: seq<Occurrence>, e: Entry, row: nat)
    requires Describes(terms, occs, e, true) && row !in e.positions
    ensures PositionsWith(terms, occs, e.term, row) == {} && StrictlyAscending([])
  {
    assert row !in RowsWith(terms, occs, e.term);
    forall o | o in occs && TermOf(terms, o) == e.term
      ensures o.row != row
    {
      assert o.row in RowsWith(terms, occs, e.term);
    }
  }

  /** The first occurrence of a term. */
  lemma {:induction false} FirstOfTerm(terms: seq<ByteString>, occs: seq<Occurrence>, o: Occurrence, positioned: bool)
    requires forall p :: p in occs ==> TermOf(terms, p) != TermOf(terms, o)
    ensures Describes(terms, occs + [o], Accumulated(Entry(TermOf(terms, o), [], map[]), o, positioned), positioned)
  {
    var e := Entry(TermOf(terms, o), [], map[]);
    assert RowsWith(terms, occs, e.term) == {} && Members(e.rows) == {};
    OwnTermAdded(terms, occs, o, e, positioned);
  }

  // ---- how large entries become ----

  /** How many positions an entry stores. */
  function PositionCount(rows: seq<nat>, positions: map<nat, seq<nat>>): nat {
    if rows == [] then 0 else |PositionsAt(positions, rows[0])| + PositionCount(rows[1..], positions)
  }

  /** An entry's term, rows and positions. */
  function EntryCost(e: Entry): nat {
    1 + |e.term| + |e.rows| + PositionCount(e.rows, e.positions)
  }

  function EntriesCost(entries: seq<Entry>): nat {
    if entries == [] then 0 else EntriesCost(entries[..|entries| - 1]) + EntryCost(entries[|entries| - 1])
  }

  /** The bytes of the occurrences' terms, and three for each occurrence. */
  function Volume(terms: seq<ByteString>, occs: seq<Occurrence>): nat {
    if occs == [] then 0 else Volume(terms, occs[..|occs| - 1]) + |TermOf(terms, occs[|occs| - 1])| + 3
  }

  lemma {:induction false} VolumeAppend(terms: seq<ByteString>, occs: seq<Occurrence>, o: Occurrence)
    ensures Volume(terms, occs + [o]) == Volume(terms, occs) + |TermOf(terms, o)| + 3
  {
    assert (occs + [o])[..|occs|] == occs;
  }

  lemma {:induction false} VolumeJoin(terms: seq<ByteString>, a: seq<Occurrence>, b: seq<Occurrence>)
    ensures Volume(terms, a + b) == Volume(terms, a) + Volume(terms, b)
  {
    if b == [] {
      assert a + b == a;
    } else {
      assert (a + b)[..|a + b| - 1] == a + b[..|b| - 1];
      VolumeJoin(terms, a, b[..|b| - 1]);
    }
  }

  lemma {:induction false} VolumeAround(terms: seq<ByteString>, occs: seq<Occurrence>, i: nat)
    requires i < |occs|
    ensures Volume(terms, occs) == Volume(terms, occs[..i] + occs[i + 1..]) + |TermOf(terms, occs[i])| + 3
  {
    hide Volume;
    assert occs == occs[..i] + [occs[i]] + occs[i + 1..];
    VolumeJoin(terms, occs[..i] + [occs[i]], occs[i + 1..]);
    VolumeAppend(terms, occs[..i], occs[i]);
    VolumeJoin(terms, occs[..i], occs[i + 1..]);
  }

  lemma {:induction false} VolumePermuted(terms: seq<ByteString>, a: seq<Occurrence>, b: seq<Occurrence>)
    requires multiset(a) == multiset(b)
    ensures Volume(terms, a) == Volume(terms, b)
  {
    hide Volume;
    if a == [] {
      assert |multiset(b)| == 0;
      assert a == b;
    } else {
      var i := Ordering.RemoveFirst(a, b);
      VolumePermuted(terms, a[1..], b[..i] + b[i + 1..]);
      VolumeAround(terms, b, i);
      VolumeAround(terms, a, 0);
      assert a[..0] + a[1..] == a[1..];
    }
  }

  lemma {:induction false} InsertLength(xs: seq<nat>, x: nat)
    ensures |InsertNumber(xs, x)| <= |xs| + 1
  {
    if xs != [] && x > xs[0] {
      InsertLength(xs[1..], x);
    }
  }

  lemma {:induction false} OtherRowsCount(rows: seq<nat>, positions: map<nat, seq<nat>>, row: nat, list: seq<nat>)
    requires row !in rows
    ensures PositionCount(rows, positions[row := list]) == PositionCount(rows, positions)
  {
    if rows != [] {
      OtherRowsCount(rows[1..], positions, row, list);
      assert rows[0] in rows;
    }
  }

  /** One more position, or none, at its place among the rows. */
  lemma {:induction false} InsertCount(rows: seq<nat>, positions: map<nat, seq<nat>>, row: nat, position: nat)
    requires StrictlyAscending(rows) && (row !in rows ==> row !in positions)
    ensures PositionCount(InsertNumber(rows, row), positions[row := InsertNumber(PositionsAt(positions, row), position)])
         <= PositionCount(rows, positions) + 1
  {
    var list := InsertNumber(PositionsAt(positions, row), position);
    var after := positions[row := list];
    InsertLength(PositionsAt(positions, row), position);
    hide InsertNumber, PositionCount;
    InsertShape(rows, row);
    CountShape(row, rows, after);
    if rows == [] || row < rows[0] {
      assert row !in rows by { assert forall i :: 0 <= i < |rows| ==> rows[0] <= rows[i]; }
      OtherRowsCount(rows, positions, row, list);
    } else {
      var first, others := rows[0], rows[1..];
      assert rows == [first] + others;
      CountShape(first, others, positions);
      if row == first {
        CountShape(first, others, after);
        OtherRowsCount(others, positions, row, list);
      } else {
        InsertCount(others, positions, row, position);
        CountShape(first, InsertNumber(others, row), after);
      }
    }
  }

  lemma {:induction false} InsertShape(xs: seq<nat>, x: nat)
    ensures InsertNumber(xs, x) ==
            if xs == [] || x < xs[0] then [x] + xs else if x == xs[0] then xs else [xs[0]] + InsertNumber(xs[1..], x)
  {
  }

  lemma {:induction false} CountShape(row: nat, others: seq<nat>, positions: map<nat, seq<nat>>)
    ensures PositionCount([row] + others, positions) == |PositionsAt(positions, row)| + PositionCount(others, positions)
  {
    assert ([row] + others)[1..] == others;
  }

  lemma {:induction false} NothingCounted(rows: seq<nat>)
    ensures PositionCount(rows, map[]) == 0
  {
    if rows != [] {
      NothingCounted(rows[1..]);
    }
  }

  /** An occurrence adds at most a row and a position to its entry. */
  lemma {:induction false} AccumulatedCost(e: Entry, o: Occurrence, positioned: bool)
    requires StrictlyAscending(e.rows) && (if positioned then e.positions.Keys == Members(e.rows) else e.positions == map[])
    ensures EntryCost(Accumulated(e, o, positioned)) <= EntryCost(e) + 2
  {
    InsertLength(e.rows, o.row);
    if positioned {
      InsertCount(e.rows, e.positions, o.row, o.position);
    } else {
      NothingCounted(e.rows);
      NothingCounted(InsertNumber(e.rows, o.row));
    }
    hide InsertNumber, PositionCount, StrictlyAscending;
  }

  lemma {:induction false} EntriesCostAppend(entries: seq<Entry>, e: Entry)
    ensures EntriesCost(entries + [e]) == EntriesCost(entries) + EntryCost(e)
  {
    assert (entries + [e])[..|entries|] == entries;
    hide EntryCost;
  }

  lemma {:induction false} SameTermCost(terms: seq<ByteString>, occs: seq<Occurrence>, done: seq<Entry>, e: Entry, o: Occurrence, positioned: bool)
    requires EntriesFor(terms, occs, done + [e], positioned) && EntriesCost(done + [e]) <= Volume(terms, occs)
    ensures EntriesCost(done + [Accumulated(e, o, positioned)]) <= Volume(terms, occs + [o])
  {
    var before := done + [e];
    assert before[|done|] == e;
    assert Describes(terms, occs, e, positioned);
    hide EntriesCost, EntryCost, Volume, Members, StrictlyAscending, EntriesFor, RowsWith, Accumulated;
    AccumulatedCost(e, o, positioned);
    EntriesCostAppend(done, e);
    EntriesCostAppend(done, Accumulated(e, o, positioned));
    VolumeAppend(terms, occs, o);
  }

  lemma {:induction false} NewTermCost(terms: seq<ByteString>, occs: seq<Occurrence>, entries: seq<Entry>, o: Occurrence, positioned: bool)
    requires EntriesCost(entries) <= Volume(terms, occs)
    ensures EntriesCost(entries + [Accumulated(Entry(TermOf(terms, o), [], map[]), o, positioned)]) <= Volume(terms, occs + [o])
  {
    var e := Entry(TermOf(terms, o), [], map[]);
    assert StrictlyAscending(e.rows) && e.positions.Keys == Members(e.rows);
    AccumulatedCost(e, o, positioned);
    assert EntryCost(e) == 1 + |TermOf(terms, o)|;
    hide EntriesCost, EntryCost, Volume, Accumulated;
    EntriesCostAppend(entries, Accumulated(e, o, positioned));
    VolumeAppend(terms, occs, o);
  }

  // ---- grouping ----

  lemma {:induction false} SameTermStep(terms: seq<ByteString>, occs: seq<Occurrence>, done: seq<Entry>, e: Entry, o: Occurrence, positioned: bool)
    requires EntriesFor(terms, occs, done + [e], positioned) && TermOf(terms, o) == e.term
    ensures EntriesFor(terms, occs + [o], done + [Accumulated(e, o, positioned)], positioned)
  {
    var before, after := done + [e], done + [Accumulated(e, o, positioned)];
    hide Describes;
    assert before[|done|] == e;
    OwnTermAdded(terms, occs, o, e, positioned);
    forall i | 0 <= i < |after|
      ensures Describes(terms, occs + [o], after[i], positioned)
    {
      if i < |done| {
        assert after[i] == before[i];
        assert BytesLess(before[i].term, before[|done|].term);
        OtherTermKept(terms, occs, o, after[i], positioned);
      }
    }
    assert forall i :: 0 <= i < |after| ==> after[i].term == before[i].term;
    forall k | 0 <= k < |occs + [o]|
      ensures HasEntry(after, TermOf(terms, (occs + [o])[k]))
    {
      if k < |occs| {
        assert HasEntry(before, TermOf(terms, occs[k]));
      } else {
        assert after[|done|].term == TermOf(terms, o);
      }
    }
  }

  lemma {:induction false} NewTermStep(terms: seq<ByteString>, occs: seq<Occurrence>, entries: seq<Entry>, o: Occurrence, positioned: bool)
    requires EntriesFor(terms, occs, entries, positioned)
    requires entries != [] ==> BytesLess(entries[|entries| - 1].term, TermOf(terms, o))
    ensures EntriesFor(terms, occs + [o], entries + [Accumulated(Entry(TermOf(terms, o), [], map[]), o, positioned)], positioned)
  {
    var e := Accumulated(Entry(TermOf(terms, o), [], map[]), o, positioned);
    var after := entries + [e];
    hide Describes;
    forall i | 0 <= i < |entries|
      ensures BytesLess(entries[i].term, TermOf(terms, o))
    {
      if i < |entries| - 1 {
        LessTransitive(entries[i].term, entries[|entries| - 1].term, TermOf(terms, o));
      }
    }
    forall p | p in occs
      ensures TermOf(terms, p) != TermOf(terms, o)
    {
      var k :| 0 <= k < |occs| && occs[k] == p;
      assert HasEntry(entries, TermOf(terms, occs[k]));
    }
    FirstOfTerm(terms, occs, o, positioned);
    forall i | 0 <= i < |after|
      ensures Describes(terms, occs + [o], after[i], positioned)
    {
      if i < |entries| {
        OtherTermKept(terms, occs, o, after[i], positioned);
      }
    }
    forall k | 0 <= k < |occs + [o]|
      ensures HasEntry(after, TermOf(terms, (occs + [o])[k]))
    {
      if k < |occs| {
        assert HasEntry(entries, TermOf(terms, occs[k]));
        var i :| 0 <= i < |entries| && entries[i].term == TermOf(terms, occs[k]);
        assert after[i].term == TermOf(terms, occs[k]);
      } else {
        assert after[|entries|].term == TermOf(terms, o);
      }
    }
  }

  /** Entries depend on the occurrences, not on their order. */
  lemma {:induction false} EntriesPermuted(terms: seq<ByteString>, sorted: seq<Occurrence>, occs: seq<Occurrence>, entries: seq<Entry>, positioned: bool)
    requires EntriesFor(terms, sorted, entries, positioned) && multiset(sorted) == multiset(occs)
    ensures EntriesFor(terms, occs, entries, positioned)
  {
    assert forall o :: o in occs <==> o in sorted by {
      forall o
        ensures o in occs <==> o in sorted
      {
        assert o in occs <==> o in multiset(occs);
        assert o in sorted <==> o in multiset(sorted);
      }
    }
    forall i | 0 <= i < |entries|
      ensures Describes(terms, occs, entries[i], positioned)
    {
      assert Describes(terms, sorted, entries[i], positioned);
      assert RowsWith(terms, occs, entries[i].term) == RowsWith(terms, sorted, entries[i].term);
      assert forall row :: PositionsWith(terms, occs, entries[i].term, row) == PositionsWith(terms, sorted, entries[i].term, row);
    }
    forall k | 0 <= k < |occs|
      ensures HasEntry(entries, TermOf(terms, occs[k]))
    {
      assert occs[k] in sorted;
      var j :| 0 <= j < |sorted| && sorted[j] == occs[k];
      assert HasEntry(entries, TermOf(terms, sorted[j]));
    }
  }

  /**
   `build_key_entries` and `build_value_entries`: strictly increasing terms, each with
   exactly the rows (and positions) of its occurrences.
   */
  method BuildEntries(terms: seq<ByteString>, occs: seq<Occurrence>, positioned: bool) returns (entries: seq<Entry>)
    requires Distinct(terms) && Numbered(terms, occs)
    ensures EntriesFor(terms, occs, entries, positioned)
    ensures EntriesCost(entries) <= Volume(terms, occs)
  {
    hide *;
    RootPrefix(terms, occs);
    var sorted := RadixSort.RadixSorted(o => TermOf(terms, o), occs, [], 0);
    SortedNumbered(terms, sorted, occs);
    entries := GroupSorted(terms, sorted, positioned);
    EntriesPermuted(terms, sorted, occs, entries, positioned);
    VolumePermuted(terms, sorted, occs);
  }

  /** The grouping loop over sorted occurrences. */
  method GroupSorted(terms: seq<ByteString>, sorted: seq<Occurrence>, positioned: bool) returns (entries: seq<Entry>)
    requires Distinct(terms) && Numbered(terms, sorted) && RadixSort.SortedByTerm(o => TermOf(terms, o), sorted)
    ensures EntriesFor(terms, sorted, entries, positioned)
    ensures EntriesCost(entries) <= Volume(terms, sorted)
  {
    entries := [];
    var currentId: Option<nat> := None;
    var current := Entry([], [], map[]);
    ghost var seen: seq<Occurrence>, shown: seq<Entry> := [], [];
    NoEntries(terms, positioned);
    hide *;
    for i := 0 to |sorted|
      invariant seen == sorted[..i] && EntriesFor(terms, seen, shown, positioned)
      invariant EntriesCost(shown) <= Volume(terms, seen)
      invariant if i == 0 then currentId == None && entries == [] == shown
                else currentId == Some(sorted[i - 1].termId) && current.term == TermOf(terms, sorted[i - 1]) && shown == entries + [current]
    {
      var o := sorted[i];
      if currentId == Some(o.termId) {
        SameNumber(terms, sorted[i - 1], o);
        SameTermStep(terms, seen, entries, current, o, positioned);
        SameTermCost(terms, seen, entries, current, o, positioned);
        SameTermName(current, o, positioned);
        current := Accumulated(current, o, positioned);
      } else {
        if currentId.Some? {
          NextTermLess(terms, sorted, i);
          entries := entries + [current];
        }
        NewTermStep(terms, seen, shown, o, positioned);
        NewTermCost(terms, seen, shown, o, positioned);
        SameTermName(Entry(TermOf(terms, o), [], map[]), o, positioned);
        currentId := Some(o.termId);
        current := Accumulated(Entry(TermOf(terms, o), [], map[]), o, positioned);
      }
      seen, shown := seen + [o], entries + [current];
    }
    if currentId.Some? {
      entries := entries + [current];
    }
    assert sorted[..|sorted|] == sorted;
  }

  lemma {:induction false} RootPrefix(terms: seq<ByteString>, occs: seq<Occurrence>)
    ensures RadixSort.SharePrefix(o => TermOf(terms, o), occs, [])
  {
  }

  lemma {:induction false} NoEntries(terms: seq<ByteString>, positioned: bool)
    ensures EntriesFor(terms, [], [], positioned)
    ensures EntriesCost([]) == 0 && Volume(terms, []) == 0
  {
  }

  lemma {:induction false} SortedNumbered(terms: seq<ByteString>, sorted: seq<Occurrence>, occs: seq<Occurrence>)
    requires Numbered(terms, occs) && multiset(sorted) == multiset(occs)
    ensures Numbered(terms, sorted)
  {
    forall k | 0 <= k < |sorted|
      ensures sorted[k].termId < |terms|
    {
      assert sorted[k] in multiset(sorted);
      assert sorted[k] in occs;
    }
  }

  lemma {:induction false} SameNumber(terms: seq<ByteString>, a: Occurrence, b: Occurrence)
    requires a.termId == b.termId
    ensures TermOf(terms, a) == TermOf(terms, b)
  {
  }

  lemma {:induction false} SameTermName(e: Entry, o: Occurrence, positioned: bool)
    ensures Accumulated(e, o, positioned).term == e.term
  {
  }

  lemma {:induction false} NextTermLess(terms: seq<ByteString>, sorted: seq<Occurrence>, i: nat)
    requires Distinct(terms) && Numbered(terms, sorted) && RadixSort.SortedByTerm(o => TermOf(terms, o), sorted)
    requires 0 < i < |sorted| && sorted[i - 1].termId != sorted[i].termId
    ensures BytesLess(TermOf(terms, sorted[i - 1]), TermOf(terms, sorted[i]))
  {
    var (a, b) := (sorted[i - 1].termId, sorted[i].termId);
    assert a < b ==> terms[a] != terms[b];
    assert b < a ==> terms[b] != terms[a];
  }
}
