/**
 What a row says, token by token: for every path the sequence of its tokens, with a gap
 after each JSON leaf, and the exact values and paths beside it.  This is the plain scan
 that the index is measured against; the indexer's occurrences are tied to it here
 (src/search/indexer.rs).
 */
module TokenStreams {
  import opened Wrappers
  import opened Bytes
  import opened SearchIndexData
  import opened SearchPredicates
  import opened TermEntries

  /** A row and a path in it. */
  datatype Place = Place(row: nat, path: ByteString)

  /** A token per position; `None` is a gap. */
  type Stream = seq<Option<ByteString>>

  datatype Content = Content(streams: map<Place, Stream>, exacts: set<(Place, ByteString)>, paths: set<Place>)

  const EMPTY: Content := Content(map[], {}, {})

  function StreamAt(c: Content, place: Place): Stream {
    if place in c.streams then c.streams[place] else []
  }

  function Appended(c: Content, place: Place, more: Stream): Content {
    if more == [] then c else c.(streams := c.streams[place := StreamAt(c, place) + more])
  }

  lemma {:induction false} AppendedTwice(c: Content, place: Place, a: Stream, b: Stream)
    ensures Appended(Appended(c, place, a), place, b) == Appended(c, place, a + b)
  {
    if a == [] {
      assert a + b == b;
    } else if b == [] {
      assert a + b == a;
    } else {
      assert StreamAt(c, place) + a + b == StreamAt(c, place) + (a + b);
    }
  }

  /** Streams hold tokens only. */
  ghost predicate HoldsTokens(s: Stream) {
    forall k :: 0 <= k < |s| && s[k].Some? ==> IsToken(s[k].value)
  }

  ghost predicate AllTokens(c: Content) {
    forall place :: place in c.streams ==> HoldsTokens(c.streams[place])
  }

  // ---- occurrences of a content ----

  ghost predicate Occurs(terms: seq<ByteString>, occs: seq<Occurrence>, term: ByteString, row: nat, position: nat) {
    exists o :: o in occs && TermOf(terms, o) == term && o.row == row && o.position == position
  }

  /** The token at a position of a stream. */
  ghost predicate Says(c: Content, place: Place, position: nat, token: ByteString) {
    position < |StreamAt(c, place)| && StreamAt(c, place)[position] == Some(token)
  }

  ghost predicate FromStream(c: Content, term: ByteString, row: nat, position: nat) {
    exists path, token :: term == ValueKey(token, path) && Says(c, Place(row, path), position, token)
  }

  ghost predicate FromExact(c: Content, term: ByteString, row: nat, position: nat) {
    exists path, value :: (Place(row, path), value) in c.exacts && term == ValueKey(ExactValueToken(value), path) && position == 0
  }

  /** The value occurrences are the tokens and the exact values of the content. */
  ghost predicate ValuesOf(c: Content, terms: seq<ByteString>, occs: seq<Occurrence>) {
    && Numbered(terms, occs)
    && (forall o :: o in occs ==> FromStream(c, TermOf(terms, o), o.row, o.position) || FromExact(c, TermOf(terms, o), o.row, o.position))
    && (forall place: Place, k: nat, token :: Says(c, place, k, token) ==> Occurs(terms, occs, ValueKey(token, place.path), place.row, k))
    && (forall place: Place, value :: (place, value) in c.exacts ==> Occurs(terms, occs, ValueKey(ExactValueToken(value), place.path), place.row, 0))
  }

  /** The key occurrences are the paths of the content. */
  ghost predicate KeysOf(c: Content, terms: seq<ByteString>, occs: seq<Occurrence>) {
    && Numbered(terms, occs)
    && (forall o :: o in occs ==> Place(o.row, TermOf(terms, o)) in c.paths)
    && (forall place: Place :: place in c.paths ==> exists o :: o in occs && o.row == place.row && TermOf(terms, o) == place.path)
  }

  lemma {:induction false} TermKept(terms: seq<ByteString>, more: seq<ByteString>, occs: seq<Occurrence>, o: Occurrence)
    requires Numbered(terms, occs) && terms <= more && o in occs
    ensures TermOf(more, o) == TermOf(terms, o) && o.termId < |terms|
  {
    var k :| 0 <= k < |occs| && occs[k] == o;
  }

  lemma {:induction false} OccursKept(terms: seq<ByteString>, more: seq<ByteString>, occs: seq<Occurrence>, o: Occurrence, term: ByteString, row: nat, position: nat)
    requires Numbered(terms, occs) && terms <= more && Occurs(terms, occs, term, row, position)
    ensures Occurs(more, occs + [o], term, row, position)
  {
    var p :| p in occs && TermOf(terms, p) == term && p.row == row && p.position == position;
    TermKept(terms, more, occs, p);
    assert p in occs + [o];
  }

  lemma {:induction false} NumberedMore(terms: seq<ByteString>, more: seq<ByteString>, occs: seq<Occurrence>, o: Occurrence)
    requires Numbered(terms, occs) && terms <= more && o.termId < |more|
    ensures Numbered(more, occs + [o])
  {
  }

  /** Saying more keeps what was said. */
  lemma {:induction false} SaysMore(c: Content, place: Place, more: Stream, other: Place, position: nat, token: ByteString)
    ensures Says(Appended(c, place, more), other, position, token) <==>
      || Says(c, other, position, token)
      || (other == place && position >= |StreamAt(c, place)|
          && position - |StreamAt(c, place)| < |more| && more[position - |StreamAt(c, place)|] == Some(token))
  {
  }

  /** A token's occurrence at the end of its stream. */
  lemma {:induction false} TokenAdded(c: Content, terms: seq<ByteString>, more: seq<ByteString>, occs: seq<Occurrence>, o: Occurrence, place: Place, token: ByteString)
    requires ValuesOf(c, terms, occs) && terms <= more
    requires o.termId < |more| && more[o.termId] == ValueKey(token, place.path)
    requires o.row == place.row && o.position == |StreamAt(c, place)|
    ensures ValuesOf(Appended(c, place, [Some(token)]), more, occs + [o])
  {
    var after, all := Appended(c, place, [Some(token)]), occs + [o];
    hide StreamAt, Says, Appended, ValueKey, Occurs;
    NumberedMore(terms, more, occs, o);
    forall p | p in all
      ensures FromStream(after, TermOf(more, p), p.row, p.position) || FromExact(after, TermOf(more, p), p.row, p.position)
    {
      if p in occs {
        TermKept(terms, more, occs, p);
        StillFrom(c, place, [Some(token)], TermOf(terms, p), p.row, p.position);
      } else {
        SaysMore(c, place, [Some(token)], place, o.position, token);
        assert Says(after, Place(p.row, place.path), p.position, token);
      }
    }
    forall other: Place, k: nat, t | Says(after, other, k, t)
      ensures Occurs(more, all, ValueKey(t, other.path), other.row, k)
    {
      SaysMore(c, place, [Some(token)], other, k, t);
      if Says(c, other, k, t) {
        OccursKept(terms, more, occs, o, ValueKey(t, other.path), other.row, k);
      } else {
        LastOccurs(more, occs, o);
      }
    }
    ExactsKept(c, place, [Some(token)], terms, more, occs, o);
  }

  lemma {:induction false} LastOccurs(terms: seq<ByteString>, occs: seq<Occurrence>, o: Occurrence)
    ensures Occurs(terms, occs + [o], TermOf(terms, o), o.row, o.position)
  {
    assert o in occs + [o];
  }

  lemma {:induction false} StillFrom(c: Content, place: Place, more: Stream, term: ByteString, row: nat, position: nat)
    requires FromStream(c, term, row, position) || FromExact(c, term, row, position)
    ensures FromStream(Appended(c, place, more), term, row, position) || FromExact(Appended(c, place, more), term, row, position)
  {
    if FromStream(c, term, row, position) {
      var path, token :| term == ValueKey(token, path) && Says(c, Place(row, path), position, token);
      SaysMore(c, place, more, Place(row, path), position, token);
    }
  }

  lemma {:induction false} ExactsKept(c: Content, place: Place, more: Stream, terms: seq<ByteString>, all: seq<ByteString>, occs: seq<Occurrence>, o: Occurrence)
    requires ValuesOf(c, terms, occs) && terms <= all
    ensures forall other: Place, value :: (other, value) in Appended(c, place, more).exacts ==>
      Occurs(all, occs + [o], ValueKey(ExactValueToken(value), other.path), other.row, 0)
  {
    hide ValueKey, ExactValueToken, Occurs;
    forall other: Place, value | (other, value) in c.exacts
      ensures Occurs(all, occs + [o], ValueKey(ExactValueToken(value), other.path), other.row, 0)
    {
      OccursKept(terms, all, occs, o, ValueKey(ExactValueToken(value), other.path), other.row, 0);
    }
  }

  /** A gap adds no occurrence. */
  lemma {:induction false} GapAdded(c: Content, terms: seq<ByteString>, occs: seq<Occurrence>, place: Place)
    requires ValuesOf(c, terms, occs)
    ensures ValuesOf(Appended(c, place, [None]), terms, occs)
  {
    var after := Appended(c, place, [None]);
    hide StreamAt, Says, Appended, ValueKey, Occurs;
    forall p | p in occs
      ensures FromStream(after, TermOf(terms, p), p.row, p.position) || FromExact(after, TermOf(terms, p), p.row, p.position)
    {
      StillFrom(c, place, [None], TermOf(terms, p), p.row, p.position);
    }
    forall other: Place, k: nat, t | Says(after, other, k, t)
      ensures Occurs(terms, occs, ValueKey(t, other.path), other.row, k)
    {
      SaysMore(c, place, [None], other, k, t);
    }
    assert after.exacts == c.exacts by { SameExacts(c, place, [None]); }
  }

  lemma {:induction false} SameExacts(c: Content, place: Place, more: Stream)
    ensures Appended(c, place, more).exacts == c.exacts && Appended(c, place, more).paths == c.paths
  {
  }

  /** An exact value's occurrence. */
  lemma {:induction false} ExactAdded(c: Content, terms: seq<ByteString>, more: seq<ByteString>, occs: seq<Occurrence>, o: Occurrence, place: Place, value: ByteString)
    requires ValuesOf(c, terms, occs) && terms <= more
    requires o.termId < |more| && more[o.termId] == ValueKey(ExactValueToken(value), place.path) && o.row == place.row && o.position == 0
    ensures ValuesOf(c.(exacts := c.exacts + {(place, value)}), more, occs + [o])
  {
    var after, all := c.(exacts := c.exacts + {(place, value)}), occs + [o];
    hide ValueKey, ExactValueToken, Occurs;
    NumberedMore(terms, more, occs, o);
    forall p | p in all
      ensures FromStream(after, TermOf(more, p), p.row, p.position) || FromExact(after, TermOf(more, p), p.row, p.position)
    {
      if p in occs {
        TermKept(terms, more, occs, p);
        if FromStream(c, TermOf(terms, p), p.row, p.position) {
          var path, token :| TermOf(terms, p) == ValueKey(token, path) && Says(c, Place(p.row, path), p.position, token);
          assert Says(after, Place(p.row, path), p.position, token);
        }
      } else {
        assert (Place(p.row, place.path), value) in after.exacts;
      }
    }
    forall other: Place, k: nat, t | Says(after, other, k, t)
      ensures Occurs(more, all, ValueKey(t, other.path), other.row, k)
    {
      assert Says(c, other, k, t);
      OccursKept(terms, more, occs, o, ValueKey(t, other.path), other.row, k);
    }
    forall other: Place, v | (other, v) in after.exacts
      ensures Occurs(more, all, ValueKey(ExactValueToken(v), other.path), other.row, 0)
    {
      if (other, v) in c.exacts {
        OccursKept(terms, more, occs, o, ValueKey(ExactValueToken(v), other.path), other.row, 0);
      } else {
        LastOccurs(more, occs, o);
      }
    }
  }

  /** A path's occurrence. */
  lemma {:induction false} PathAdded(c: Content, terms: seq<ByteString>, more: seq<ByteString>, occs: seq<Occurrence>, o: Occurrence, place: Place)
    requires KeysOf(c, terms, occs) && terms <= more
    requires o.termId < |more| && more[o.termId] == place.path && o.row == place.row
    ensures KeysOf(c.(paths := c.paths + {place}), more, occs + [o])
  {
    var after, all := c.(paths := c.paths + {place}), occs + [o];
    NumberedMore(terms, more, occs, o);
    forall p | p in all
      ensures Place(p.row, TermOf(more, p)) in after.paths
    {
      if p in occs {
        TermKept(terms, more, occs, p);
      }
    }
    forall other: Place | other in after.paths
      ensures exists p :: p in all && p.row == other.row && TermOf(more, p) == other.path
    {
      if other in c.paths {
        var p :| p in occs && p.row == other.row && TermOf(terms, p) == other.path;
        TermKept(terms, more, occs, p);
        assert p in all;
      } else {
        assert o in all;
      }
    }
  }
}
