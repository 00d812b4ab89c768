/**
 Choosing which groups and which terms of an index a predicate needs
 (src/search/selection.rs), and why an index cut down to them answers the same.
 */
module SearchSelection {
  import opened Bytes
  import opened SearchIndexData
  import opened SearchPredicates
  import opened SearchEvaluation
  import opened IndexFormat

  /** One token looked up below a field; phrases of several tokens need positions too. */
  datatype Lookup = Lookup(field: SearchField, token: ByteString, positions: bool)

  function QueryLookups(field: SearchField, query: SearchQuery): set<Lookup> {
    (set i | 0 <= i < |query.terms| :: Lookup(field, query.terms[i], false))
    + (set i, k | 0 <= i < |query.phrases| && 0 <= k < |query.phrases[i]| ::
         Lookup(field, query.phrases[i][k], |query.phrases[i]| > 1))
  }

  /** Every token lookup of a predicate's leaves. */
  function Lookups(p: SearchPredicate): set<Lookup> {
    match p
    case And(children) => set i, l | 0 <= i < |children| && l in Lookups(children[i]) :: l
    case Or(children) => set i, l | 0 <= i < |children| && l in Lookups(children[i]) :: l
    case Not(child) => Lookups(child)
    case Text(field, query) => QueryLookups(field, query)
    case ExactValue(field, value) => {Lookup(field, ExactValueToken(value), false)}
    case JsonKey(_) => {}
  }

  /** Every key pattern of a predicate's leaves. */
  function Patterns(p: SearchPredicate): set<ByteString> {
    match p
    case And(children) => set i, q | 0 <= i < |children| && q in Patterns(children[i]) :: q
    case Or(children) => set i, q | 0 <= i < |children| && q in Patterns(children[i]) :: q
    case Not(child) => Patterns(child)
    case JsonKey(pattern) => {pattern}
    case _ => {}
  }

  // ---- answers depend only on the lookups ----

  ghost predicate SameToken(gs: seq<RowGroup>, hs: seq<RowGroup>, l: Lookup) {
    && (forall row :: TokenInRow(gs, l.field, l.token, row) <==> TokenInRow(hs, l.field, l.token, row))
    && (l.positions ==> forall spot :: TokenAtSpot(gs, l.field, l.token, spot) <==> TokenAtSpot(hs, l.field, l.token, spot))
  }

  ghost predicate SameKey(gs: seq<RowGroup>, hs: seq<RowGroup>, pattern: ByteString) {
    forall row :: KeyInRow(gs, pattern, row) <==> KeyInRow(hs, pattern, row)
  }

  ghost predicate SameAnswers(a: SearchIndex, b: SearchIndex, lookups: set<Lookup>, patterns: set<ByteString>) {
    && a.rowCount == b.rowCount
    && (forall l :: l in lookups ==> SameToken(a.valueGroups, b.valueGroups, l))
    && (forall q :: q in patterns ==> SameKey(a.keyGroups, b.keyGroups, q))
  }

  lemma {:induction false} SamePhrase(gs: seq<RowGroup>, hs: seq<RowGroup>, field: SearchField, phrase: seq<ByteString>, row: nat)
    requires forall k :: 0 <= k < |phrase| ==> SameToken(gs, hs, Lookup(field, phrase[k], |phrase| > 1))
    ensures PhraseInRow(gs, field, phrase, row) <==> PhraseInRow(hs, field, phrase, row)
  {
    hide TokenInRow, TokenAtSpot;
    if |phrase| == 1 {
      assert SameToken(gs, hs, Lookup(field, phrase[0], false));
    } else if |phrase| > 1 {
      forall k, spot | 0 <= k < |phrase|
        ensures TokenAtSpot(gs, field, phrase[k], spot) <==> TokenAtSpot(hs, field, phrase[k], spot)
      {
        assert SameToken(gs, hs, Lookup(field, phrase[k], true));
      }
      forall spot
        ensures PhraseFrom(gs, field, phrase, spot) <==> PhraseFrom(hs, field, phrase, spot)
      {
      }
    }
  }

  lemma {:induction false} SameQuery(gs: seq<RowGroup>, hs: seq<RowGroup>, field: SearchField, query: SearchQuery, row: nat)
    requires forall l :: l in QueryLookups(field, query) ==> SameToken(gs, hs, l)
    ensures QueryInRow(gs, field, query, row) <==> QueryInRow(hs, field, query, row)
  {
    hide TokenInRow, TokenAtSpot, PhraseInRow;
    forall i | 0 <= i < |query.terms|
      ensures TokenInRow(gs, field, query.terms[i], row) <==> TokenInRow(hs, field, query.terms[i], row)
    {
      assert Lookup(field, query.terms[i], false) in QueryLookups(field, query);
    }
    forall i | 0 <= i < |query.phrases|
      ensures PhraseInRow(gs, field, query.phrases[i], row) <==> PhraseInRow(hs, field, query.phrases[i], row)
    {
      var phrase := query.phrases[i];
      forall k | 0 <= k < |phrase|
        ensures SameToken(gs, hs, Lookup(field, phrase[k], |phrase| > 1))
      {
        assert Lookup(field, query.phrases[i][k], |query.phrases[i]| > 1) in QueryLookups(field, query);
      }
      SamePhrase(gs, hs, field, phrase, row);
    }
  }

  /** Two indexes that answer every lookup of a predicate alike match it in the same rows. */
  lemma {:induction false} SameRows(a: SearchIndex, b: SearchIndex, p: SearchPredicate, row: nat)
    requires SameAnswers(a, b, Lookups(p), Patterns(p))
    ensures RowMatches(a, p, row) <==> RowMatches(b, p, row)
  {
    hide QueryInRow, TokenInRow, KeyInRow, SameToken, QueryLookups;
    match p
    case And(children) =>
      forall i | 0 <= i < |children|
        ensures RowMatches(a, children[i], row) <==> RowMatches(b, children[i], row)
      {
        assert forall l :: l in Lookups(children[i]) ==> l in Lookups(p);
        assert forall q :: q in Patterns(children[i]) ==> q in Patterns(p);
        SameRows(a, b, children[i], row);
      }
    case Or(children) =>
      forall i | 0 <= i < |children|
        ensures RowMatches(a, children[i], row) <==> RowMatches(b, children[i], row)
      {
        assert forall l :: l in Lookups(children[i]) ==> l in Lookups(p);
        assert forall q :: q in Patterns(children[i]) ==> q in Patterns(p);
        SameRows(a, b, children[i], row);
      }
    case Not(child) => SameRows(a, b, child, row);
    case Text(field, query) => SameQuery(a.valueGroups, b.valueGroups, field, query, row);
    case ExactValue(field, value) =>
      SameTokenRows(a.valueGroups, b.valueGroups, Lookup(field, ExactValueToken(value), false), row);
    case JsonKey(pattern) => assert SameKey(a.keyGroups, b.keyGroups, pattern);
  }

  lemma {:induction false} SameTokenRows(gs: seq<RowGroup>, hs: seq<RowGroup>, l: Lookup, row: nat)
    requires SameToken(gs, hs, l)
    ensures TokenInRow(gs, l.field, l.token, row) <==> TokenInRow(hs, l.field, l.token, row)
  {
  }

  // ---- what a predicate wants ----

  predicate ValueGroupWanted(lookups: set<Lookup>, minTerm: ByteString, maxTerm: ByteString) {
    exists l :: l in lookups && ValueGroupMayHit(minTerm, maxTerm, l.field, l.token)
  }

  predicate KeyGroupWanted(patterns: set<ByteString>, minTerm: ByteString, maxTerm: ByteString) {
    exists q :: q in patterns && KeyGroupMayHit(minTerm, maxTerm, q)
  }

  predicate ValueTermWanted(lookups: set<Lookup>, term: ByteString) {
    exists l :: l in lookups && LooksForValue(term, l.field, l.token)
  }

  predicate PositionsWanted(lookups: set<Lookup>, term: ByteString) {
    exists l :: l in lookups && l.positions && LooksForValue(term, l.field, l.token)
  }

  predicate KeyTermWanted(patterns: set<ByteString>, term: ByteString) {
    exists q :: q in patterns && LooksForKey(term, q)
  }

  // ---- a cut-down copy of an index ----

  /** `h` is group `g` as far as the wanted terms go. */
  ghost predicate GroupCopies(g: RowGroup, h: RowGroup, wanted: ByteString -> bool, positioned: ByteString -> bool) {
    && h.minTerm == g.minTerm && h.maxTerm == g.maxTerm && h.terms == g.terms
    && (forall o: nat :: o < |g.terms| && wanted(g.terms[o]) ==> TermAt(h, o, false) == TermAt(g, o, false))
    && (forall o: nat :: o < |g.terms| && wanted(g.terms[o]) && positioned(g.terms[o]) ==> TermAt(h, o, true) == TermAt(g, o, true))
  }

  /** Some term of the group is both wanted and stored. */
  ghost predicate HasWanted(g: RowGroup, wanted: ByteString -> bool) {
    exists o: nat :: o < |g.terms| && o < |g.infos| && wanted(g.terms[o])
  }

  /** `hs` copies the groups numbered `ids`, and those are all the groups that matter. */
  ghost predicate Copies(
    gs: seq<RowGroup>, hs: seq<RowGroup>, ids: seq<nat>, kept: RowGroup -> bool, wanted: ByteString -> bool, positioned: ByteString -> bool)
  {
    && |ids| == |hs|
    && (forall j :: 0 <= j < |ids| ==> ids[j] < |gs| && GroupCopies(gs[ids[j]], hs[j], wanted, positioned))
    && (forall i :: 0 <= i < |gs| && kept(gs[i]) && HasWanted(gs[i], wanted) ==> i in ids)
  }

  lemma {:induction false} CopiesAnswerRow(
    gs: seq<RowGroup>, hs: seq<RowGroup>, ids: seq<nat>, kept: RowGroup -> bool, wanted: ByteString -> bool, positioned: ByteString -> bool, l: Lookup, row: nat)
    requires Copies(gs, hs, ids, kept, wanted, positioned)
    requires forall g: RowGroup :: ValueGroupMayHit(g.minTerm, g.maxTerm, l.field, l.token) ==> kept(g)
    requires forall term :: LooksForValue(term, l.field, l.token) ==> wanted(term) && (l.positions ==> positioned(term))
    ensures TokenInRow(gs, l.field, l.token, row) <==> TokenInRow(hs, l.field, l.token, row)
  {
    hide TermAt, ValueGroupMayHit, LooksForValue;
    if TokenInRow(gs, l.field, l.token, row) {
      var i: nat, o: nat :| i < |gs| && ReadsValue(gs[i], o, l.field, l.token) && HasRow(TermAt(gs[i], o, false), row);
      StoredOrdinal(gs[i], o, false);
      assert HasWanted(gs[i], wanted);
      var j :| 0 <= j < |ids| && ids[j] == i;
      assert ReadsValue(hs[j], o, l.field, l.token) && HasRow(TermAt(hs[j], o, false), row);
    }
    if TokenInRow(hs, l.field, l.token, row) {
      var j: nat, o: nat :| j < |hs| && ReadsValue(hs[j], o, l.field, l.token) && HasRow(TermAt(hs[j], o, false), row);
      assert ReadsValue(gs[ids[j]], o, l.field, l.token) && HasRow(TermAt(gs[ids[j]], o, false), row);
    }
  }

  lemma {:induction false} CopiesAnswerSpot(
    gs: seq<RowGroup>, hs: seq<RowGroup>, ids: seq<nat>, kept: RowGroup -> bool, wanted: ByteString -> bool, positioned: ByteString -> bool, l: Lookup, spot: Spot)
    requires Copies(gs, hs, ids, kept, wanted, positioned)
    requires forall g: RowGroup :: ValueGroupMayHit(g.minTerm, g.maxTerm, l.field, l.token) ==> kept(g)
    requires forall term :: LooksForValue(term, l.field, l.token) ==> wanted(term) && (l.positions ==> positioned(term))
    requires l.positions
    ensures TokenAtSpot(gs, l.field, l.token, spot) <==> TokenAtSpot(hs, l.field, l.token, spot)
  {
    hide TermAt, ValueGroupMayHit, LooksForValue;
    if TokenAtSpot(gs, l.field, l.token, spot) {
      var i: nat, o: nat :| i < |gs| && ReadsValue(gs[i], o, l.field, l.token) && HasSpot(TermAt(gs[i], o, true), spot);
      StoredOrdinal(gs[i], o, true);
      assert HasWanted(gs[i], wanted);
      var j :| 0 <= j < |ids| && ids[j] == i;
      assert ReadsValue(hs[j], o, l.field, l.token) && HasSpot(TermAt(hs[j], o, true), spot);
    }
    if TokenAtSpot(hs, l.field, l.token, spot) {
      var j: nat, o: nat :| j < |hs| && ReadsValue(hs[j], o, l.field, l.token) && HasSpot(TermAt(hs[j], o, true), spot);
      assert ReadsValue(gs[ids[j]], o, l.field, l.token) && HasSpot(TermAt(gs[ids[j]], o, true), spot);
    }
  }

  lemma {:induction false} CopiesAnswerToken(
    gs: seq<RowGroup>, hs: seq<RowGroup>, ids: seq<nat>, kept: RowGroup -> bool, wanted: ByteString -> bool, positioned: ByteString -> bool, l: Lookup)
    requires Copies(gs, hs, ids, kept, wanted, positioned)
    requires forall g: RowGroup :: ValueGroupMayHit(g.minTerm, g.maxTerm, l.field, l.token) ==> kept(g)
    requires forall term :: LooksForValue(term, l.field, l.token) ==> wanted(term) && (l.positions ==> positioned(term))
    ensures SameToken(gs, hs, l)
  {
    hide Copies, ValueGroupMayHit, LooksForValue, TokenInRow, TokenAtSpot;
    forall row
      ensures TokenInRow(gs, l.field, l.token, row) <==> TokenInRow(hs, l.field, l.token, row)
    {
      CopiesAnswerRow(gs, hs, ids, kept, wanted, positioned, l, row);
    }
    if l.positions {
      forall spot
        ensures TokenAtSpot(gs, l.field, l.token, spot) <==> TokenAtSpot(hs, l.field, l.token, spot)
      {
        CopiesAnswerSpot(gs, hs, ids, kept, wanted, positioned, l, spot);
      }
    }
  }

  lemma {:induction false} StoredOrdinal(g: RowGroup, o: nat, includePositions: bool)
    requires TermAt(g, o, includePositions).Some?
    ensures o < |g.infos| && o < |g.terms|
  {
  }

  lemma {:induction false} CopiesAnswerKey(
    gs: seq<RowGroup>, hs: seq<RowGroup>, ids: seq<nat>, kept: RowGroup -> bool, wanted: ByteString -> bool, positioned: ByteString -> bool, q: ByteString)
    requires Copies(gs, hs, ids, kept, wanted, positioned)
    requires forall g: RowGroup :: KeyGroupMayHit(g.minTerm, g.maxTerm, q) ==> kept(g)
    requires forall term :: LooksForKey(term, q) ==> wanted(term)
    ensures SameKey(gs, hs, q)
  {
    hide TermAt, KeyGroupMayHit, LooksForKey;
    forall row
      ensures KeyInRow(gs, q, row) <==> KeyInRow(hs, q, row)
    {
      if KeyInRow(gs, q, row) {
        var i: nat, o: nat :| i < |gs| && ReadsKey(gs[i], o, q) && HasRow(TermAt(gs[i], o, false), row);
        StoredOrdinal(gs[i], o, false);
        assert HasWanted(gs[i], wanted);
        var j :| 0 <= j < |ids| && ids[j] == i;
        assert ReadsKey(hs[j], o, q) && HasRow(TermAt(hs[j], o, false), row);
      }
      CopiedKeyRow(gs, hs, ids, kept, wanted, positioned, q, row);
    }
  }

  lemma {:induction false} CopiedKeyRow(
    gs: seq<RowGroup>, hs: seq<RowGroup>, ids: seq<nat>, kept: RowGroup -> bool, wanted: ByteString -> bool, positioned: ByteString -> bool, q: ByteString, row: nat)
    requires Copies(gs, hs, ids, kept, wanted, positioned)
    requires forall term :: LooksForKey(term, q) ==> wanted(term)
    ensures KeyInRow(hs, q, row) ==> KeyInRow(gs, q, row)
  {
    hide TermAt, KeyGroupMayHit, LooksForKey, HasWanted, HasRow;
    if KeyInRow(hs, q, row) {
      var j: nat, o: nat :| j < |hs| && ReadsKey(hs[j], o, q) && HasRow(TermAt(hs[j], o, false), row);
      assert ReadsKey(gs[ids[j]], o, q) && HasRow(TermAt(gs[ids[j]], o, false), row);
    }
  }

  /** The cut-down copy for a predicate. */
  ghost predicate IndexCopies(a: SearchIndex, b: SearchIndex, keyIds: seq<nat>, valueIds: seq<nat>, lookups: set<Lookup>, patterns: set<ByteString>) {
    && a.rowCount == b.rowCount
    && Copies(a.keyGroups, b.keyGroups, keyIds, (g: RowGroup) => KeyGroupWanted(patterns, g.minTerm, g.maxTerm),
              term => KeyTermWanted(patterns, term), term => false)
    && Copies(a.valueGroups, b.valueGroups, valueIds, (g: RowGroup) => ValueGroupWanted(lookups, g.minTerm, g.maxTerm),
              term => ValueTermWanted(lookups, term), term => PositionsWanted(lookups, term))
  }

  /** The cut-down copy answers the predicate like the whole index. */
  lemma {:induction false} CopyMatchesSame(a: SearchIndex, b: SearchIndex, keyIds: seq<nat>, valueIds: seq<nat>, p: SearchPredicate)
    requires IndexCopies(a, b, keyIds, valueIds, Lookups(p), Patterns(p))
    ensures MatchingRows(b, p) == MatchingRows(a, p)
  {
    var lookups, patterns := Lookups(p), Patterns(p);
    forall l | l in lookups
      ensures SameToken(a.valueGroups, b.valueGroups, l)
    {
      CopiesAnswerToken(a.valueGroups, b.valueGroups, valueIds, (g: RowGroup) => ValueGroupWanted(lookups, g.minTerm, g.maxTerm),
                        term => ValueTermWanted(lookups, term), term => PositionsWanted(lookups, term), l);
    }
    forall q | q in patterns
      ensures SameKey(a.keyGroups, b.keyGroups, q)
    {
      CopiesAnswerKey(a.keyGroups, b.keyGroups, keyIds, (g: RowGroup) => KeyGroupWanted(patterns, g.minTerm, g.maxTerm),
                      term => KeyTermWanted(patterns, term), term => false, q);
    }
    hide SameToken, SameKey, RowMatches, MatchingRows, Lookups, Patterns;
    forall row: nat
      ensures row in MatchingRows(b, p) <==> row in MatchingRows(a, p)
    {
      SameRows(a, b, p, row);
      MatchingRowsExact(a, p, row);
      MatchingRowsExact(b, p, row);
    }
  }

  // ---- selecting groups ----

  /** The entries whose span may hold something a leaf wants. */
  function GroupsHit(ds: seq<Directory>, may: (ByteString, ByteString) -> bool, from: nat): (hits: set<nat>)
    ensures forall i :: i in hits <==> from <= i < |ds| && may(ds[i].minTerm, ds[i].maxTerm)
    decreases |ds| - from
  {
    if from >= |ds| then {}
    else (if may(ds[from].minTerm, ds[from].maxTerm) then {from} else {}) + GroupsHit(ds, may, from + 1)
  }

  method SelectGroups(ds: seq<Directory>, may: (ByteString, ByteString) -> bool, selected: set<nat>) returns (after: set<nat>)
    ensures after == selected + GroupsHit(ds, may, 0)
  {
    after := selected;
    for i := 0 to |ds|
      invariant selected + GroupsHit(ds, may, 0) == after + GroupsHit(ds, may, i)
    {
      if may(ds[i].minTerm, ds[i].maxTerm) {
        after := after + {i};
      }
    }
  }

  function LookupGroups(ds: seq<Directory>, l: Lookup): set<nat> {
    GroupsHit(ds, (a, b) => ValueGroupMayHit(a, b, l.field, l.token), 0)
  }

  function PatternGroups(ds: seq<Directory>, q: ByteString): set<nat> {
    GroupsHit(ds, (a, b) => KeyGroupMayHit(a, b, q), 0)
  }

  function ValueGroupsHit(ds: seq<Directory>, lookups: set<Lookup>): set<nat> {
    set l, i | l in lookups && i in LookupGroups(ds, l) :: i
  }

  function KeyGroupsHit(ds: seq<Directory>, patterns: set<ByteString>): set<nat> {
    set q, i | q in patterns && i in PatternGroups(ds, q) :: i
  }

  lemma {:induction false} ValueGroupsHitIff(ds: seq<Directory>, lookups: set<Lookup>, i: nat)
    requires i < |ds|
    ensures i in ValueGroupsHit(ds, lookups) <==> ValueGroupWanted(lookups, ds[i].minTerm, ds[i].maxTerm)
  {
    hide ValueGroupMayHit;
    if ValueGroupWanted(lookups, ds[i].minTerm, ds[i].maxTerm) {
      var l :| l in lookups && ValueGroupMayHit(ds[i].minTerm, ds[i].maxTerm, l.field, l.token);
      assert i in LookupGroups(ds, l);
    }
  }

  lemma {:induction false} KeyGroupsHitIff(ds: seq<Directory>, patterns: set<ByteString>, i: nat)
    requires i < |ds|
    ensures i in KeyGroupsHit(ds, patterns) <==> KeyGroupWanted(patterns, ds[i].minTerm, ds[i].maxTerm)
  {
    hide KeyGroupMayHit;
    if KeyGroupWanted(patterns, ds[i].minTerm, ds[i].maxTerm) {
      var q :| q in patterns && KeyGroupMayHit(ds[i].minTerm, ds[i].maxTerm, q);
      assert i in PatternGroups(ds, q);
    }
  }

  // ---- walking the predicate ----

  /** The leaves of the first `n` children. */
  function LookupsOf(children: seq<SearchPredicate>, n: nat): set<Lookup>
    requires n <= |children|
  {
    if n == 0 then {} else LookupsOf(children, n - 1) + Lookups(children[n - 1])
  }

  function PatternsOf(children: seq<SearchPredicate>, n: nat): set<ByteString>
    requires n <= |children|
  {
    if n == 0 then {} else PatternsOf(children, n - 1) + Patterns(children[n - 1])
  }

  lemma {:induction false} LookupsOfHolds(children: seq<SearchPredicate>, n: nat, l: Lookup)
    requires n <= |children|
    ensures l in LookupsOf(children, n) <==> exists i :: 0 <= i < n && l in Lookups(children[i])
  {
    if n > 0 {
      LookupsOfHolds(children, n - 1, l);
    }
  }

  lemma {:induction false} PatternsOfHolds(children: seq<SearchPredicate>, n: nat, q: ByteString)
    requires n <= |children|
    ensures q in PatternsOf(children, n) <==> exists i :: 0 <= i < n && q in Patterns(children[i])
  {
    if n > 0 {
      PatternsOfHolds(children, n - 1, q);
    }
  }

  lemma {:induction false} ChildrenLeaves(children: seq<SearchPredicate>)
    ensures Lookups(And(children)) == LookupsOf(children, |children|) == Lookups(Or(children))
    ensures Patterns(And(children)) == PatternsOf(children, |children|) == Patterns(Or(children))
  {
    forall l
      ensures l in LookupsOf(children, |children|) <==> exists i :: 0 <= i < |children| && l in Lookups(children[i])
    {
      LookupsOfHolds(children, |children|, l);
    }
    forall q
      ensures q in PatternsOf(children, |children|) <==> exists i :: 0 <= i < |children| && q in Patterns(children[i])
    {
      PatternsOfHolds(children, |children|, q);
    }
    hide LookupsOf, PatternsOf;
  }

  /** The lookups of the first `n` terms. */
  function TermLookups(field: SearchField, terms: seq<ByteString>, positions: bool, n: nat): set<Lookup>
    requires n <= |terms|
  {
    if n == 0 then {} else TermLookups(field, terms, positions, n - 1) + {Lookup(field, terms[n - 1], positions)}
  }

  function PhraseLookups(field: SearchField, phrases: seq<seq<ByteString>>, n: nat): set<Lookup>
    requires n <= |phrases|
  {
    if n == 0 then {}
    else PhraseLookups(field, phrases, n - 1) + TermLookups(field, phrases[n - 1], |phrases[n - 1]| > 1, |phrases[n - 1]|)
  }

  lemma {:induction false} TermLookupsHold(field: SearchField, terms: seq<ByteString>, positions: bool, n: nat, l: Lookup)
    requires n <= |terms|
    ensures l in TermLookups(field, terms, positions, n) <==> exists i :: 0 <= i < n && l == Lookup(field, terms[i], positions)
  {
    if n > 0 {
      TermLookupsHold(field, terms, positions, n - 1, l);
    }
  }

  lemma {:induction false} PhraseLookupsHold(field: SearchField, phrases: seq<seq<ByteString>>, n: nat, l: Lookup)
    requires n <= |phrases|
    ensures l in PhraseLookups(field, phrases, n) <==>
      exists i, k :: 0 <= i < n && 0 <= k < |phrases[i]| && l == Lookup(field, phrases[i][k], |phrases[i]| > 1)
  {
    if n > 0 {
      PhraseLookupsHold(field, phrases, n - 1, l);
      TermLookupsHold(field, phrases[n - 1], |phrases[n - 1]| > 1, |phrases[n - 1]|, l);
    }
  }

  lemma {:induction false} QueryLeaves(field: SearchField, query: SearchQuery)
    ensures QueryLookups(field, query)
         == TermLookups(field, query.terms, false, |query.terms|) + PhraseLookups(field, query.phrases, |query.phrases|)
  {
    var terms := TermLookups(field, query.terms, false, |query.terms|);
    var phrases := PhraseLookups(field, query.phrases, |query.phrases|);
    hide TermLookups, PhraseLookups;
    forall l
      ensures l in QueryLookups(field, query) <==> l in terms + phrases
    {
      TermLookupsHold(field, query.terms, false, |query.terms|, l);
      PhraseLookupsHold(field, query.phrases, |query.phrases|, l);
    }
  }

  lemma {:induction false} ValueGroupsUnion(ds: seq<Directory>, a: set<Lookup>, b: set<Lookup>)
    ensures ValueGroupsHit(ds, a + b) == ValueGroupsHit(ds, a) + ValueGroupsHit(ds, b)
  {
  }

  lemma {:induction false} KeyGroupsUnion(ds: seq<Directory>, a: set<ByteString>, b: set<ByteString>)
    ensures KeyGroupsHit(ds, a + b) == KeyGroupsHit(ds, a) + KeyGroupsHit(ds, b)
  {
  }

  lemma {:induction false} NoGroups(ds: seq<Directory>)
    ensures ValueGroupsHit(ds, {}) == {} && KeyGroupsHit(ds, {}) == {}
  {
  }

  lemma {:induction false} OneLookup(ds: seq<Directory>, l: Lookup)
    ensures ValueGroupsHit(ds, {l}) == GroupsHit(ds, (a, b) => ValueGroupMayHit(a, b, l.field, l.token), 0)
  {
    assert ValueGroupsHit(ds, {l}) == LookupGroups(ds, l);
  }

  lemma {:induction false} OnePattern(ds: seq<Directory>, q: ByteString)
    ensures KeyGroupsHit(ds, {q}) == GroupsHit(ds, (a, b) => KeyGroupMayHit(a, b, q), 0)
  {
    assert KeyGroupsHit(ds, {q}) == PatternGroups(ds, q);
  }

  /** `select_groups_for_predicate` over the value groups. */
  method SelectValueGroups(ds: seq<Directory>, p: SearchPredicate, selected: set<nat>) returns (after: set<nat>)
    ensures after == selected + ValueGroupsHit(ds, Lookups(p))
    decreases p
  {
    after := selected;
    NoGroups(ds);
    hide ValueGroupsHit, QueryLookups;
    match p
    case And(children) =>
      ChildrenLeaves(children);
      after := SelectValueGroupsOfAll(ds, children, selected);
    case Or(children) =>
      ChildrenLeaves(children);
      after := SelectValueGroupsOfAll(ds, children, selected);
    case Not(child) => after := SelectValueGroups(ds, child, after);
    case Text(field, query) => after := SelectQueryGroups(ds, field, query, after);
    case ExactValue(field, value) =>
      var l := Lookup(field, ExactValueToken(value), false);
      OneLookup(ds, l);
      after := SelectGroups(ds, (a, b) => ValueGroupMayHit(a, b, l.field, l.token), after);
    case JsonKey(_) =>
  }

  method SelectValueGroupsOfAll(ds: seq<Directory>, children: seq<SearchPredicate>, selected: set<nat>) returns (after: set<nat>)
    ensures after == selected + ValueGroupsHit(ds, LookupsOf(children, |children|))
    decreases children
  {
    after := selected;
    NoGroups(ds);
    hide ValueGroupsHit, Lookups;
    for i := 0 to |children|
      invariant after == selected + ValueGroupsHit(ds, LookupsOf(children, i))
    {
      ValueGroupsUnion(ds, LookupsOf(children, i), Lookups(children[i]));
      Grouped(selected, ValueGroupsHit(ds, LookupsOf(children, i)), ValueGroupsHit(ds, Lookups(children[i])));
      after := SelectValueGroups(ds, children[i], after);
    }
  }

  method SelectTermGroups(ds: seq<Directory>, field: SearchField, terms: seq<ByteString>, positions: bool, selected: set<nat>)
    returns (after: set<nat>)
    ensures after == selected + ValueGroupsHit(ds, TermLookups(field, terms, positions, |terms|))
  {
    after := selected;
    NoGroups(ds);
    hide ValueGroupsHit, GroupsHit;
    for i := 0 to |terms|
      invariant after == selected + ValueGroupsHit(ds, TermLookups(field, terms, positions, i))
    {
      var l := Lookup(field, terms[i], positions);
      ValueGroupsUnion(ds, TermLookups(field, terms, positions, i), {l});
      OneLookup(ds, l);
      after := SelectGroups(ds, (a, b) => ValueGroupMayHit(a, b, l.field, l.token), after);
    }
  }

  method SelectPhraseGroups(ds: seq<Directory>, field: SearchField, phrases: seq<seq<ByteString>>, selected: set<nat>)
    returns (after: set<nat>)
    ensures after == selected + ValueGroupsHit(ds, PhraseLookups(field, phrases, |phrases|))
  {
    after := selected;
    NoGroups(ds);
    NoPhrases(field, phrases);
    Grouped(selected, {}, {});
    hide *;
    for i := 0 to |phrases|
      invariant after == selected + ValueGroupsHit(ds, PhraseLookups(field, phrases, i))
    {
      var phrase := phrases[i];
      NextPhrase(ds, field, phrases, i);
      Grouped(selected, ValueGroupsHit(ds, PhraseLookups(field, phrases, i)),
              ValueGroupsHit(ds, TermLookups(field, phrase, |phrase| > 1, |phrase|)));
      after := SelectTermGroups(ds, field, phrase, |phrase| > 1, after);
    }
  }

  method SelectQueryGroups(ds: seq<Directory>, field: SearchField, query: SearchQuery, selected: set<nat>) returns (after: set<nat>)
    ensures after == selected + ValueGroupsHit(ds, QueryLookups(field, query))
  {
    ghost var terms := TermLookups(field, query.terms, false, |query.terms|);
    ghost var phrases := PhraseLookups(field, query.phrases, |query.phrases|);
    hide *;
    QueryLeaves(field, query);
    after := SelectTermGroups(ds, field, query.terms, false, selected);
    after := SelectPhraseGroups(ds, field, query.phrases, after);
    ValueGroupsUnion(ds, terms, phrases);
    Grouped(selected, ValueGroupsHit(ds, terms), ValueGroupsHit(ds, phrases));
  }

  lemma {:induction false} Grouped(a: set<nat>, b: set<nat>, c: set<nat>)
    ensures (a + b) + c == a + (b + c) && a + {} == a
  {
  }

  lemma {:induction false} NoPhrases(field: SearchField, phrases: seq<seq<ByteString>>)
    ensures PhraseLookups(field, phrases, 0) == {}
  {
  }

  lemma {:induction false} NextPhrase(ds: seq<Directory>, field: SearchField, phrases: seq<seq<ByteString>>, i: nat)
    requires i < |phrases|
    ensures ValueGroupsHit(ds, PhraseLookups(field, phrases, i + 1))
         == ValueGroupsHit(ds, PhraseLookups(field, phrases, i))
          + ValueGroupsHit(ds, TermLookups(field, phrases[i], |phrases[i]| > 1, |phrases[i]|))
  {
    hide ValueGroupsHit, TermLookups;
    ValueGroupsUnion(ds, PhraseLookups(field, phrases, i), TermLookups(field, phrases[i], |phrases[i]| > 1, |phrases[i]|));
  }

  /** `select_groups_for_predicate` over the key groups. */
  method SelectKeyGroups(ds: seq<Directory>, p: SearchPredicate, selected: set<nat>) returns (after: set<nat>)
    ensures after == selected + KeyGroupsHit(ds, Patterns(p))
    decreases p
  {
    after := selected;
    NoGroups(ds);
    hide KeyGroupsHit;
    match p
    case And(children) =>
      ChildrenLeaves(children);
      after := SelectKeyGroupsOfAll(ds, children, selected);
    case Or(children) =>
      ChildrenLeaves(children);
      after := SelectKeyGroupsOfAll(ds, children, selected);
    case Not(child) => after := SelectKeyGroups(ds, child, after);
    case JsonKey(q) =>
      OnePattern(ds, q);
      after := SelectGroups(ds, (a, b) => KeyGroupMayHit(a, b, q), after);
    case _ =>
  }

  method SelectKeyGroupsOfAll(ds: seq<Directory>, children: seq<SearchPredicate>, selected: set<nat>) returns (after: set<nat>)
    ensures after == selected + KeyGroupsHit(ds, PatternsOf(children, |children|))
    decreases children
  {
    after := selected;
    NoGroups(ds);
    hide KeyGroupsHit, Patterns;
    for i := 0 to |children|
      invariant after == selected + KeyGroupsHit(ds, PatternsOf(children, i))
    {
      KeyGroupsUnion(ds, PatternsOf(children, i), Patterns(children[i]));
      Grouped(selected, KeyGroupsHit(ds, PatternsOf(children, i)), KeyGroupsHit(ds, Patterns(children[i])));
      after := SelectKeyGroups(ds, children[i], after);
    }
  }

  // ---- selecting terms ----

  datatype Dictionary = Dictionary(group: nat, fst: ByteString, terms: seq<ByteString>, infos: seq<TermInfo>)

  /** Group to ordinal to whether positions are needed. */
  type Selected = map<nat, map<nat, bool>>

  ghost function Marks(selected: Selected): set<(nat, nat)> {
    set g, o | g in selected && o in selected[g] :: (g, o)
  }

  ghost function PositionMarks(selected: Selected): set<(nat, nat)> {
    set g, o | g in selected && o in selected[g] && selected[g][o] :: (g, o)
  }

  ghost predicate NoEmptyGroup(selected: Selected) {
    forall g :: g in selected ==> selected[g] != map[]
  }

  /** `merge_selected_term`. */
  function Merge(selected: Selected, group: nat, ordinal: nat, positions: bool): Selected {
    var terms: map<nat, bool> := if group in selected then selected[group] else map[];
    selected[group := terms[ordinal := positions || (ordinal in terms && terms[ordinal])]]
  }

  lemma {:induction false} MergeMarks(selected: Selected, group: nat, ordinal: nat, positions: bool)
    requires NoEmptyGroup(selected)
    ensures var after := Merge(selected, group, ordinal, positions);
            && Marks(after) == Marks(selected) + {(group, ordinal)}
            && PositionMarks(after) == PositionMarks(selected) + (if positions then {(group, ordinal)} else {})
            && NoEmptyGroup(after)
  {
    var after := Merge(selected, group, ordinal, positions);
    assert ordinal in after[group];
    forall g, o
      ensures (g, o) in Marks(after) <==> (g, o) in Marks(selected) + {(group, ordinal)}
      ensures (g, o) in PositionMarks(after) <==>
        (g, o) in PositionMarks(selected) + (if positions then {(group, ordinal)} else {})
    {
    }
  }

  function DictionaryHits(d: Dictionary, looksFor: ByteString -> bool, from: nat): set<(nat, nat)>
    decreases |d.terms| - from
  {
    if from >= |d.terms| then {}
    else (if looksFor(d.terms[from]) then {(d.group, from)} else {}) + DictionaryHits(d, looksFor, from + 1)
  }

  lemma {:induction false} DictionaryHitsHold(d: Dictionary, looksFor: ByteString -> bool, from: nat, g: nat, o: nat)
    ensures (g, o) in DictionaryHits(d, looksFor, from) <==> g == d.group && from <= o < |d.terms| && looksFor(d.terms[o])
    decreases |d.terms| - from
  {
    if from < |d.terms| {
      DictionaryHitsHold(d, looksFor, from + 1, g, o);
    }
  }

  function TermHits(dicts: seq<Dictionary>, looksFor: ByteString -> bool): set<(nat, nat)> {
    if dicts == [] then {} else DictionaryHits(dicts[0], looksFor, 0) + TermHits(dicts[1..], looksFor)
  }

  lemma {:induction false} TermHitsHold(dicts: seq<Dictionary>, looksFor: ByteString -> bool, g: nat, o: nat)
    ensures (g, o) in TermHits(dicts, looksFor) <==>
      exists d :: d in dicts && d.group == g && o < |d.terms| && looksFor(d.terms[o])
  {
    if dicts != [] {
      TermHitsHold(dicts[1..], looksFor, g, o);
      DictionaryHitsHold(dicts[0], looksFor, 0, g, o);
      assert forall d :: d in dicts <==> d == dicts[0] || d in dicts[1..];
    }
  }

  /** A step of the selection added exactly these marks. */
  ghost predicate Grown(before: Selected, after: Selected, hits: set<(nat, nat)>, positioned: set<(nat, nat)>) {
    NoEmptyGroup(after) && Marks(after) == Marks(before) + hits && PositionMarks(after) == PositionMarks(before) + positioned
  }

  lemma {:induction false} GrownTwice(
    before: Selected, middle: Selected, after: Selected, a: set<(nat, nat)>, b: set<(nat, nat)>, pa: set<(nat, nat)>, pb: set<(nat, nat)>)
    requires Grown(before, middle, a, pa) && Grown(middle, after, b, pb)
    ensures Grown(before, after, a + b, pa + pb)
  {
    hide Marks, PositionMarks;
    Associates(Marks(before), a, b);
    Associates(PositionMarks(before), pa, pb);
  }

  lemma {:induction false} Associates(a: set<(nat, nat)>, b: set<(nat, nat)>, c: set<(nat, nat)>)
    ensures (a + b) + c == a + (b + c)
  {
  }

  lemma {:induction false} NotGrown(selected: Selected)
    requires NoEmptyGroup(selected)
    ensures Grown(selected, selected, {}, {})
  {
    hide Marks, PositionMarks;
    assert Marks(selected) + {} == Marks(selected) && PositionMarks(selected) + {} == PositionMarks(selected);
  }

  /** The stream over one dictionary. */
  method SelectInDictionary(d: Dictionary, looksFor: ByteString -> bool, positions: bool, selected: Selected) returns (after: Selected)
    requires NoEmptyGroup(selected)
    ensures Grown(selected, after, DictionaryHits(d, looksFor, 0), if positions then DictionaryHits(d, looksFor, 0) else {})
  {
    after := selected;
    NotGrown(selected);
    ghost var done: set<(nat, nat)> := {};
    ghost var all := DictionaryHits(d, looksFor, 0);
    hide Grown, NoEmptyGroup, Merge;
    for o := 0 to |d.terms|
      invariant NoEmptyGroup(after)
      invariant Grown(selected, after, done, if positions then done else {})
      invariant done + DictionaryHits(d, looksFor, o) == all
    {
      if looksFor(d.terms[o]) {
        ghost var hit := {(d.group, o)};
        Associates(done, hit, DictionaryHits(d, looksFor, o + 1));
        MergeGrows(after, d.group, o, positions);
        GrownTwice(selected, after, Merge(after, d.group, o, positions), done, hit, if positions then done else {}, if positions then hit else {});
        after := Merge(after, d.group, o, positions);
        GrownFacts(selected, after, done + hit, (if positions then done else {}) + (if positions then hit else {}));
        done := done + hit;
      }
    }
  }

  lemma {:induction false} MergeGrows(selected: Selected, group: nat, ordinal: nat, positions: bool)
    requires NoEmptyGroup(selected)
    ensures Grown(selected, Merge(selected, group, ordinal, positions), {(group, ordinal)}, if positions then {(group, ordinal)} else {})
  {
    MergeMarks(selected, group, ordinal, positions);
    hide Marks, PositionMarks, Merge;
  }

  /** `select_exact_terms`, `select_prefix_terms` and the pattern scan: every dictionary in turn. */
  method SelectTerms(dicts: seq<Dictionary>, looksFor: ByteString -> bool, positions: bool, selected: Selected) returns (after: Selected)
    requires NoEmptyGroup(selected)
    ensures Grown(selected, after, TermHits(dicts, looksFor), if positions then TermHits(dicts, looksFor) else {})
  {
    after := selected;
    NotGrown(selected);
    ghost var done: set<(nat, nat)> := {};
    assert dicts[0..] == dicts;
    hide Grown, DictionaryHits, NoEmptyGroup;
    for i := 0 to |dicts|
      invariant NoEmptyGroup(after)
      invariant Grown(selected, after, done, if positions then done else {})
      invariant done + TermHits(dicts[i..], looksFor) == TermHits(dicts, looksFor)
    {
      ghost var hits := DictionaryHits(dicts[i], looksFor, 0);
      assert dicts[i..][1..] == dicts[i + 1..];
      Associates(done, hits, TermHits(dicts[i + 1..], looksFor));
      ghost var before := after;
      after := SelectInDictionary(dicts[i], looksFor, positions, after);
      GrownTwice(selected, before, after, done, hits, if positions then done else {}, if positions then hits else {});
      GrownFacts(selected, after, done + hits, (if positions then done else {}) + (if positions then hits else {}));
      done := done + hits;
    }
    assert dicts[|dicts|..] == [];
  }

  lemma {:induction false} GrownFacts(before: Selected, after: Selected, hits: set<(nat, nat)>, positioned: set<(nat, nat)>)
    requires Grown(before, after, hits, positioned)
    ensures NoEmptyGroup(after)
  {
  }

  function LookupHits(dicts: seq<Dictionary>, l: Lookup): set<(nat, nat)> {
    TermHits(dicts, term => LooksForValue(term, l.field, l.token))
  }

  function PatternHits(dicts: seq<Dictionary>, q: ByteString): set<(nat, nat)> {
    TermHits(dicts, term => LooksForKey(term, q))
  }

  function ValueHits(dicts: seq<Dictionary>, lookups: set<Lookup>): set<(nat, nat)> {
    set l, x | l in lookups && x in LookupHits(dicts, l) :: x
  }

  function PositionHits(dicts: seq<Dictionary>, lookups: set<Lookup>): set<(nat, nat)> {
    set l, x | l in lookups && l.positions && x in LookupHits(dicts, l) :: x
  }

  function KeyHits(dicts: seq<Dictionary>, patterns: set<ByteString>): set<(nat, nat)> {
    set q, x | q in patterns && x in PatternHits(dicts, q) :: x
  }

  lemma {:induction false} HitsUnion(dicts: seq<Dictionary>, a: set<Lookup>, b: set<Lookup>)
    ensures ValueHits(dicts, a + b) == ValueHits(dicts, a) + ValueHits(dicts, b)
    ensures PositionHits(dicts, a + b) == PositionHits(dicts, a) + PositionHits(dicts, b)
  {
    hide LookupHits;
  }

  lemma {:induction false} KeyHitsUnion(dicts: seq<Dictionary>, a: set<ByteString>, b: set<ByteString>)
    ensures KeyHits(dicts, a + b) == KeyHits(dicts, a) + KeyHits(dicts, b)
  {
    hide PatternHits;
  }

  lemma {:induction false} OneLookupHits(dicts: seq<Dictionary>, l: Lookup)
    ensures ValueHits(dicts, {l}) == TermHits(dicts, term => LooksForValue(term, l.field, l.token))
    ensures PositionHits(dicts, {l}) == if l.positions then TermHits(dicts, term => LooksForValue(term, l.field, l.token)) else {}
  {
    assert ValueHits(dicts, {l}) == LookupHits(dicts, l);
    assert PositionHits(dicts, {l}) == if l.positions then LookupHits(dicts, l) else {};
  }

  lemma {:induction false} OnePatternHits(dicts: seq<Dictionary>, q: ByteString)
    ensures KeyHits(dicts, {q}) == TermHits(dicts, term => LooksForKey(term, q))
  {
    assert KeyHits(dicts, {q}) == PatternHits(dicts, q);
  }

  /** The selection grew by what these lookups want. */
  ghost predicate GrownBy(dicts: seq<Dictionary>, before: Selected, after: Selected, lookups: set<Lookup>) {
    NoEmptyGroup(after) && Grown(before, after, ValueHits(dicts, lookups), PositionHits(dicts, lookups))
  }

  lemma {:induction false} GrownByTwice(dicts: seq<Dictionary>, before: Selected, middle: Selected, after: Selected, a: set<Lookup>, b: set<Lookup>)
    requires GrownBy(dicts, before, middle, a) && GrownBy(dicts, middle, after, b)
    ensures GrownBy(dicts, before, after, a + b)
  {
    HitsUnion(dicts, a, b);
    hide Grown, ValueHits, PositionHits, NoEmptyGroup;
    GrownTwice(before, middle, after, ValueHits(dicts, a), ValueHits(dicts, b), PositionHits(dicts, a), PositionHits(dicts, b));
  }

  lemma {:induction false} GrownByNone(dicts: seq<Dictionary>, selected: Selected)
    requires NoEmptyGroup(selected)
    ensures GrownBy(dicts, selected, selected, {})
  {
    NotGrown(selected);
    assert ValueHits(dicts, {}) == {} && PositionHits(dicts, {}) == {};
  }

  lemma {:induction false} GrownByFacts(dicts: seq<Dictionary>, before: Selected, after: Selected, lookups: set<Lookup>)
    requires GrownBy(dicts, before, after, lookups)
    ensures NoEmptyGroup(after)
  {
  }

  method SelectLookup(dicts: seq<Dictionary>, l: Lookup, selected: Selected) returns (after: Selected)
    requires NoEmptyGroup(selected)
    ensures GrownBy(dicts, selected, after, {l})
  {
    OneLookupHits(dicts, l);
    after := SelectTerms(dicts, term => LooksForValue(term, l.field, l.token), l.positions, selected);
    GrownFacts(selected, after, ValueHits(dicts, {l}), PositionHits(dicts, {l}));
    hide NoEmptyGroup, Grown, ValueHits, PositionHits, TermHits;
  }

  method SelectLookups(dicts: seq<Dictionary>, field: SearchField, terms: seq<ByteString>, positions: bool, selected: Selected) returns (after: Selected)
    requires NoEmptyGroup(selected)
    ensures GrownBy(dicts, selected, after, TermLookups(field, terms, positions, |terms|))
  {
    after := selected;
    GrownByNone(dicts, selected);
    hide GrownBy, NoEmptyGroup;
    for i := 0 to |terms|
      invariant NoEmptyGroup(after)
      invariant GrownBy(dicts, selected, after, TermLookups(field, terms, positions, i))
    {
      ghost var before := after;
      after := SelectLookup(dicts, Lookup(field, terms[i], positions), after);
      GrownByFacts(dicts, before, after, {Lookup(field, terms[i], positions)});
      GrownByTwice(dicts, selected, before, after, TermLookups(field, terms, positions, i), {Lookup(field, terms[i], positions)});
    }
  }

  method SelectPhrases(dicts: seq<Dictionary>, field: SearchField, phrases: seq<seq<ByteString>>, selected: Selected) returns (after: Selected)
    requires NoEmptyGroup(selected)
    ensures GrownBy(dicts, selected, after, PhraseLookups(field, phrases, |phrases|))
  {
    after := selected;
    GrownByNone(dicts, selected);
    hide GrownBy, NoEmptyGroup, TermLookups;
    for i := 0 to |phrases|
      invariant NoEmptyGroup(after)
      invariant GrownBy(dicts, selected, after, PhraseLookups(field, phrases, i))
    {
      ghost var before := after;
      ghost var more := TermLookups(field, phrases[i], |phrases[i]| > 1, |phrases[i]|);
      after := SelectLookups(dicts, field, phrases[i], |phrases[i]| > 1, after);
      GrownByFacts(dicts, before, after, more);
      GrownByTwice(dicts, selected, before, after, PhraseLookups(field, phrases, i), more);
    }
  }

  /** `select_value_terms_for_query`. */
  method SelectQueryTerms(dicts: seq<Dictionary>, field: SearchField, query: SearchQuery, selected: Selected) returns (after: Selected)
    requires NoEmptyGroup(selected)
    ensures GrownBy(dicts, selected, after, QueryLookups(field, query))
  {
    hide *;
    ghost var terms := TermLookups(field, query.terms, false, |query.terms|);
    ghost var phrases := PhraseLookups(field, query.phrases, |query.phrases|);
    var middle := SelectLookups(dicts, field, query.terms, false, selected);
    GrownByFacts(dicts, selected, middle, terms);
    after := SelectPhrases(dicts, field, query.phrases, middle);
    GrownByTwice(dicts, selected, middle, after, terms, phrases);
    QueryLeaves(field, query);
  }

  method SelectChildren(dicts: seq<Dictionary>, children: seq<SearchPredicate>, selected: Selected) returns (after: Selected)
    requires NoEmptyGroup(selected)
    ensures GrownBy(dicts, selected, after, LookupsOf(children, |children|))
    decreases children, 1
  {
    after := selected;
    GrownByNone(dicts, selected);
    hide GrownBy, NoEmptyGroup, Lookups;
    for i := 0 to |children|
      invariant NoEmptyGroup(after)
      invariant GrownBy(dicts, selected, after, LookupsOf(children, i))
    {
      ghost var before := after;
      after := SelectValueTerms(dicts, children[i], after);
      GrownByFacts(dicts, before, after, Lookups(children[i]));
      GrownByTwice(dicts, selected, before, after, LookupsOf(children, i), Lookups(children[i]));
    }
  }

  /** `select_terms_for_predicate` over the value dictionaries. */
  method SelectValueTerms(dicts: seq<Dictionary>, p: SearchPredicate, selected: Selected) returns (after: Selected)
    requires NoEmptyGroup(selected)
    ensures GrownBy(dicts, selected, after, Lookups(p))
    decreases p, 0
  {
    after := selected;
    hide GrownBy, NoEmptyGroup, QueryLookups, LookupsOf;
    match p
    case And(children) =>
      after := SelectChildren(dicts, children, selected);
      ChildrenLeaves(children);
    case Or(children) =>
      after := SelectChildren(dicts, children, selected);
      ChildrenLeaves(children);
    case Not(child) => after := SelectValueTerms(dicts, child, selected);
    case Text(field, query) => after := SelectQueryTerms(dicts, field, query, selected);
    case ExactValue(field, value) => after := SelectLookup(dicts, Lookup(field, ExactValueToken(value), false), selected);
    case JsonKey(_) => GrownByNone(dicts, selected);
  }

  /** The selection grew by what these patterns want; keys never need positions. */
  ghost predicate GrownByKeys(dicts: seq<Dictionary>, before: Selected, after: Selected, patterns: set<ByteString>) {
    NoEmptyGroup(after) && Grown(before, after, KeyHits(dicts, patterns), {})
  }

  lemma {:induction false} GrownByKeysTwice(dicts: seq<Dictionary>, before: Selected, middle: Selected, after: Selected, a: set<ByteString>, b: set<ByteString>)
    requires GrownByKeys(dicts, before, middle, a) && GrownByKeys(dicts, middle, after, b)
    ensures GrownByKeys(dicts, before, after, a + b)
  {
    KeyHitsUnion(dicts, a, b);
    hide Grown, KeyHits, NoEmptyGroup;
    var none: set<(nat, nat)> := {};
    GrownTwice(before, middle, after, KeyHits(dicts, a), KeyHits(dicts, b), none, none);
    assert none + none == none;
  }

  lemma {:induction false} GrownByNoKeys(dicts: seq<Dictionary>, selected: Selected)
    requires NoEmptyGroup(selected)
    ensures GrownByKeys(dicts, selected, selected, {})
  {
    NotGrown(selected);
    assert KeyHits(dicts, {}) == {};
  }

  lemma {:induction false} GrownByKeysFacts(dicts: seq<Dictionary>, before: Selected, after: Selected, patterns: set<ByteString>)
    requires GrownByKeys(dicts, before, after, patterns)
    ensures NoEmptyGroup(after)
  {
  }

  method SelectPattern(dicts: seq<Dictionary>, q: ByteString, selected: Selected) returns (after: Selected)
    requires NoEmptyGroup(selected)
    ensures GrownByKeys(dicts, selected, after, {q})
  {
    OnePatternHits(dicts, q);
    after := SelectTerms(dicts, term => LooksForKey(term, q), false, selected);
    GrownFacts(selected, after, KeyHits(dicts, {q}), {});
    hide NoEmptyGroup, Grown, KeyHits, TermHits;
  }

  method SelectKeyChildren(dicts: seq<Dictionary>, children: seq<SearchPredicate>, selected: Selected) returns (after: Selected)
    requires NoEmptyGroup(selected)
    ensures GrownByKeys(dicts, selected, after, PatternsOf(children, |children|))
    decreases children, 1
  {
    after := selected;
    GrownByNoKeys(dicts, selected);
    hide GrownByKeys, NoEmptyGroup, Patterns;
    for i := 0 to |children|
      invariant NoEmptyGroup(after)
      invariant GrownByKeys(dicts, selected, after, PatternsOf(children, i))
    {
      ghost var before := after;
      after := SelectKeyTerms(dicts, children[i], after);
      GrownByKeysFacts(dicts, before, after, Patterns(children[i]));
      GrownByKeysTwice(dicts, selected, before, after, PatternsOf(children, i), Patterns(children[i]));
    }
  }

  /** `select_terms_for_predicate` over the key dictionaries. */
  method SelectKeyTerms(dicts: seq<Dictionary>, p: SearchPredicate, selected: Selected) returns (after: Selected)
    requires NoEmptyGroup(selected)
    ensures GrownByKeys(dicts, selected, after, Patterns(p))
    decreases p, 0
  {
    after := selected;
    hide GrownByKeys, NoEmptyGroup, PatternsOf;
    match p
    case And(children) =>
      after := SelectKeyChildren(dicts, children, selected);
      ChildrenLeaves(children);
    case Or(children) =>
      after := SelectKeyChildren(dicts, children, selected);
      ChildrenLeaves(children);
    case Not(child) => after := SelectKeyTerms(dicts, child, selected);
    case JsonKey(q) => after := SelectPattern(dicts, q, selected);
    case _ => GrownByNoKeys(dicts, selected);
  }

  // ---- what the finished selection holds ----

  ghost predicate MarksExactly(dicts: seq<Dictionary>, selected: Selected, wanted: ByteString -> bool, positioned: ByteString -> bool) {
    && NoEmptyGroup(selected)
    && (forall g, o :: g in selected && o in selected[g] ==> MarkedTerm(dicts, g, o, wanted))
    && (forall d, o :: d in dicts && 0 <= o < |d.terms| && wanted(d.terms[o]) ==> d.group in selected && o in selected[d.group])
    && (forall d, o :: d in dicts && 0 <= o < |d.terms| && wanted(d.terms[o]) && positioned(d.terms[o]) ==>
          d.group in selected && o in selected[d.group] && selected[d.group][o])
  }

  ghost predicate MarkedTerm(dicts: seq<Dictionary>, g: nat, o: nat, wanted: ByteString -> bool) {
    exists d :: d in dicts && d.group == g && o < |d.terms| && wanted(d.terms[o])
  }

  lemma {:induction false} SelectionExact(dicts: seq<Dictionary>, selected: Selected, wanted: ByteString -> bool, positioned: ByteString -> bool)
    requires NoEmptyGroup(selected)
    requires forall g: nat, o: nat :: (g, o) in Marks(selected) <==> MarkedTerm(dicts, g, o, wanted)
    requires forall g: nat, o: nat :: MarkedTerm(dicts, g, o, positioned) ==> (g, o) in PositionMarks(selected)
    ensures MarksExactly(dicts, selected, wanted, positioned)
  {
    hide NoEmptyGroup;
    forall g, o | g in selected && o in selected[g]
      ensures MarkedTerm(dicts, g, o, wanted)
    {
      assert (g, o) in Marks(selected);
    }
    forall d, o | d in dicts && 0 <= o < |d.terms| && wanted(d.terms[o])
      ensures d.group in selected && o in selected[d.group]
    {
      assert MarkedTerm(dicts, d.group, o, wanted);
      assert (d.group, o) in Marks(selected);
    }
    forall d, o | d in dicts && 0 <= o < |d.terms| && wanted(d.terms[o]) && positioned(d.terms[o])
      ensures d.group in selected && o in selected[d.group] && selected[d.group][o]
    {
      assert MarkedTerm(dicts, d.group, o, positioned);
      assert (d.group, o) in PositionMarks(selected);
    }
  }

  lemma {:induction false} LookupHitsHold(dicts: seq<Dictionary>, l: Lookup, g: nat, o: nat)
    ensures (g, o) in LookupHits(dicts, l) <==> MarkedTerm(dicts, g, o, term => LooksForValue(term, l.field, l.token))
  {
    TermHitsHold(dicts, term => LooksForValue(term, l.field, l.token), g, o);
  }

  lemma {:induction false} PatternHitsHold(dicts: seq<Dictionary>, q: ByteString, g: nat, o: nat)
    ensures (g, o) in PatternHits(dicts, q) <==> MarkedTerm(dicts, g, o, term => LooksForKey(term, q))
  {
    TermHitsHold(dicts, term => LooksForKey(term, q), g, o);
  }

  lemma {:induction false} ValueHitsHold(dicts: seq<Dictionary>, lookups: set<Lookup>, g: nat, o: nat)
    ensures (g, o) in ValueHits(dicts, lookups) <==> MarkedTerm(dicts, g, o, term => ValueTermWanted(lookups, term))
  {
    hide LookupHits, LooksForValue;
    if (g, o) in ValueHits(dicts, lookups) {
      var l :| l in lookups && (g, o) in LookupHits(dicts, l);
      LookupHitsHold(dicts, l, g, o);
      var d :| d in dicts && d.group == g && o < |d.terms| && LooksForValue(d.terms[o], l.field, l.token);
      assert ValueTermWanted(lookups, d.terms[o]);
    }
    if MarkedTerm(dicts, g, o, term => ValueTermWanted(lookups, term)) {
      var d :| d in dicts && d.group == g && o < |d.terms| && ValueTermWanted(lookups, d.terms[o]);
      var l :| l in lookups && LooksForValue(d.terms[o], l.field, l.token);
      LookupHitsHold(dicts, l, g, o);
    }
  }

  lemma {:induction false} PositionHitsHold(dicts: seq<Dictionary>, lookups: set<Lookup>, g: nat, o: nat)
    requires MarkedTerm(dicts, g, o, term => PositionsWanted(lookups, term))
    ensures (g, o) in PositionHits(dicts, lookups)
  {
    hide LookupHits, LooksForValue;
    var d :| d in dicts && d.group == g && o < |d.terms| && PositionsWanted(lookups, d.terms[o]);
    var l :| l in lookups && l.positions && LooksForValue(d.terms[o], l.field, l.token);
    LookupHitsHold(dicts, l, g, o);
  }

  lemma {:induction false} KeyHitsHold(dicts: seq<Dictionary>, patterns: set<ByteString>, g: nat, o: nat)
    ensures (g, o) in KeyHits(dicts, patterns) <==> MarkedTerm(dicts, g, o, term => KeyTermWanted(patterns, term))
  {
    hide PatternHits, LooksForKey;
    if (g, o) in KeyHits(dicts, patterns) {
      var q :| q in patterns && (g, o) in PatternHits(dicts, q);
      PatternHitsHold(dicts, q, g, o);
      var d :| d in dicts && d.group == g && o < |d.terms| && LooksForKey(d.terms[o], q);
      assert KeyTermWanted(patterns, d.terms[o]);
    }
    if MarkedTerm(dicts, g, o, term => KeyTermWanted(patterns, term)) {
      var d :| d in dicts && d.group == g && o < |d.terms| && KeyTermWanted(patterns, d.terms[o]);
      var q :| q in patterns && LooksForKey(d.terms[o], q);
      PatternHitsHold(dicts, q, g, o);
    }
  }

  lemma {:induction false} FirstMarks(dicts: seq<Dictionary>, selected: Selected, hits: set<(nat, nat)>, positioned: set<(nat, nat)>)
    requires Grown(map[], selected, hits, positioned)
    ensures NoEmptyGroup(selected) && Marks(selected) == hits && PositionMarks(selected) == positioned
  {
    var none: Selected := map[];
    assert Marks(none) == {} && PositionMarks(none) == {};
  }

  /** The value-term selection marks exactly the wanted terms, with positions wherever a phrase needs them. */
  lemma {:induction false} ValueSelectionExact(dicts: seq<Dictionary>, selected: Selected, lookups: set<Lookup>)
    requires GrownBy(dicts, map[], selected, lookups)
    ensures MarksExactly(dicts, selected, term => ValueTermWanted(lookups, term), term => PositionsWanted(lookups, term))
  {
    var wanted, positioned := term => ValueTermWanted(lookups, term), term => PositionsWanted(lookups, term);
    FirstMarks(dicts, selected, ValueHits(dicts, lookups), PositionHits(dicts, lookups));
    hide *;
    forall g: nat, o: nat
      ensures (g, o) in Marks(selected) <==> MarkedTerm(dicts, g, o, wanted)
    {
      ValueHitsHold(dicts, lookups, g, o);
    }
    forall g: nat, o: nat | MarkedTerm(dicts, g, o, positioned)
      ensures (g, o) in PositionMarks(selected)
    {
      PositionHitsHold(dicts, lookups, g, o);
    }
    SelectionExact(dicts, selected, wanted, positioned);
  }

  lemma {:induction false} KeySelectionExact(dicts: seq<Dictionary>, selected: Selected, patterns: set<ByteString>)
    requires GrownByKeys(dicts, map[], selected, patterns)
    ensures MarksExactly(dicts, selected, term => KeyTermWanted(patterns, term), term => false)
  {
    var wanted := term => KeyTermWanted(patterns, term);
    FirstMarks(dicts, selected, KeyHits(dicts, patterns), {});
    var never := (term: ByteString) => false;
    assert forall g: nat, o: nat :: !MarkedTerm(dicts, g, o, never);
    hide *;
    forall g: nat, o: nat
      ensures (g, o) in Marks(selected) <==> MarkedTerm(dicts, g, o, wanted)
    {
      KeyHitsHold(dicts, patterns, g, o);
    }
    SelectionExact(dicts, selected, wanted, never);
  }
}
